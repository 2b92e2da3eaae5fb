/** A diff is complete: patching the expected value with all its entries rebuilds the actual one. */
module ReplayPatch {
  import opened Text
  import opened Sorting
  import opened Json
  import opened Canonical
  import opened Fixture
  import opened Replay
  import opened ReplayPaths

  /** Sets, adds or removes one key. */
  function Replace(es: seq<(string, Value)>, k: string, c: Maybe): seq<(string, Value)> {
    if es == [] then (if c.Some? then [(k, c.value)] else [])
    else if es[0].0 == k then (if c.Some? then [(k, c.value)] + es[1..] else es[1..])
    else [es[0]] + Replace(es[1..], k, c)
  }

  /** Writes a value at the end of a path; a path that leads nowhere changes nothing. */
  function SetAt(x: Maybe, parts: seq<string>, new': Maybe): Maybe
    decreases |parts|
  {
    if parts == [] then new'
    else if x.Some? && x.value.Obj? then
      Some(Obj(Replace(x.value.entries, parts[0], SetAt(Lookup(x.value.entries, parts[0]), parts[1..], new'))))
    else if x.Some? && x.value.Arr? && IndexOf(|x.value.items|, parts[0], 0).Some? then
      var i := IndexOf(|x.value.items|, parts[0], 0).value;
      var c := SetAt(Some(x.value.items[i]), parts[1..], new');
      if c.Some? then Some(Arr(x.value.items[i := c.value])) else x
    else x
  }

  function DropParts(path: string, n: nat): seq<string> {
    var parts := PathParts(path);
    if n <= |parts| then parts[n..] else []
  }

  /** Applies the entries in order, below the first `n` parts of their paths. */
  function Patch(x: Maybe, d: seq<Entry>, n: nat): Maybe
    decreases |d|
  {
    if d == [] then x else Patch(SetAt(x, DropParts(d[0].path, n), d[0].actual), d[1..], n)
  }

  lemma {:induction false} PatchConcat(x: Maybe, a: seq<Entry>, b: seq<Entry>, n: nat)
    ensures Patch(x, a + b, n) == Patch(Patch(x, a, n), b, n)
    decreases |a|
  {
    if a == [] {
      assert a + b == b;
    } else {
      assert (a + b)[1..] == a[1..] + b;
      PatchConcat(SetAt(x, DropParts(a[0].path, n), a[0].actual), a[1..], b, n);
    }
  }

  // ----- replacing one key -----

  lemma {:induction false} ReplaceLookup(es: seq<(string, Value)>, k: string, c: Maybe, j: string)
    requires DistinctKeys(es)
    ensures Lookup(Replace(es, k, c), j) == if j == k then c else Lookup(es, j)
    decreases |es|
  {
    var r := Replace(es, k, c);
    if es == [] {
      if c.Some? {
        assert r[1..] == [];
      }
    } else if es[0].0 == k {
      if c.Some? {
        assert r[1..] == es[1..];
        assert Lookup(r, j) == if j == k then c else Lookup(es[1..], j);
      } else {
        assert r == es[1..];
        KeyNotInTail(es);
      }
    } else {
      ReplaceLookup(es[1..], k, c, j);
      assert r[0] == es[0] && r[1..] == Replace(es[1..], k, c);
    }
  }

  lemma KeyNotInTail(es: seq<(string, Value)>)
    requires es != [] && DistinctKeys(es)
    ensures Lookup(es[1..], es[0].0) == None
  {
    assert forall j :: 0 <= j < |es[1..]| ==> es[1..][j] == es[j + 1];
  }

  lemma {:induction false} ReplaceDistinct(es: seq<(string, Value)>, k: string, c: Maybe)
    requires DistinctKeys(es)
    ensures DistinctKeys(Replace(es, k, c))
    decreases |es|
  {
    if es != [] && es[0].0 != k {
      ReplaceDistinct(es[1..], k, c);
      var t := Replace(es[1..], k, c);
      ReplaceLookup(es[1..], k, c, es[0].0);
      KeyNotInTail(es);
      forall i | 0 <= i < |t|
        ensures t[i].0 != es[0].0
      {
        if t[i].0 == es[0].0 {
          assert HasKey(t, es[0].0);
        }
      }
    }
  }

  // ----- where the entries of a diff point -----

  /** Paths extend the given prefix, and an entry at the prefix itself leaves something there. */
  ghost predicate Under(d: seq<Entry>, prefix: seq<string>) {
    forall i :: 0 <= i < |d| ==> prefix <= PathParts(d[i].path)
  }

  ghost predicate Present(d: seq<Entry>, n: nat) {
    forall i :: 0 <= i < |d| && |PathParts(d[i].path)| <= n ==> d[i].actual.Some?
  }

  lemma {:induction false} DiffUnder(x: Maybe, y: Maybe, path: string)
    requires PlainMaybe(x) && PlainMaybe(y)
    ensures Under(Diff(x, y, path), PathParts(path))
    ensures y.Some? ==> Present(Diff(x, y, path), |PathParts(path)|)
    decreases SizeOf(x), 0, 1
  {
    if CanonicalText(x) != CanonicalText(y) && x.Some? && y.Some? {
      if x.value.Obj? && y.value.Obj? {
        var xs, ys := x.value.entries, y.value.entries;
        forall k | k in UnionKeys(xs, ys)
          ensures Plain(k)
        {
          UnionKeysHold(xs, ys, k);
          PlainLookup(xs, k);
          PlainLookup(ys, k);
        }
        KeysUnder(UnionKeys(xs, ys), xs, ys, path);
      } else if x.value.Arr? && y.value.Arr? && |x.value.items| == |y.value.items| {
        ItemsUnder(x.value.items, y.value.items, 0, path);
      }
    }
  }

  /** Entries strictly below a prefix. */
  ghost predicate Below(d: seq<Entry>, prefix: seq<string>) {
    Under(d, prefix) && forall i :: 0 <= i < |d| ==> |PathParts(d[i].path)| > |prefix|
  }

  lemma UnderChild(d: seq<Entry>, prefix: seq<string>, part: string)
    requires Under(d, prefix + [part])
    ensures Below(d, prefix)
  {
    forall i | 0 <= i < |d|
      ensures prefix <= PathParts(d[i].path) && |PathParts(d[i].path)| > |prefix|
    {
      var parts := PathParts(d[i].path);
      assert prefix + [part] <= parts;
      assert prefix == (prefix + [part])[..|prefix|] == parts[..|prefix|];
    }
  }

  lemma {:induction false} KeysUnder(keys: seq<string>, xs: seq<(string, Value)>, ys: seq<(string, Value)>,
                                     path: string)
    requires PlainKeys(Obj(xs)) && PlainKeys(Obj(ys)) && forall i :: 0 <= i < |keys| ==> Plain(keys[i])
    ensures Below(DiffKeys(keys, xs, ys, path), PathParts(path))
    decreases SizeEntries(xs), 1 + |keys|, 0
  {
    if keys != [] {
      var k := keys[0];
      LookupSmaller(xs, k);
      PlainLookup(xs, k);
      PlainLookup(ys, k);
      KeyPathParts(path, k);
      DiffUnder(Lookup(xs, k), Lookup(ys, k), KeyPath(path, k));
      UnderChild(Diff(Lookup(xs, k), Lookup(ys, k), KeyPath(path, k)), PathParts(path), k);
      KeysUnder(keys[1..], xs, ys, path);
    }
  }

  lemma {:induction false} ItemsUnder(xs: seq<Value>, ys: seq<Value>, i: nat, path: string)
    requires |xs| == |ys| && i <= |xs| && PlainKeys(Arr(xs)) && PlainKeys(Arr(ys))
    ensures Below(DiffItems(xs, ys, i, path), PathParts(path))
    decreases SizeItems(xs), 1 + |xs| - i, 0
  {
    if i < |xs| {
      SizeOfItem(xs, i);
      IndexPathParts(path, i);
      DiffUnder(Some(xs[i]), Some(ys[i]), IndexPath(path, i));
      UnderChild(Diff(Some(xs[i]), Some(ys[i]), IndexPath(path, i)), PathParts(path), Decimal(i));
      ItemsUnder(xs, ys, i + 1, path);
    }
  }

  // ----- patching one child -----

  lemma DropChild(path: string, prefix: seq<string>, part: string)
    requires prefix + [part] <= PathParts(path)
    ensures DropParts(path, |prefix|) == [part] + DropParts(path, |prefix| + 1)
  {
    var parts := PathParts(path);
    assert parts[|prefix|] == (prefix + [part])[|prefix|] == part;
  }

  /** Entries below one key of an object change that key only. */
  lemma {:induction false} PatchKey(es: seq<(string, Value)>, d: seq<Entry>, prefix: seq<string>, k: string)
    returns (r: seq<(string, Value)>)
    requires DistinctKeys(es) && Under(d, prefix + [k])
    ensures Patch(Some(Obj(es)), d, |prefix|) == Some(Obj(r)) && DistinctKeys(r)
    ensures Lookup(r, k) == Patch(Lookup(es, k), d, |prefix| + 1)
    ensures forall j :: j != k ==> Lookup(r, j) == Lookup(es, j)
    decreases |d|
  {
    if d == [] {
      r := es;
    } else {
      DropChild(d[0].path, prefix, k);
      var rest := DropParts(d[0].path, |prefix| + 1);
      assert ([k] + rest)[1..] == rest;
      var c := SetAt(Lookup(es, k), rest, d[0].actual);
      var next := Replace(es, k, c);
      ReplaceDistinct(es, k, c);
      ReplaceLookup(es, k, c, k);
      r := PatchKey(next, d[1..], prefix, k);
      forall j | j != k
        ensures Lookup(r, j) == Lookup(es, j)
      {
        ReplaceLookup(es, k, c, j);
      }
    }
  }

  lemma SetAtStaysPresent(x: Maybe, parts: seq<string>, new': Maybe)
    requires x.Some? && (parts == [] ==> new'.Some?)
    ensures SetAt(x, parts, new').Some?
  {
  }

  /** Entries below one index of an array change that element only. */
  lemma {:induction false} PatchIndex(items: seq<Value>, d: seq<Entry>, prefix: seq<string>, i: nat) returns (c: Value)
    requires i < |items| && Under(d, prefix + [Decimal(i)]) && Present(d, |prefix| + 1)
    ensures Patch(Some(Arr(items)), d, |prefix|) == Some(Arr(items[i := c]))
    ensures Patch(Some(items[i]), d, |prefix| + 1) == Some(c)
    decreases |d|
  {
    if d == [] {
      c := items[i];
      assert items[i := c] == items;
    } else {
      DropChild(d[0].path, prefix, Decimal(i));
      var rest := DropParts(d[0].path, |prefix| + 1);
      assert ([Decimal(i)] + rest)[1..] == rest;
      IndexOfDecimal(|items|, i);
      SetAtStaysPresent(Some(items[i]), rest, d[0].actual);
      var v := SetAt(Some(items[i]), rest, d[0].actual).value;
      c := PatchIndex(items[i := v], d[1..], prefix, i);
      assert items[i := v][i := c] == items[i := c];
    }
  }

  // ----- the whole diff -----

  ghost predicate DistinctTexts(keys: seq<string>) {
    forall i, j :: 0 <= i < j < |keys| ==> keys[i] != keys[j]
  }

  lemma {:induction false} NewKeysDistinct(xs: seq<(string, Value)>, ys: seq<(string, Value)>)
    requires DistinctKeys(ys)
    ensures DistinctTexts(NewKeys(xs, ys))
    decreases |ys|
  {
    if ys != [] {
      NewKeysDistinct(xs, ys[1..]);
      if Lookup(xs, ys[0].0).None? {
        NewKeysHold(xs, ys[1..], ys[0].0);
        KeyNotInTail(ys);
        var t := NewKeys(xs, ys[1..]);
        assert forall i :: 0 <= i < |t| ==> t[i] in t;
      }
    }
  }

  lemma UnionKeysDistinct(xs: seq<(string, Value)>, ys: seq<(string, Value)>)
    requires DistinctKeys(xs) && DistinctKeys(ys)
    ensures DistinctTexts(UnionKeys(xs, ys))
  {
    NewKeysDistinct(xs, ys);
    var a, b := KeysOf(xs), NewKeys(xs, ys);
    forall i, j | 0 <= i < |a| && 0 <= j < |b|
      ensures a[i] != b[j]
    {
      assert b[j] in b;
      NewKeysHold(xs, ys, b[j]);
      assert a[i] == xs[i].0 && HasKey(xs, a[i]);
    }
  }

  lemma {:induction false} SameRefl(v: Value)
    ensures Same(v, v)
    decreases v
  {
    match v {
      case Arr(items) =>
        forall i | 0 <= i < |items|
          ensures Equivalent(items[i], items[i], None, {})
        {
          SameRefl(items[i]);
        }
      case Obj(entries) =>
        forall i | 0 <= i < |entries|
          ensures EntryFound(entries[i], entries, {})
        {
          SameRefl(entries[i].1);
          KeyIrrelevant(entries[i].1, entries[i].1, Some(entries[i].0));
        }
      case _ =>
    }
  }

  /** Patching with the diff of `x` against `y` rebuilds `y` up to object key order. */
  lemma {:induction false} PatchRebuilds(x: Maybe, y: Maybe, path: string)
    requires Sound(x) && Sound(y) && PlainMaybe(x) && PlainMaybe(y)
    ensures SameMaybe(Patch(x, Diff(x, y, path), |PathParts(path)|), y)
    decreases SizeOf(x), 0, 1
  {
    TextDecides(x, y);
    if CanonicalText(x) != CanonicalText(y) {
      if x.Some? && y.Some? && x.value.Obj? && y.value.Obj? {
        var xs, ys := x.value.entries, y.value.entries;
        UnionKeysDistinct(xs, ys);
        UnionKeysPlain(xs, ys);
        var r := PatchKeys(UnionKeys(xs, ys), xs, ys, xs, path);
        forall k
          ensures SameMaybe(Lookup(r, k), Lookup(ys, k))
        {
          UnionKeysHold(xs, ys, k);
        }
        LookupsSame(r, ys);
      } else if x.Some? && y.Some? && x.value.Arr? && y.value.Arr? && |x.value.items| == |y.value.items| {
        var r := PatchItems(x.value.items, y.value.items, x.value.items, 0, path);
        EquivalentOrdered(r, y.value.items, None, {});
      } else {
        PatchWhole(x, y, path);
      }
    }
  }

  lemma UnionKeysPlain(xs: seq<(string, Value)>, ys: seq<(string, Value)>)
    requires PlainKeys(Obj(xs)) && PlainKeys(Obj(ys))
    ensures forall k :: k in UnionKeys(xs, ys) ==> Plain(k)
  {
    forall k | k in UnionKeys(xs, ys)
      ensures Plain(k)
    {
      UnionKeysHold(xs, ys, k);
      PlainLookup(xs, k);
      PlainLookup(ys, k);
    }
  }

  lemma PatchWhole(x: Maybe, y: Maybe, path: string)
    ensures SameMaybe(Patch(x, [Entry(path, x, y)], |PathParts(path)|), y)
  {
    var d := [Entry(path, x, y)];
    assert d[1..] == [];
    assert DropParts(path, |PathParts(path)|) == [];
    assert Patch(x, d, |PathParts(path)|) == y;
    if y.Some? {
      SameRefl(y.value);
    }
  }

  /** Key by key: visited keys agree with `ys`, the others are untouched. */
  lemma {:induction false} PatchKeys(keys: seq<string>, xs: seq<(string, Value)>, ys: seq<(string, Value)>,
                                     now: seq<(string, Value)>, path: string)
    returns (r: seq<(string, Value)>)
    requires WellFormed(Obj(xs)) && WellFormed(Obj(ys)) && PlainKeys(Obj(xs)) && PlainKeys(Obj(ys))
    requires DistinctTexts(keys) && forall k :: k in keys ==> Plain(k)
    requires DistinctKeys(now) && forall k :: k in keys ==> Lookup(now, k) == Lookup(xs, k)
    ensures Patch(Some(Obj(now)), DiffKeys(keys, xs, ys, path), |PathParts(path)|) == Some(Obj(r)) && DistinctKeys(r)
    ensures forall k :: k in keys ==> SameMaybe(Lookup(r, k), Lookup(ys, k))
    ensures forall k :: k !in keys ==> Lookup(r, k) == Lookup(now, k)
    decreases SizeEntries(xs), 1 + |keys|, 0
  {
    if keys == [] {
      r := now;
    } else {
      var k, prefix := keys[0], PathParts(path);
      var d := Diff(Lookup(xs, k), Lookup(ys, k), KeyPath(path, k));
      assert k in keys;
      LookupSmaller(xs, k);
      LookupSound(xs, k);
      LookupSound(ys, k);
      PlainLookup(xs, k);
      PlainLookup(ys, k);
      KeyPathParts(path, k);
      DiffUnder(Lookup(xs, k), Lookup(ys, k), KeyPath(path, k));
      PatchRebuilds(Lookup(xs, k), Lookup(ys, k), KeyPath(path, k));
      var next := PatchKey(now, d, prefix, k);
      assert k !in keys[1..];
      r := PatchKeys(keys[1..], xs, ys, next, path);
      PatchConcat(Some(Obj(now)), d, DiffKeys(keys[1..], xs, ys, path), |prefix|);
    }
  }

  /** Element by element: elements before `i` agree with `ys`, the others are untouched. */
  lemma {:induction false} PatchItems(xs: seq<Value>, ys: seq<Value>, now: seq<Value>, i: nat, path: string)
    returns (r: seq<Value>)
    requires |xs| == |ys| == |now| && i <= |xs|
    requires WellFormed(Arr(xs)) && WellFormed(Arr(ys)) && PlainKeys(Arr(xs)) && PlainKeys(Arr(ys))
    requires forall j :: 0 <= j < i ==> Same(now[j], ys[j])
    requires forall j :: i <= j < |xs| ==> now[j] == xs[j]
    ensures Patch(Some(Arr(now)), DiffItems(xs, ys, i, path), |PathParts(path)|) == Some(Arr(r))
    ensures |r| == |ys| && forall j :: 0 <= j < |ys| ==> Same(r[j], ys[j])
    decreases SizeItems(xs), 1 + |xs| - i, 0
  {
    if i == |xs| {
      r := now;
    } else {
      var c := PatchItem(xs, ys, now, i, path);
      var next := now[i := c];
      r := PatchItems(xs, ys, next, i + 1, path);
      PatchConcat(Some(Arr(now)), Diff(Some(xs[i]), Some(ys[i]), IndexPath(path, i)), DiffItems(xs, ys, i + 1, path),
                  |PathParts(path)|);
    }
  }

  lemma {:induction false} PatchItem(xs: seq<Value>, ys: seq<Value>, now: seq<Value>, i: nat, path: string)
    returns (c: Value)
    requires |xs| == |ys| == |now| && i < |xs| && now[i] == xs[i]
    requires WellFormed(xs[i]) && WellFormed(ys[i]) && PlainKeys(xs[i]) && PlainKeys(ys[i])
    ensures Patch(Some(Arr(now)), Diff(Some(xs[i]), Some(ys[i]), IndexPath(path, i)), |PathParts(path)|) ==
      Some(Arr(now[i := c]))
    ensures Same(c, ys[i])
    decreases SizeItems(xs), |xs| - i, 0
  {
    SizeOfItem(xs, i);
    IndexPathParts(path, i);
    DiffUnder(Some(xs[i]), Some(ys[i]), IndexPath(path, i));
    PatchRebuilds(Some(xs[i]), Some(ys[i]), IndexPath(path, i));
    c := PatchIndex(now, Diff(Some(xs[i]), Some(ys[i]), IndexPath(path, i)), PathParts(path), i);
  }

  /** Applying all entries of a diff to the expected value gives the actual value. */
  lemma DiffIsComplete(x: Value, y: Value)
    requires WellFormed(x) && WellFormed(y) && PlainKeys(x) && PlainKeys(y)
    ensures SameMaybe(Patch(Some(x), Diff(Some(x), Some(y), ""), 0), Some(y))
  {
    assert PathParts("") == [];
    PatchRebuilds(Some(x), Some(y), "");
  }
}
