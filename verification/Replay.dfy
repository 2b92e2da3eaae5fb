/**
 * The replay's comparison: `diff` lists where two values differ, each entry with a printed path,
 * and `valueAt` reads a printed path back. `None` stands for an absent value.
 */
module Replay {
  import opened Text
  import opened Sorting
  import opened Json
  import opened Canonical
  import opened Fixture

  type Maybe = Option<Value>

  datatype Entry = Entry(path: string, expected: Maybe, actual: Maybe)

  function Lookup(entries: seq<(string, Value)>, key: string): (r: Maybe)
    ensures r.Some? <==> HasKey(entries, key)
    ensures r.Some? ==> exists i :: 0 <= i < |entries| && entries[i] == (key, r.value)
  {
    if entries == [] then None
    else if entries[0].0 == key then
      assert entries[0] == (key, entries[0].1);
      Some(entries[0].1)
    else
      var r := Lookup(entries[1..], key);
      assert r.Some? <==> HasKey(entries, key) by { LookupTail(entries, key); }
      assert forall i :: 0 <= i < |entries[1..]| ==> entries[1..][i] == entries[i + 1];
      r
  }

  lemma LookupTail(entries: seq<(string, Value)>, key: string)
    requires entries != [] && entries[0].0 != key
    ensures HasKey(entries, key) <==> HasKey(entries[1..], key)
  {
    if HasKey(entries, key) {
      var j :| 0 <= j < |entries| && entries[j].0 == key;
      assert entries[1..][j - 1].0 == key;
    }
    if HasKey(entries[1..], key) {
      var j :| 0 <= j < |entries[1..]| && entries[1..][j].0 == key;
      assert entries[j + 1].0 == key;
    }
  }

  lemma LookupAt(entries: seq<(string, Value)>, i: nat)
    requires DistinctKeys(entries) && i < |entries|
    ensures Lookup(entries, entries[i].0) == Some(entries[i].1)
  {
    assert HasKey(entries, entries[i].0);
  }

  function SizeOf(x: Maybe): nat {
    if x.None? then 0 else Size(x.value)
  }

  lemma LookupSmaller(entries: seq<(string, Value)>, key: string)
    ensures SizeOf(Lookup(entries, key)) <= SizeEntries(entries)
  {
    var r := Lookup(entries, key);
    if r.Some? {
      var i :| 0 <= i < |entries| && entries[i] == (key, r.value);
      SizeOfEntry(entries, i);
    }
  }

  /** Keys of the first object, then the keys only the second one has. */
  function UnionKeys(xs: seq<(string, Value)>, ys: seq<(string, Value)>): seq<string> {
    KeysOf(xs) + NewKeys(xs, ys)
  }

  function KeysOf(xs: seq<(string, Value)>): (r: seq<string>)
    ensures |r| == |xs|
  {
    seq(|xs|, i requires 0 <= i < |xs| => xs[i].0)
  }

  function NewKeys(xs: seq<(string, Value)>, ys: seq<(string, Value)>): seq<string> {
    if ys == [] then []
    else if Lookup(xs, ys[0].0).Some? then NewKeys(xs, ys[1..])
    else [ys[0].0] + NewKeys(xs, ys[1..])
  }

  function KeyPath(path: string, key: string): string {
    if path != "" then path + "." + key else key
  }

  function IndexPath(path: string, index: nat): string {
    path + "[" + Decimal(index) + "]"
  }

  function CanonicalText(x: Maybe): Option<string> {
    if x.None? then None else Some(CanonicalJson(x.value))
  }

  function Diff(x: Maybe, y: Maybe, path: string): seq<Entry>
    decreases SizeOf(x), 0, 1
  {
    if CanonicalText(x) == CanonicalText(y) then []
    else if x.Some? && y.Some? && x.value.Obj? && y.value.Obj? then
      DiffKeys(UnionKeys(x.value.entries, y.value.entries), x.value.entries, y.value.entries, path)
    else if x.Some? && y.Some? && x.value.Arr? && y.value.Arr? && |x.value.items| == |y.value.items| then
      DiffItems(x.value.items, y.value.items, 0, path)
    else [Entry(path, x, y)]
  }

  function DiffKeys(keys: seq<string>, xs: seq<(string, Value)>, ys: seq<(string, Value)>, path: string): seq<Entry>
    decreases SizeEntries(xs), 1 + |keys|, 0
  {
    if keys == [] then []
    else
      LookupSmaller(xs, keys[0]);
      Diff(Lookup(xs, keys[0]), Lookup(ys, keys[0]), KeyPath(path, keys[0])) + DiffKeys(keys[1..], xs, ys, path)
  }

  function DiffItems(xs: seq<Value>, ys: seq<Value>, i: nat, path: string): seq<Entry>
    requires |xs| == |ys| && i <= |xs|
    decreases SizeItems(xs), 1 + |xs| - i, 0
  {
    if i == |xs| then []
    else
      SizeOfItem(xs, i);
      Diff(Some(xs[i]), Some(ys[i]), IndexPath(path, i)) + DiffItems(xs, ys, i + 1, path)
  }

  // ----- equality of optional values -----

  ghost predicate Sound(x: Maybe) {
    x.Some? ==> WellFormed(x.value)
  }

  ghost predicate SameMaybe(x: Maybe, y: Maybe) {
    if x.Some? && y.Some? then Same(x.value, y.value) else x == y
  }

  lemma TextDecides(x: Maybe, y: Maybe)
    requires Sound(x) && Sound(y)
    ensures CanonicalText(x) == CanonicalText(y) <==> SameMaybe(x, y)
  {
    if x.Some? && y.Some? {
      CanonicalJsonDecidesEquality(x.value, y.value);
    }
  }

  lemma LookupSound(xs: seq<(string, Value)>, key: string)
    requires WellFormed(Obj(xs))
    ensures Sound(Lookup(xs, key))
  {
  }

  ghost predicate SameLookups(xs: seq<(string, Value)>, ys: seq<(string, Value)>) {
    forall k :: SameMaybe(Lookup(xs, k), Lookup(ys, k))
  }

  /** Objects are equal exactly when every key leads to equal values. */
  lemma ObjectsSameIff(xs: seq<(string, Value)>, ys: seq<(string, Value)>)
    requires DistinctKeys(xs) && DistinctKeys(ys)
    ensures Same(Obj(xs), Obj(ys)) <==> SameLookups(xs, ys)
  {
    if Same(Obj(xs), Obj(ys)) {
      forall k
        ensures SameMaybe(Lookup(xs, k), Lookup(ys, k))
      {
        ObjectsSameAt(xs, ys, k);
      }
    }
    if SameLookups(xs, ys) {
      LookupsSame(xs, ys);
    }
  }

  lemma ObjectsSameAt(xs: seq<(string, Value)>, ys: seq<(string, Value)>, k: string)
    requires DistinctKeys(xs) && DistinctKeys(ys) && Same(Obj(xs), Obj(ys))
    ensures SameMaybe(Lookup(xs, k), Lookup(ys, k))
  {
    forall i | 0 <= i < |xs|
      ensures HasKey(ys, xs[i].0)
    {
      assert EntryFound(xs[i], ys, {});
    }
    KeysCover(xs, ys);
    if HasKey(xs, k) {
      var i :| 0 <= i < |xs| && xs[i].0 == k;
      assert EntryFound(xs[i], ys, {});
      var j :| 0 <= j < |ys| && xs[i].0 == ys[j].0 && Equivalent(xs[i].1, ys[j].1, Some(xs[i].0), {});
      LookupAt(xs, i);
      LookupAt(ys, j);
      KeyIrrelevant(xs[i].1, ys[j].1, Some(k));
    }
  }

  lemma LookupsSame(xs: seq<(string, Value)>, ys: seq<(string, Value)>)
    requires DistinctKeys(xs) && DistinctKeys(ys)
    requires SameLookups(xs, ys)
    ensures Same(Obj(xs), Obj(ys))
  {
    forall i | 0 <= i < |xs|
      ensures HasKey(ys, xs[i].0) && EntryFound(xs[i], ys, {})
    {
      LookupAt(xs, i);
      assert SameMaybe(Lookup(xs, xs[i].0), Lookup(ys, xs[i].0));
      var v := Lookup(ys, xs[i].0).value;
      var j :| 0 <= j < |ys| && ys[j] == (xs[i].0, v);
      KeyIrrelevant(xs[i].1, ys[j].1, Some(xs[i].0));
    }
    forall j | 0 <= j < |ys|
      ensures HasKey(xs, ys[j].0)
    {
      LookupAt(ys, j);
      assert SameMaybe(Lookup(xs, ys[j].0), Lookup(ys, ys[j].0));
    }
    NoMoreKeys(xs, ys);
    NoMoreKeys(ys, xs);
  }

  lemma {:induction false} NoMoreKeys(xs: seq<(string, Value)>, ys: seq<(string, Value)>)
    requires DistinctKeys(xs) && forall i :: 0 <= i < |xs| ==> HasKey(ys, xs[i].0)
    ensures |xs| <= |ys|
    decreases |xs|
  {
    if xs != [] {
      assert HasKey(ys, xs[0].0);
      var j :| 0 <= j < |ys| && ys[j].0 == xs[0].0;
      var rest := ys[..j] + ys[j + 1..];
      forall i | 0 <= i < |xs[1..]|
        ensures HasKey(rest, xs[1..][i].0)
      {
        assert HasKey(ys, xs[i + 1].0);
        var k :| 0 <= k < |ys| && ys[k].0 == xs[i + 1].0;
        assert rest[if k < j then k else k - 1] == ys[k];
      }
      NoMoreKeys(xs[1..], rest);
    }
  }

  // ----- which keys are visited -----

  lemma {:induction false} NewKeysHold(xs: seq<(string, Value)>, ys: seq<(string, Value)>, k: string)
    ensures k in NewKeys(xs, ys) <==> Lookup(xs, k).None? && Lookup(ys, k).Some?
    decreases |ys|
  {
    if ys != [] {
      NewKeysHold(xs, ys[1..], k);
    }
  }

  lemma UnionKeysHold(xs: seq<(string, Value)>, ys: seq<(string, Value)>, k: string)
    ensures k in UnionKeys(xs, ys) <==> Lookup(xs, k).Some? || Lookup(ys, k).Some?
  {
    NewKeysHold(xs, ys, k);
    if Lookup(xs, k).Some? {
      var i :| 0 <= i < |xs| && xs[i].0 == k;
      assert KeysOf(xs)[i] == k;
    }
    if k in KeysOf(xs) {
      var i :| 0 <= i < |xs| && KeysOf(xs)[i] == k;
      assert xs[i].0 == k;
    }
  }

  // ----- an empty diff means equality -----

  /** `diff` finds nothing exactly for values whose canonical forms agree. */
  lemma {:induction false} EmptyDiffIff(x: Maybe, y: Maybe, path: string)
    requires Sound(x) && Sound(y)
    ensures Diff(x, y, path) == [] <==> SameMaybe(x, y)
    decreases SizeOf(x), 0, 1
  {
    TextDecides(x, y);
    if !SameMaybe(x, y) && x.Some? && y.Some? {
      if x.value.Obj? && y.value.Obj? {
        var xs, ys := x.value.entries, y.value.entries;
        ObjectsSameIff(xs, ys);
        var k :| !SameMaybe(Lookup(xs, k), Lookup(ys, k));
        UnionKeysHold(xs, ys, k);
        KeyDiffShows(UnionKeys(xs, ys), xs, ys, path, k);
      } else if x.value.Arr? && y.value.Arr? && |x.value.items| == |y.value.items| {
        var xs, ys := x.value.items, y.value.items;
        EquivalentOrdered(xs, ys, None, {});
        var i :| 0 <= i < |xs| && !Equivalent(xs[i], ys[i], None, {});
        ItemDiffShows(xs, ys, 0, path, i);
      }
    }
  }

  lemma {:induction false} KeyDiffShows(keys: seq<string>, xs: seq<(string, Value)>, ys: seq<(string, Value)>,
                                        path: string, k: string)
    requires WellFormed(Obj(xs)) && WellFormed(Obj(ys)) && k in keys
    requires !SameMaybe(Lookup(xs, k), Lookup(ys, k))
    ensures DiffKeys(keys, xs, ys, path) != []
    decreases SizeEntries(xs), 1 + |keys|, 0
  {
    if keys[0] == k {
      LookupSmaller(xs, k);
      LookupSound(xs, k);
      LookupSound(ys, k);
      EmptyDiffIff(Lookup(xs, k), Lookup(ys, k), KeyPath(path, k));
    } else {
      KeyDiffShows(keys[1..], xs, ys, path, k);
    }
  }

  lemma {:induction false} ItemDiffShows(xs: seq<Value>, ys: seq<Value>, i: nat, path: string, k: nat)
    requires |xs| == |ys| && i <= k < |xs| && !Same(xs[k], ys[k])
    requires forall j :: 0 <= j < |xs| ==> WellFormed(xs[j]) && WellFormed(ys[j])
    ensures DiffItems(xs, ys, i, path) != []
    decreases SizeItems(xs), 1 + |xs| - i, 0
  {
    if i == k {
      SizeOfItem(xs, k);
      EmptyDiffIff(Some(xs[k]), Some(ys[k]), IndexPath(path, k));
    } else {
      ItemDiffShows(xs, ys, i + 1, path, k);
    }
  }

  // ----- a diff goes as deep as it can -----

  /** Two different values that are not both objects, and not both arrays of one length. */
  ghost predicate Leaf(e: Entry) {
    && CanonicalText(e.expected) != CanonicalText(e.actual)
    && !(e.expected.Some? && e.actual.Some? && e.expected.value.Obj? && e.actual.value.Obj?)
    && !(e.expected.Some? && e.actual.Some? && e.expected.value.Arr? && e.actual.value.Arr? &&
         |e.expected.value.items| == |e.actual.value.items|)
  }

  ghost predicate Leaves(entries: seq<Entry>) {
    forall i :: 0 <= i < |entries| ==> Leaf(entries[i])
  }

  lemma LeavesJoin(a: seq<Entry>, b: seq<Entry>)
    requires Leaves(a) && Leaves(b)
    ensures Leaves(a + b)
  {
  }

  /** Every entry names a place where the values differ and cannot be compared any deeper. */
  lemma {:induction false} EntriesAreLeaves(x: Maybe, y: Maybe, path: string)
    ensures Leaves(Diff(x, y, path))
    decreases SizeOf(x), 0, 1
  {
    if CanonicalText(x) != CanonicalText(y) && x.Some? && y.Some? {
      if x.value.Obj? && y.value.Obj? {
        KeysAreLeaves(UnionKeys(x.value.entries, y.value.entries), x.value.entries, y.value.entries, path);
      } else if x.value.Arr? && y.value.Arr? && |x.value.items| == |y.value.items| {
        ItemsAreLeaves(x.value.items, y.value.items, 0, path);
      }
    }
  }

  lemma {:induction false} KeysAreLeaves(keys: seq<string>, xs: seq<(string, Value)>, ys: seq<(string, Value)>,
                                         path: string)
    ensures Leaves(DiffKeys(keys, xs, ys, path))
    decreases SizeEntries(xs), 1 + |keys|, 0
  {
    if keys != [] {
      LookupSmaller(xs, keys[0]);
      EntriesAreLeaves(Lookup(xs, keys[0]), Lookup(ys, keys[0]), KeyPath(path, keys[0]));
      KeysAreLeaves(keys[1..], xs, ys, path);
      LeavesJoin(Diff(Lookup(xs, keys[0]), Lookup(ys, keys[0]), KeyPath(path, keys[0])),
                 DiffKeys(keys[1..], xs, ys, path));
    }
  }

  lemma {:induction false} ItemsAreLeaves(xs: seq<Value>, ys: seq<Value>, i: nat, path: string)
    requires |xs| == |ys| && i <= |xs|
    ensures Leaves(DiffItems(xs, ys, i, path))
    decreases SizeItems(xs), 1 + |xs| - i, 0
  {
    if i < |xs| {
      SizeOfItem(xs, i);
      EntriesAreLeaves(Some(xs[i]), Some(ys[i]), IndexPath(path, i));
      ItemsAreLeaves(xs, ys, i + 1, path);
      LeavesJoin(Diff(Some(xs[i]), Some(ys[i]), IndexPath(path, i)), DiffItems(xs, ys, i + 1, path));
    }
  }
}
