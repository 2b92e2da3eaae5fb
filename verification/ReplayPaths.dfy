/** Printed paths: reading them back with `valueAt`, and patching a value with a whole diff. */
module ReplayPaths {
  import opened Text
  import opened Json
  import opened Replay

  // ----- splitting a path -----

  predicate Separator(c: char) {
    c == '.' || c == '[' || c == ']'
  }

  /** `path.split(/\.|\[|\]/u).filter(Boolean)`, with the part read so far. */
  function Tokens(s: string, part: string): seq<string> {
    if s == "" then Flush(part)
    else if Separator(s[0]) then Flush(part) + Tokens(s[1..], "")
    else Tokens(s[1..], part + [s[0]])
  }

  function PathParts(path: string): seq<string> {
    Tokens(path, "")
  }

  /** Keys a printed path can carry: not empty and free of separators. */
  predicate Plain(key: string) {
    key != "" && forall i :: 0 <= i < |key| ==> !Separator(key[i])
  }

  lemma {:induction false} TokensSplit(a: string, c: char, b: string, part: string)
    requires Separator(c)
    ensures Tokens(a + [c] + b, part) == Tokens(a, part) + Tokens(b, "")
    decreases |a|
  {
    var s := a + [c] + b;
    if a == "" {
      assert s[0] == c && s[1..] == b;
    } else {
      assert s[0] == a[0] && s[1..] == a[1..] + [c] + b;
      if Separator(a[0]) {
        TokensSplit(a[1..], c, b, "");
        assert Flush(part) + (Tokens(a[1..], "") + Tokens(b, "")) == Flush(part) + Tokens(a[1..], "") + Tokens(b, "");
      } else {
        TokensSplit(a[1..], c, b, part + [a[0]]);
      }
    }
  }

  lemma {:induction false} TokensPlain(k: string, part: string)
    requires forall i :: 0 <= i < |k| ==> !Separator(k[i])
    ensures Tokens(k, part) == Flush(part + k)
    decreases |k|
  {
    if k == "" {
      assert part + k == part;
    } else {
      TokensPlain(k[1..], part + [k[0]]);
      assert part + [k[0]] + k[1..] == part + k;
    }
  }

  lemma KeyPathParts(path: string, key: string)
    requires Plain(key)
    ensures PathParts(KeyPath(path, key)) == PathParts(path) + [key]
  {
    TokensPlain(key, "");
    assert "" + key == key;
    if path != "" {
      TokensSplit(path, '.', key, "");
    } else {
      assert PathParts(path) == [];
    }
  }

  lemma IndexPathParts(path: string, i: nat)
    ensures PathParts(IndexPath(path, i)) == PathParts(path) + [Decimal(i)]
  {
    var d := Decimal(i);
    assert IndexPath(path, i) == path + ['['] + (d + "]");
    TokensSplit(path, '[', d + "]", "");
    assert d + "]" == d + [']'] + "";
    TokensSplit(d, ']', "", "");
    TokensPlain(d, "");
    assert "" + d == d;
    assert Tokens("", "") == [];
  }

  // ----- reading a path -----

  /** The index a decimal part names, searching from `i`. */
  function IndexOf(n: nat, part: string, i: nat): (r: Option<nat>)
    requires i <= n
    ensures r.Some? ==> i <= r.value < n && Decimal(r.value) == part
    ensures r.None? ==> forall j :: i <= j < n ==> Decimal(j) != part
    decreases n - i
  {
    if i == n then None else if Decimal(i) == part then Some(i) else IndexOf(n, part, i + 1)
  }

  lemma IndexOfDecimal(n: nat, i: nat)
    requires i < n
    ensures IndexOf(n, Decimal(i), 0) == Some(i)
  {
    var r := IndexOf(n, Decimal(i), 0);
    DecimalInjective(r.value, i);
  }

  /** Property access on a value that may be absent or not an object. */
  function Get(x: Maybe, part: string): Maybe {
    if x.None? then None
    else match x.value
      case Obj(entries) => Lookup(entries, part)
      case Arr(items) =>
        var i := IndexOf(|items|, part, 0);
        if i.Some? then Some(items[i.value])
        else if part == "length" then Some(Num(Decimal(|items|)))
        else None
      case _ => None
  }

  function Walk(x: Maybe, parts: seq<string>): Maybe
    decreases |parts|
  {
    if parts == [] then x else Walk(Get(x, parts[0]), parts[1..])
  }

  /** `valueAt`: walks the parts of a path, stopping at the first value that is no object. */
  method ValueAt(root: Maybe, path: string) returns (current: Maybe)
    ensures current == Walk(root, PathParts(path))
  {
    var parts := PathParts(path);
    current := root;
    assert parts[0..] == parts;
    for i := 0 to |parts|
      invariant Walk(current, parts[i..]) == Walk(root, parts)
    {
      assert parts[i..][1..] == parts[i + 1..];
      if current.None? || !(current.value.Obj? || current.value.Arr?) {
        WalkNone(parts[i + 1..]);
        return None;
      }
      current := Get(current, parts[i]);
    }
    assert parts[|parts|..] == [];
  }

  lemma {:induction false} WalkNone(parts: seq<string>)
    ensures Walk(None, parts) == None
  {
    if parts != [] {
      WalkNone(parts[1..]);
    }
  }

  lemma {:induction false} WalkAppends(x: Maybe, parts: seq<string>, part: string)
    ensures Walk(x, parts + [part]) == Get(Walk(x, parts), part)
    decreases |parts|
  {
    if parts == [] {
      assert [part][1..] == [];
      assert parts + [part] == [part];
      assert Walk(x, [part]) == Walk(Get(x, part), []);
    } else {
      assert (parts + [part])[1..] == parts[1..] + [part];
      WalkAppends(Get(x, parts[0]), parts[1..], part);
    }
  }

  // ----- every printed path leads back -----

  predicate PlainKeys(v: Value)
    decreases v, 1
  {
    match v
    case Arr(items) => forall i :: 0 <= i < |items| ==> PlainKeys(items[i])
    case Obj(entries) => forall i :: 0 <= i < |entries| ==> PlainEntry(entries[i])
    case _ => true
  }

  predicate PlainEntry(e: (string, Value))
    decreases e, 2
  {
    Plain(e.0) && PlainKeys(e.1)
  }

  ghost predicate PlainMaybe(x: Maybe) {
    x.Some? ==> PlainKeys(x.value)
  }

  lemma PlainLookup(xs: seq<(string, Value)>, k: string)
    requires PlainKeys(Obj(xs))
    ensures PlainMaybe(Lookup(xs, k)) && (Lookup(xs, k).Some? ==> Plain(k))
  {
    if Lookup(xs, k).Some? {
      var i :| 0 <= i < |xs| && xs[i] == (k, Lookup(xs, k).value);
      assert PlainEntry(xs[i]);
    }
  }

  /** Every entry of a diff names the place its two values stand at. */
  ghost predicate LeadsBack(d: seq<Entry>, rootX: Maybe, rootY: Maybe) {
    forall i :: 0 <= i < |d| ==>
      Walk(rootX, PathParts(d[i].path)) == d[i].expected && Walk(rootY, PathParts(d[i].path)) == d[i].actual
  }

  lemma {:induction false} DiffLeadsBack(x: Maybe, y: Maybe, path: string, rootX: Maybe, rootY: Maybe)
    requires PlainMaybe(x) && PlainMaybe(y)
    requires Walk(rootX, PathParts(path)) == x && Walk(rootY, PathParts(path)) == y
    ensures LeadsBack(Diff(x, y, path), rootX, rootY)
    decreases SizeOf(x), 0, 1
  {
    if CanonicalText(x) != CanonicalText(y) && x.Some? && y.Some? {
      if x.value.Obj? && y.value.Obj? {
        var xs, ys := x.value.entries, y.value.entries;
        forall k | k in UnionKeys(xs, ys)
          ensures Plain(k)
        {
          UnionKeysHold(xs, ys, k);
          PlainLookup(xs, k);
          PlainLookup(ys, k);
        }
        KeysLeadBack(UnionKeys(xs, ys), xs, ys, path, rootX, rootY);
      } else if x.value.Arr? && y.value.Arr? && |x.value.items| == |y.value.items| {
        ItemsLeadBack(x.value.items, y.value.items, 0, path, rootX, rootY);
      }
    }
  }

  lemma {:induction false} KeysLeadBack(keys: seq<string>, xs: seq<(string, Value)>, ys: seq<(string, Value)>,
                                        path: string, rootX: Maybe, rootY: Maybe)
    requires PlainKeys(Obj(xs)) && PlainKeys(Obj(ys)) && forall i :: 0 <= i < |keys| ==> Plain(keys[i])
    requires Walk(rootX, PathParts(path)) == Some(Obj(xs)) && Walk(rootY, PathParts(path)) == Some(Obj(ys))
    ensures LeadsBack(DiffKeys(keys, xs, ys, path), rootX, rootY)
    decreases SizeEntries(xs), 1 + |keys|, 0
  {
    if keys != [] {
      var k := keys[0];
      LookupSmaller(xs, k);
      PlainLookup(xs, k);
      PlainLookup(ys, k);
      KeyPathParts(path, k);
      WalkAppends(rootX, PathParts(path), k);
      WalkAppends(rootY, PathParts(path), k);
      DiffLeadsBack(Lookup(xs, k), Lookup(ys, k), KeyPath(path, k), rootX, rootY);
      KeysLeadBack(keys[1..], xs, ys, path, rootX, rootY);
    }
  }

  lemma {:induction false} ItemsLeadBack(xs: seq<Value>, ys: seq<Value>, i: nat, path: string, rootX: Maybe,
                                         rootY: Maybe)
    requires |xs| == |ys| && i <= |xs| && PlainKeys(Arr(xs)) && PlainKeys(Arr(ys))
    requires Walk(rootX, PathParts(path)) == Some(Arr(xs)) && Walk(rootY, PathParts(path)) == Some(Arr(ys))
    ensures LeadsBack(DiffItems(xs, ys, i, path), rootX, rootY)
    decreases SizeItems(xs), 1 + |xs| - i, 0
  {
    if i < |xs| {
      SizeOfItem(xs, i);
      IndexPathParts(path, i);
      WalkAppends(rootX, PathParts(path), Decimal(i));
      WalkAppends(rootY, PathParts(path), Decimal(i));
      IndexOfDecimal(|xs|, i);
      DiffLeadsBack(Some(xs[i]), Some(ys[i]), IndexPath(path, i), rootX, rootY);
      ItemsLeadBack(xs, ys, i + 1, path, rootX, rootY);
    }
  }

  /** For plain keys, `valueAt` on the path of each entry gives back its two values. */
  lemma DiffPathsReadBack(x: Value, y: Value)
    requires PlainKeys(x) && PlainKeys(y)
    ensures LeadsBack(Diff(Some(x), Some(y), ""), Some(x), Some(y))
  {
    assert PathParts("") == [];
    DiffLeadsBack(Some(x), Some(y), "", Some(x), Some(y));
  }
}
