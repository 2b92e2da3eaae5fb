/**
 * Canonical forms. `Canonicalize` sorts object keys everywhere and the arrays held under a set of
 * unordered keys; with no unordered keys it is the Pub/Sub version. Two values have one canonical
 * form exactly when they are equivalent, a relation stated without any sorting.
 */
module Canonical {
  import opened Text
  import opened Sorting
  import opened Json

  type Key = Option<string>

  predicate Unordered(key: Key, names: set<string>) {
    key.Some? && key.value in names
  }

  function Texts(items: seq<Value>, labels: seq<string>): seq<(string, Value)>
    requires |items| == |labels|
  {
    seq(|items|, i requires 0 <= i < |items| => (labels[i], items[i]))
  }

  function Seconds(pairs: seq<(string, Value)>): (r: seq<Value>)
    ensures |r| == |pairs|
  {
    seq(|pairs|, i requires 0 <= i < |pairs| => pairs[i].1)
  }

  /** Sorts `items` by the matching label; equal labels keep their order. */
  function SortByLabel(items: seq<Value>, labels: seq<string>): (r: seq<Value>)
    requires |items| == |labels|
    ensures |r| == |items|
  {
    Seconds(SortPairs(Texts(items, labels)))
  }

  function CanonicalItems(items: seq<Value>, names: set<string>): (r: seq<Value>)
    ensures |r| == |items|
    decreases items, 0
  {
    seq(|items|, i requires 0 <= i < |items| => Canonicalize(items[i], None, names))
  }

  function CanonicalEntry(e: (string, Value), names: set<string>): (string, Value)
    decreases e, 2
  {
    (e.0, Canonicalize(e.1, Some(e.0), names))
  }

  function Canonicalize(v: Value, key: Key, names: set<string>): Value
    decreases v, 1
  {
    match v
    case Arr(items) =>
      var cs := CanonicalItems(items, names);
      if Unordered(key, names) then Arr(SortByLabel(cs, PrintItems(cs))) else Arr(cs)
    case Obj(entries) =>
      var es := SortPairs(entries);
      Obj(seq(|es|, i requires 0 <= i < |es| => CanonicalEntry(es[i], names)))
    case _ => v
  }

  /** Sorts only the unordered arrays, keeping every object's key order. */
  function SortUnordered(v: Value, key: Key, names: set<string>): Value
    decreases v, 1
  {
    match v
    case Arr(items) =>
      var ss := SortUnorderedItems(items, names);
      if Unordered(key, names)
      then Arr(SortByLabel(ss, PrintItems(CanonicalItems(ss, names))))
      else Arr(ss)
    case Obj(entries) =>
      Obj(seq(|entries|, i requires 0 <= i < |entries| => SortUnorderedEntry(entries[i], names)))
    case _ => v
  }

  function SortUnorderedItems(items: seq<Value>, names: set<string>): (r: seq<Value>)
    ensures |r| == |items|
    decreases items, 0
  {
    seq(|items|, i requires 0 <= i < |items| => SortUnordered(items[i], None, names))
  }

  function SortUnorderedEntry(e: (string, Value), names: set<string>): (string, Value)
    decreases e, 2
  {
    (e.0, SortUnordered(e.1, Some(e.0), names))
  }

  // ----- equivalence, without sorting -----

  /** The same value up to object key order and the order of arrays under the given names. */
  ghost predicate Equivalent(a: Value, b: Value, key: Key, names: set<string>)
    decreases a, 1
  {
    match (a, b)
    case (Arr(xs), Arr(ys)) =>
      && |xs| == |ys|
      && if Unordered(key, names)
         then
           exists p :: IsPermutation(p, |xs|) &&
                       forall i :: 0 <= i < |xs| ==> Equivalent(xs[i], ys[p[i]], None, names)
         else forall i :: 0 <= i < |xs| ==> Equivalent(xs[i], ys[i], None, names)
    case (Obj(xs), Obj(ys)) =>
      && |xs| == |ys|
      && forall i :: 0 <= i < |xs| ==> EntryFound(xs[i], ys, names)
    case _ => a == b
  }

  ghost predicate EntryFound(e: (string, Value), ys: seq<(string, Value)>, names: set<string>)
    decreases e, 2
  {
    exists j :: 0 <= j < |ys| && e.0 == ys[j].0 && Equivalent(e.1, ys[j].1, Some(e.0), names)
  }

  /** `p` pairs the items of two lists so that partners are equivalent. */
  ghost predicate MatchedBy(xs: seq<Value>, ys: seq<Value>, p: seq<nat>, names: set<string>)
  {
    && |xs| == |ys|
    && IsPermutation(p, |xs|)
    && forall i :: 0 <= i < |xs| ==> Equivalent(xs[i], ys[p[i]], None, names)
  }

  // ----- canonical forms are well formed -----

  lemma SortByLabelFrom(items: seq<Value>, labels: seq<string>, i: nat) returns (j: nat)
    requires |items| == |labels| && i < |items|
    ensures j < |items| && SortByLabel(items, labels)[i] == items[j]
    ensures SortPairs(Texts(items, labels))[i] == (labels[j], items[j])
  {
    var pairs := Texts(items, labels);
    assert SortPairs(pairs)[i] in pairs;
    j :| 0 <= j < |pairs| && pairs[j] == SortPairs(pairs)[i];
  }

  lemma {:induction false} CanonicalWellFormed(v: Value, key: Key, names: set<string>)
    requires WellFormed(v)
    ensures WellFormed(Canonicalize(v, key, names))
    decreases v, 1
  {
    match v {
      case Arr(items) =>
        CanonicalItemsWellFormed(items, names);
        var cs := CanonicalItems(items, names);
        if Unordered(key, names) {
          forall i | 0 <= i < |cs|
            ensures WellFormed(SortByLabel(cs, PrintItems(cs))[i])
          {
            var j := SortByLabelFrom(cs, PrintItems(cs), i);
          }
        }
      case Obj(entries) =>
        SortKeepsDistinct(entries);
        var es := SortPairs(entries);
        forall i | 0 <= i < |es|
          ensures WellFormed(CanonicalEntry(es[i], names).1)
        {
          assert es[i] in entries;
          CanonicalWellFormed(es[i].1, Some(es[i].0), names);
        }
      case _ =>
    }
  }

  lemma {:induction false} CanonicalItemsWellFormed(items: seq<Value>, names: set<string>)
    requires forall i :: 0 <= i < |items| ==> WellFormed(items[i])
    ensures forall i :: 0 <= i < |items| ==> WellFormed(CanonicalItems(items, names)[i])
    decreases items, 0
  {
    forall i | 0 <= i < |items|
      ensures WellFormed(CanonicalItems(items, names)[i])
    {
      CanonicalWellFormed(items[i], None, names);
    }
  }

  // ----- sorting by printed text forgets exactly the order -----

  /** Sorting well-formed items by their own text gives one result for each multiset of items. */
  lemma SortByTextForgetsOrder(xs: seq<Value>, ys: seq<Value>)
    requires forall i :: 0 <= i < |xs| ==> WellFormed(xs[i])
    requires forall i :: 0 <= i < |ys| ==> WellFormed(ys[i])
    ensures SortByLabel(xs, PrintItems(xs)) == SortByLabel(ys, PrintItems(ys)) <==> multiset(xs) == multiset(ys)
  {
    if SortByLabel(xs, PrintItems(xs)) == SortByLabel(ys, PrintItems(ys)) {
      SortByTextSame(xs, ys);
    }
    if multiset(xs) == multiset(ys) {
      var p := MultisetGivesPermutation(xs, ys);
      var s, t := Texts(xs, PrintItems(xs)), Texts(ys, PrintItems(ys));
      PermutationGivesMultiset(s, t, p);
      TextDetermines(xs);
      SortedUnique(SortPairs(s), SortPairs(t));
    }
  }

  lemma TextDetermines(xs: seq<Value>)
    requires forall i :: 0 <= i < |xs| ==> WellFormed(xs[i])
    ensures KeyDetermines(SortPairs(Texts(xs, PrintItems(xs))))
  {
    var r := SortPairs(Texts(xs, PrintItems(xs)));
    forall i, j | 0 <= i < |r| && 0 <= j < |r| && r[i].0 == r[j].0
      ensures r[i] == r[j]
    {
      var a := SortByLabelFrom(xs, PrintItems(xs), i);
      var b := SortByLabelFrom(xs, PrintItems(xs), j);
      PrintInjective(xs[a], xs[b]);
    }
  }

  lemma SortByTextSame(xs: seq<Value>, ys: seq<Value>)
    requires SortByLabel(xs, PrintItems(xs)) == SortByLabel(ys, PrintItems(ys))
    ensures multiset(xs) == multiset(ys)
  {
    var s, t := Texts(xs, PrintItems(xs)), Texts(ys, PrintItems(ys));
    assert |xs| == |ys|;
    forall i | 0 <= i < |xs|
      ensures SortPairs(s)[i] == SortPairs(t)[i]
    {
      var a := SortByLabelFrom(xs, PrintItems(xs), i);
      var b := SortByLabelFrom(ys, PrintItems(ys), i);
    }
    assert SortPairs(s) == SortPairs(t);
    var p := MultisetGivesPermutation(s, t);
    forall i | 0 <= i < |xs|
      ensures xs[i] == ys[p[i]]
    {
      assert s[i] == t[p[i]];
    }
    PermutationGivesMultiset(xs, ys, p);
  }

  // ----- the characterisation -----

  /** One canonical form exactly for equivalent values. */
  lemma {:induction false} CanonicalIffEquivalent(a: Value, b: Value, key: Key, names: set<string>)
    requires WellFormed(a) && WellFormed(b)
    ensures Canonicalize(a, key, names) == Canonicalize(b, key, names) <==> Equivalent(a, b, key, names)
    decreases a, 1
  {
    if a.Arr? && b.Arr? {
      ArraysIff(a.items, b.items, key, names);
    } else if a.Obj? && b.Obj? {
      EntriesIff(a.entries, b.entries, names);
      assert Canonicalize(a, key, names) == Canonicalize(a, None, names);
      assert Canonicalize(b, key, names) == Canonicalize(b, None, names);
    } else {
      KindKept(a, key, names);
      KindKept(b, key, names);
    }
  }

  lemma {:induction false} ArraysIff(xs: seq<Value>, ys: seq<Value>, key: Key, names: set<string>)
    requires forall i :: 0 <= i < |xs| ==> WellFormed(xs[i])
    requires forall i :: 0 <= i < |ys| ==> WellFormed(ys[i])
    ensures Canonicalize(Arr(xs), key, names) == Canonicalize(Arr(ys), key, names) <==>
            Equivalent(Arr(xs), Arr(ys), key, names)
    decreases xs, 1
  {
    if Unordered(key, names) {
      UnorderedIff(xs, ys, names);
      EquivalentUnordered(xs, ys, key, names);
    } else {
      ItemsIff(xs, ys, names);
      EquivalentOrdered(xs, ys, key, names);
    }
  }

  lemma EquivalentUnordered(xs: seq<Value>, ys: seq<Value>, key: Key, names: set<string>)
    requires Unordered(key, names)
    ensures Equivalent(Arr(xs), Arr(ys), key, names) <==> exists p :: MatchedBy(xs, ys, p, names)
  {
    if Equivalent(Arr(xs), Arr(ys), key, names) {
      var p :| IsPermutation(p, |xs|) && forall i :: 0 <= i < |xs| ==> Equivalent(xs[i], ys[p[i]], None, names);
      assert MatchedBy(xs, ys, p, names);
    }
  }

  lemma EquivalentOrdered(xs: seq<Value>, ys: seq<Value>, key: Key, names: set<string>)
    requires !Unordered(key, names)
    ensures Equivalent(Arr(xs), Arr(ys), key, names) <==>
            |xs| == |ys| && forall i :: 0 <= i < |xs| ==> Equivalent(xs[i], ys[i], None, names)
  {
  }

  lemma KindKept(v: Value, key: Key, names: set<string>)
    ensures v.Arr? <==> Canonicalize(v, key, names).Arr?
    ensures v.Obj? <==> Canonicalize(v, key, names).Obj?
    ensures !v.Arr? && !v.Obj? ==> Canonicalize(v, key, names) == v
  {
  }

  lemma {:induction false} ItemsIff(xs: seq<Value>, ys: seq<Value>, names: set<string>)
    requires forall i :: 0 <= i < |xs| ==> WellFormed(xs[i])
    requires forall i :: 0 <= i < |ys| ==> WellFormed(ys[i])
    ensures CanonicalItems(xs, names) == CanonicalItems(ys, names) <==>
            |xs| == |ys| && forall i :: 0 <= i < |xs| ==> Equivalent(xs[i], ys[i], None, names)
    decreases xs, 0
  {
    if |xs| == |ys| {
      forall i | 0 <= i < |xs|
        ensures CanonicalItems(xs, names)[i] == CanonicalItems(ys, names)[i] <==> Equivalent(xs[i], ys[i], None, names)
      {
        CanonicalIffEquivalent(xs[i], ys[i], None, names);
      }
    }
  }

  lemma {:induction false} UnorderedIff(xs: seq<Value>, ys: seq<Value>, names: set<string>)
    requires forall i :: 0 <= i < |xs| ==> WellFormed(xs[i])
    requires forall i :: 0 <= i < |ys| ==> WellFormed(ys[i])
    ensures var cx, cy := CanonicalItems(xs, names), CanonicalItems(ys, names);
      SortByLabel(cx, PrintItems(cx)) == SortByLabel(cy, PrintItems(cy)) <==> exists p :: MatchedBy(xs, ys, p, names)
    decreases xs, 0
  {
    var cx, cy := CanonicalItems(xs, names), CanonicalItems(ys, names);
    CanonicalItemsWellFormed(xs, names);
    CanonicalItemsWellFormed(ys, names);
    SortByTextForgetsOrder(cx, cy);
    if multiset(cx) == multiset(cy) {
      var p := MultisetGivesPermutation(cx, cy);
      forall i | 0 <= i < |xs|
        ensures Equivalent(xs[i], ys[p[i]], None, names)
      {
        CanonicalIffEquivalent(xs[i], ys[p[i]], None, names);
      }
      assert MatchedBy(xs, ys, p, names);
    }
    if exists p :: MatchedBy(xs, ys, p, names) {
      var p :| MatchedBy(xs, ys, p, names);
      forall i | 0 <= i < |xs|
        ensures cx[i] == cy[p[i]]
      {
        CanonicalIffEquivalent(xs[i], ys[p[i]], None, names);
      }
      PermutationGivesMultiset(cx, cy, p);
    }
  }

  lemma {:induction false} EntryIff(x: (string, Value), y: (string, Value), names: set<string>)
    requires WellFormed(x.1) && WellFormed(y.1)
    ensures CanonicalEntry(x, names) == CanonicalEntry(y, names) <==>
            x.0 == y.0 && Equivalent(x.1, y.1, Some(x.0), names)
    decreases x, 2
  {
    CanonicalIffEquivalent(x.1, y.1, Some(x.0), names);
  }

  lemma {:induction false} EntriesIff(xs: seq<(string, Value)>, ys: seq<(string, Value)>, names: set<string>)
    requires WellFormed(Obj(xs)) && WellFormed(Obj(ys))
    ensures Canonicalize(Obj(xs), None, names) == Canonicalize(Obj(ys), None, names) <==>
            |xs| == |ys| && forall i :: 0 <= i < |xs| ==> EntryFound(xs[i], ys, names)
    decreases xs, 3
  {
    var cx, cy := Canonicalize(Obj(xs), None, names).entries, Canonicalize(Obj(ys), None, names).entries;
    if cx == cy {
      EntriesSameFound(xs, ys, names);
    }
    if |xs| == |ys| && forall i :: 0 <= i < |xs| ==> EntryFound(xs[i], ys, names) {
      EntriesFoundSame(xs, ys, names);
    }
  }

  lemma {:induction false} EntriesSameFound(xs: seq<(string, Value)>, ys: seq<(string, Value)>, names: set<string>)
    requires WellFormed(Obj(xs)) && WellFormed(Obj(ys))
    requires Canonicalize(Obj(xs), None, names) == Canonicalize(Obj(ys), None, names)
    ensures |xs| == |ys| && forall i :: 0 <= i < |xs| ==> EntryFound(xs[i], ys, names)
    decreases xs, 2
  {
    var cx, cy := Canonicalize(Obj(xs), None, names).entries, Canonicalize(Obj(ys), None, names).entries;
    assert |cx| == |xs| && |cy| == |ys|;
    forall i | 0 <= i < |xs|
      ensures EntryFound(xs[i], ys, names)
    {
      var k := SortKeeps(xs, i);
      assert cx[k] == cy[k];
      var y := SortPairs(ys)[k];
      assert y in ys;
      var j :| 0 <= j < |ys| && ys[j] == y;
      EntryIff(xs[i], y, names);
    }
  }

  lemma {:induction false} EntriesFoundSame(xs: seq<(string, Value)>, ys: seq<(string, Value)>, names: set<string>)
    requires WellFormed(Obj(xs)) && WellFormed(Obj(ys))
    requires |xs| == |ys| && forall i :: 0 <= i < |xs| ==> EntryFound(xs[i], ys, names)
    ensures Canonicalize(Obj(xs), None, names) == Canonicalize(Obj(ys), None, names)
    decreases xs, 2
  {
    var sx, sy := SortPairs(xs), SortPairs(ys);
    SortKeepsDistinct(xs);
    SortKeepsDistinct(ys);
    SameKeySets(xs, ys, names);
    SortedKeysUnique(sx, sy);
    forall i | 0 <= i < |sx|
      ensures CanonicalEntry(sx[i], names) == CanonicalEntry(sy[i], names)
    {
      assert sx[i] in xs && sy[i] in ys;
      var a :| 0 <= a < |xs| && xs[a] == sx[i];
      assert EntryFound(xs[a], ys, names);
      var j :| 0 <= j < |ys| && xs[a].0 == ys[j].0 && Equivalent(xs[a].1, ys[j].1, Some(xs[a].0), names);
      var b :| 0 <= b < |ys| && ys[b] == sy[i];
      assert b == j;
      EntryIff(xs[a], ys[j], names);
    }
    assert Canonicalize(Obj(xs), None, names).entries == Canonicalize(Obj(ys), None, names).entries;
  }

  /** Every key of one object being found in another of the same size makes the key sets equal. */
  lemma SameKeySets(xs: seq<(string, Value)>, ys: seq<(string, Value)>, names: set<string>)
    requires DistinctKeys(xs) && DistinctKeys(ys) && |xs| == |ys|
    requires forall i :: 0 <= i < |xs| ==> EntryFound(xs[i], ys, names)
    ensures forall i :: 0 <= i < |xs| ==> HasKey(SortPairs(ys), SortPairs(xs)[i].0)
    ensures forall i :: 0 <= i < |ys| ==> HasKey(SortPairs(xs), SortPairs(ys)[i].0)
  {
    forall i | 0 <= i < |xs|
      ensures HasKey(ys, xs[i].0)
    {
      assert EntryFound(xs[i], ys, names);
    }
    KeysCover(xs, ys);
    KeysSorted(xs, ys);
    KeysSorted(ys, xs);
  }

  lemma KeysSorted(xs: seq<(string, Value)>, ys: seq<(string, Value)>)
    requires |xs| == |ys| && forall i :: 0 <= i < |xs| ==> HasKey(ys, xs[i].0)
    ensures forall i :: 0 <= i < |xs| ==> HasKey(SortPairs(ys), SortPairs(xs)[i].0)
  {
    forall i | 0 <= i < |xs|
      ensures HasKey(SortPairs(ys), SortPairs(xs)[i].0)
    {
      assert SortPairs(xs)[i] in xs;
      var a :| 0 <= a < |xs| && xs[a] == SortPairs(xs)[i];
      assert HasKey(ys, xs[a].0);
      var j :| 0 <= j < |ys| && ys[j].0 == xs[a].0;
      var k := SortKeeps(ys, j);
    }
  }

  /** Pigeonhole: distinct keys of one list inside an equally long list of distinct keys fill it. */
  lemma {:induction false} KeysCover(xs: seq<(string, Value)>, ys: seq<(string, Value)>)
    requires DistinctKeys(xs) && DistinctKeys(ys) && |xs| == |ys|
    requires forall i :: 0 <= i < |xs| ==> HasKey(ys, xs[i].0)
    ensures forall i :: 0 <= i < |ys| ==> HasKey(xs, ys[i].0)
    decreases |xs|
  {
    if xs != [] {
      assert HasKey(ys, xs[0].0);
      var j :| 0 <= j < |ys| && ys[j].0 == xs[0].0;
      var rest := ys[..j] + ys[j + 1..];
      forall i | 0 <= i < |xs[1..]|
        ensures HasKey(rest, xs[1..][i].0)
      {
        assert HasKey(ys, xs[i + 1].0);
        var k :| 0 <= k < |ys| && ys[k].0 == xs[i + 1].0;
        assert k != j;
        assert rest[if k < j then k else k - 1] == ys[k];
      }
      KeysCover(xs[1..], rest);
      forall i | 0 <= i < |ys|
        ensures HasKey(xs, ys[i].0)
      {
        if i == j {
          assert xs[0].0 == ys[i].0;
        } else {
          assert rest[if i < j then i else i - 1] == ys[i];
          assert HasKey(xs[1..], ys[i].0);
          var k :| 0 <= k < |xs[1..]| && xs[1..][k].0 == ys[i].0;
          assert xs[k + 1].0 == ys[i].0;
        }
      }
    }
  }

  // ----- idempotence, and agreement of a sorted recording with a live view -----

  lemma SortByLabelPermutes(items: seq<Value>, labels: seq<string>) returns (p: seq<nat>)
    requires |items| == |labels|
    ensures IsPermutation(p, |items|)
    ensures forall i :: 0 <= i < |items| ==> SortByLabel(items, labels)[i] == items[p[i]]
  {
    var pairs := Texts(items, labels);
    p := MultisetGivesPermutation(SortPairs(pairs), pairs);
    forall i | 0 <= i < |items|
      ensures SortByLabel(items, labels)[i] == items[p[i]]
    {
      assert SortPairs(pairs)[i] == pairs[p[i]];
    }
  }

  /** Items that match one by one still match once the left list is sorted. */
  lemma SortedMatches(xs: seq<Value>, labels: seq<string>, ys: seq<Value>, key: Key, names: set<string>)
    requires |xs| == |labels| == |ys| && Unordered(key, names)
    requires forall i :: 0 <= i < |xs| ==> Equivalent(xs[i], ys[i], None, names)
    ensures Equivalent(Arr(SortByLabel(xs, labels)), Arr(ys), key, names)
  {
    var p := SortByLabelPermutes(xs, labels);
    assert MatchedBy(SortByLabel(xs, labels), ys, p, names);
    EquivalentUnordered(SortByLabel(xs, labels), ys, key, names);
  }

  lemma {:induction false} CanonicalEquivalent(v: Value, key: Key, names: set<string>)
    requires WellFormed(v)
    ensures Equivalent(Canonicalize(v, key, names), v, key, names)
    decreases v, 1
  {
    match v {
      case Arr(items) =>
        CanonicalItemsEquivalent(items, names);
        var cs := CanonicalItems(items, names);
        if Unordered(key, names) {
          SortedMatches(cs, PrintItems(cs), items, key, names);
        } else {
          EquivalentOrdered(cs, items, key, names);
        }
      case Obj(entries) =>
        var es := SortPairs(entries);
        forall i | 0 <= i < |es|
          ensures EntryFound(CanonicalEntry(es[i], names), entries, names)
        {
          assert es[i] in entries;
          var j :| 0 <= j < |entries| && entries[j] == es[i];
          CanonicalEquivalent(entries[j].1, Some(entries[j].0), names);
        }
      case _ =>
    }
  }

  lemma {:induction false} CanonicalItemsEquivalent(items: seq<Value>, names: set<string>)
    requires forall i :: 0 <= i < |items| ==> WellFormed(items[i])
    ensures forall i :: 0 <= i < |items| ==> Equivalent(CanonicalItems(items, names)[i], items[i], None, names)
    decreases items, 0
  {
    forall i | 0 <= i < |items|
      ensures Equivalent(CanonicalItems(items, names)[i], items[i], None, names)
    {
      CanonicalEquivalent(items[i], None, names);
    }
  }

  lemma CanonicalIdempotent(v: Value, key: Key, names: set<string>)
    requires WellFormed(v)
    ensures Canonicalize(Canonicalize(v, key, names), key, names) == Canonicalize(v, key, names)
  {
    CanonicalWellFormed(v, key, names);
    CanonicalEquivalent(v, key, names);
    CanonicalIffEquivalent(Canonicalize(v, key, names), v, key, names);
  }

  lemma {:induction false} SortUnorderedEquivalent(v: Value, key: Key, names: set<string>)
    requires WellFormed(v)
    ensures WellFormed(SortUnordered(v, key, names))
    ensures Equivalent(SortUnordered(v, key, names), v, key, names)
    decreases v, 1
  {
    match v {
      case Arr(items) =>
        SortUnorderedItemsEquivalent(items, names);
        var ss := SortUnorderedItems(items, names);
        if Unordered(key, names) {
          var labels := PrintItems(CanonicalItems(ss, names));
          SortedMatches(ss, labels, items, key, names);
          forall i | 0 <= i < |ss|
            ensures WellFormed(SortByLabel(ss, labels)[i])
          {
            var j := SortByLabelFrom(ss, labels, i);
          }
        } else {
          EquivalentOrdered(ss, items, key, names);
        }
      case Obj(entries) =>
        forall i | 0 <= i < |entries|
          ensures WellFormed(SortUnorderedEntry(entries[i], names).1)
          ensures EntryFound(SortUnorderedEntry(entries[i], names), entries, names)
        {
          SortUnorderedEquivalent(entries[i].1, Some(entries[i].0), names);
        }
      case _ =>
    }
  }

  lemma {:induction false} SortUnorderedItemsEquivalent(items: seq<Value>, names: set<string>)
    requires forall i :: 0 <= i < |items| ==> WellFormed(items[i])
    ensures forall i :: 0 <= i < |items| ==> WellFormed(SortUnorderedItems(items, names)[i])
    ensures forall i :: 0 <= i < |items| ==> Equivalent(SortUnorderedItems(items, names)[i], items[i], None, names)
    decreases items, 0
  {
    forall i | 0 <= i < |items|
      ensures WellFormed(SortUnorderedItems(items, names)[i])
      ensures Equivalent(SortUnorderedItems(items, names)[i], items[i], None, names)
    {
      SortUnorderedEquivalent(items[i], None, names);
    }
  }

  /** A recorded fixture (sorted when written) and a live view compare on equal terms. */
  lemma RecordedAndLiveAgree(v: Value, key: Key, names: set<string>)
    requires WellFormed(v)
    ensures Canonicalize(SortUnordered(v, key, names), key, names) == Canonicalize(v, key, names)
  {
    SortUnorderedEquivalent(v, key, names);
    CanonicalIffEquivalent(SortUnordered(v, key, names), v, key, names);
  }

  /** The comparison the replay makes, without sorting: equal but for the order of object keys. */
  ghost predicate Same(a: Value, b: Value) {
    Equivalent(a, b, None, {})
  }

  /** With no unordered names the key of a value does not matter. */
  lemma KeyIrrelevant(a: Value, b: Value, key: Key)
    ensures Equivalent(a, b, key, {}) <==> Same(a, b)
  {
    if a.Arr? && b.Arr? {
      EquivalentOrdered(a.items, b.items, key, {});
      EquivalentOrdered(a.items, b.items, None, {});
    }
  }
}
