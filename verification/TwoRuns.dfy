/**
 * Two runs of one Pub/Sub program: their normalised recordings compare equal exactly when the raw
 * recordings agree up to a one-to-one renaming of generated ids, the clock values and object key
 * order.
 */
module TwoRuns {
  import opened Text
  import opened Sorting
  import opened Json
  import opened Canonical
  import opened Registry
  import opened PubSub

  /** Pairs of ids, one of each run. */
  type Renaming = set<(string, string)>

  ghost predicate Bijective(rel: Renaming) {
    forall p, q :: p in rel && q in rel ==> (p.0 == q.0 <==> p.1 == q.1)
  }

  // ----- raw values that agree up to a renaming -----

  ghost predicate AlikeId(x: Value, y: Value, rel: Renaming) {
    if IsId(x) || IsId(y) then IsId(x) && IsId(y) && (x.text, y.text) in rel
    else Same(x, y)
  }

  ghost predicate AlikeText(a: string, b: string, rel: Renaming, key: Key) {
    if KeyKind(key).Some? && (a != "" || b != "") then a != "" && b != "" && (a, b) in rel
    else if CarriesRevision(a, key) || CarriesRevision(b, key) then
      && CarriesRevision(a, key) && CarriesRevision(b, key)
      && BeforeAt(a) == BeforeAt(b) && (Revision(a), Revision(b)) in rel
    else a == b
  }

  ghost predicate Alike(x: Value, y: Value, rel: Renaming, key: Key)
    decreases x, 1
  {
    if Blanked(x, key) || Blanked(y, key) then Blanked(x, key) && Blanked(y, key)
    else match (x, y)
      case (Arr(xs), Arr(ys)) =>
        AlikeItems(xs, ys, rel, key)
      case (Obj(xs), Obj(ys)) =>
        && |xs| == |ys|
        && forall i :: 0 <= i < |xs| ==> AlikeEntry(xs[i], ys, rel)
      case (Str(a), Str(b)) => AlikeText(a, b, rel, key)
      case _ => x == y
  }

  ghost predicate AlikeItems(xs: seq<Value>, ys: seq<Value>, rel: Renaming, key: Key)
    decreases xs, 0
  {
    && |xs| == |ys|
    && if ArrayKind(key).Some?
       then forall i :: 0 <= i < |xs| ==> AlikeId(xs[i], ys[i], rel)
       else forall i :: 0 <= i < |xs| ==> Alike(xs[i], ys[i], rel, None)
  }

  ghost predicate AlikeEntry(e: (string, Value), ys: seq<(string, Value)>, rel: Renaming)
    decreases e, 2
  {
    exists j :: 0 <= j < |ys| && e.0 == ys[j].0 && Alike(e.1, ys[j].1, rel, Some(e.0))
  }

  lemma {:induction false} AlikeGrows(x: Value, y: Value, rel: Renaming, more: Renaming, key: Key)
    requires Alike(x, y, rel, key) && rel <= more
    ensures Alike(x, y, more, key)
    decreases x, 1
  {
    if Blanked(x, key) || Blanked(y, key) {
    } else if x.Arr? {
      if ArrayKind(key).None? {
        forall i | 0 <= i < |x.items|
          ensures Alike(x.items[i], y.items[i], more, None)
        {
          AlikeGrows(x.items[i], y.items[i], rel, more, None);
        }
      }
    } else if x.Obj? {
      forall i | 0 <= i < |x.entries|
        ensures AlikeEntry(x.entries[i], y.entries, more)
      {
        var e := x.entries[i];
        assert AlikeEntry(e, y.entries, rel);
        var j :| 0 <= j < |y.entries| && e.0 == y.entries[j].0 && Alike(e.1, y.entries[j].1, rel, Some(e.0));
        AlikeGrows(e.1, y.entries[j].1, rel, more, Some(e.0));
      }
    }
  }

  // ----- aligned entries -----

  /** Sorting two objects with the same keys aligns them. */
  lemma AlikeSorted(xs: seq<(string, Value)>, ys: seq<(string, Value)>, rel: Renaming)
    requires DistinctKeys(xs) && DistinctKeys(ys) && |xs| == |ys|
    requires forall i :: 0 <= i < |xs| ==> AlikeEntry(xs[i], ys, rel)
    ensures AlikeLists(SortPairs(xs), SortPairs(ys), rel)
  {
    var sx, sy := SortPairs(xs), SortPairs(ys);
    forall i | 0 <= i < |xs|
      ensures HasKey(ys, xs[i].0)
    {
      assert AlikeEntry(xs[i], ys, rel);
    }
    KeysCover(xs, ys);
    KeysSorted(xs, ys);
    KeysSorted(ys, xs);
    SortKeepsDistinct(xs);
    SortKeepsDistinct(ys);
    SortedKeysUnique(sx, sy);
    forall i | 0 <= i < |sx|
      ensures Alike(sx[i].1, sy[i].1, rel, Some(sx[i].0))
    {
      assert sx[i] in xs && sy[i] in ys;
      assert AlikeEntry(sx[i], ys, rel);
      var j :| 0 <= j < |ys| && sx[i].0 == ys[j].0 && Alike(sx[i].1, ys[j].1, rel, Some(sx[i].0));
      var b :| 0 <= b < |ys| && ys[b] == sy[i];
      assert b == j;
    }
  }

  ghost predicate AlikeLists(xs: seq<(string, Value)>, ys: seq<(string, Value)>, rel: Renaming) {
    && |xs| == |ys|
    && forall i :: 0 <= i < |xs| ==> xs[i].0 == ys[i].0 && Alike(xs[i].1, ys[i].1, rel, Some(xs[i].0))
  }

  lemma AlikeUnsorted(xs: seq<(string, Value)>, ys: seq<(string, Value)>, rel: Renaming)
    requires AlikeLists(SortPairs(xs), SortPairs(ys), rel)
    ensures |xs| == |ys| && forall i :: 0 <= i < |xs| ==> AlikeEntry(xs[i], ys, rel)
  {
    forall i | 0 <= i < |xs|
      ensures AlikeEntry(xs[i], ys, rel)
    {
      var k := SortKeeps(xs, i);
      assert SortPairs(ys)[k] in ys;
      var j :| 0 <= j < |ys| && ys[j] == SortPairs(ys)[k];
    }
  }

  /** Entry lists with the same keys in the same order and equal values. */
  ghost predicate SameLists(xs: seq<(string, Value)>, ys: seq<(string, Value)>) {
    && |xs| == |ys|
    && forall i :: 0 <= i < |xs| ==> xs[i].0 == ys[i].0 && Same(xs[i].1, ys[i].1)
  }

  lemma AlikeListsTail(xs: seq<(string, Value)>, ys: seq<(string, Value)>, rel: Renaming)
    requires xs != [] && AlikeLists(xs, ys, rel)
    ensures AlikeLists(xs[1..], ys[1..], rel)
  {
  }

  lemma SameListsCons(x: (string, Value), xs: seq<(string, Value)>, y: (string, Value), ys: seq<(string, Value)>)
    requires x.0 == y.0 && Same(x.1, y.1) && SameLists(xs, ys)
    ensures SameLists([x] + xs, [y] + ys)
  {
  }

  ghost predicate SameItems(xs: seq<Value>, ys: seq<Value>) {
    |xs| == |ys| && forall i :: 0 <= i < |xs| ==> Same(xs[i], ys[i])
  }

  lemma SameItemsCons(x: Value, xs: seq<Value>, y: Value, ys: seq<Value>)
    requires Same(x, y) && SameItems(xs, ys)
    ensures SameItems([x] + xs, [y] + ys)
  {
  }

  lemma SameListsSameObjects(xs: seq<(string, Value)>, ys: seq<(string, Value)>)
    requires SameLists(xs, ys)
    ensures Same(Obj(xs), Obj(ys))
  {
    forall i | 0 <= i < |xs|
      ensures EntryFound(xs[i], ys, {})
    {
      KeyIrrelevant(xs[i].1, ys[i].1, Some(xs[i].0));
    }
  }

  lemma SameObjectsSameLists(xs: seq<(string, Value)>, ys: seq<(string, Value)>)
    requires Ascending(xs) && Ascending(ys) && DistinctKeys(xs) && DistinctKeys(ys)
    requires Same(Obj(xs), Obj(ys))
    ensures SameLists(xs, ys)
  {
    forall i | 0 <= i < |xs|
      ensures HasKey(ys, xs[i].0)
    {
      assert EntryFound(xs[i], ys, {});
    }
    KeysCover(xs, ys);
    SortedKeysUnique(xs, ys);
    forall i | 0 <= i < |xs|
      ensures Same(xs[i].1, ys[i].1)
    {
      assert EntryFound(xs[i], ys, {});
      var j :| 0 <= j < |ys| && xs[i].0 == ys[j].0 && Equivalent(xs[i].1, ys[j].1, Some(xs[i].0), {});
      assert j == i;
      KeyIrrelevant(xs[i].1, ys[i].1, Some(xs[i].0));
    }
  }

  // ----- forward: renamed runs record alike -----

  /** Registries that are images of each other under the renaming. */
  ghost predicate Linked(s: Names, t: Names, rel: Renaming) {
    && s.counters == t.counters
    && (forall p :: p in rel ==>
         && (p.0 in s.templates <==> p.1 in t.templates)
         && (p.0 in s.templates ==> s.templates[p.0] == t.templates[p.1]))
    && s.values.Keys == t.values.Keys
    && (forall n :: n in s.values ==> (s.values[n], t.values[n]) in rel)
  }

  lemma NamedLinked(s: Names, t: Names, rel: Renaming, template: string, key: string, count: nat, a: string, b: string)
    requires Bijective(rel) && (a, b) in rel && Linked(s, t, rel)
    ensures var (s', x) := Named(s, template, key, count, a);
      var (t', y) := Named(t, template, key, count, b);
      x == y && Linked(s', t', rel)
  {
  }

  lemma RegisterLinked(s: Names, t: Names, rel: Renaming, kind: string, step: string, a: string, b: string)
    requires Bijective(rel) && (a, b) in rel && Linked(s, t, rel)
    ensures var (s', x) := Registered(s, kind, step, a);
      var (t', y) := Registered(t, kind, step, b);
      x == y && Linked(s', t', rel)
  {
    var count := NextCount(s, kind, step);
    assert count == NextCount(t, kind, step);
    NamedLinked(s, t, rel, Template(kind, step, count), CounterKey(kind, step), count, a, b);
  }

  lemma ForwardId(x: Value, y: Value, kind: string, step: string, s: Names, t: Names, rel: Renaming)
    requires Bijective(rel) && Linked(s, t, rel) && AlikeId(x, y, rel)
    ensures var (ox, s') := NormalizeId(x, kind, step, s);
      var (oy, t') := NormalizeId(y, kind, step, t);
      Linked(s', t', rel) && Same(ox, oy)
  {
    if IsId(x) {
      RegisterLinked(s, t, rel, kind, step, x.text, y.text);
    }
  }

  lemma {:induction false} ForwardIds(xs: seq<Value>, ys: seq<Value>, kind: string, step: string, s: Names, t: Names,
                                      rel: Renaming)
    requires Bijective(rel) && Linked(s, t, rel) && |xs| == |ys|
    requires forall i :: 0 <= i < |xs| ==> AlikeId(xs[i], ys[i], rel)
    ensures var (ox, s') := NormalizeIds(xs, kind, step, s);
      var (oy, t') := NormalizeIds(ys, kind, step, t);
      Linked(s', t', rel) && SameItems(ox, oy)
    decreases |xs|
  {
    if xs != [] {
      ForwardId(xs[0], ys[0], kind, step, s, t, rel);
      var (hx, s1) := NormalizeId(xs[0], kind, step, s);
      var (hy, t1) := NormalizeId(ys[0], kind, step, t);
      ForwardIds(xs[1..], ys[1..], kind, step, s1, t1, rel);
      SameItemsCons(hx, NormalizeIds(xs[1..], kind, step, s1).0, hy, NormalizeIds(ys[1..], kind, step, t1).0);
    }
  }

  lemma ForwardText(a: string, b: string, step: string, s: Names, t: Names, rel: Renaming, key: Key)
    requires Bijective(rel) && Linked(s, t, rel) && AlikeText(a, b, rel, key)
    ensures var (ox, s') := NormalizeText(a, step, s, key);
      var (oy, t') := NormalizeText(b, step, t, key);
      ox == oy && Linked(s', t', rel)
  {
    if KeyKind(key).Some? && a != "" {
      RegisterLinked(s, t, rel, KeyKind(key).value, step, a, b);
    } else if CarriesRevision(a, key) {
      RegisterLinked(s, t, rel, "revisionId", step, Revision(a), Revision(b));
    }
  }

  /** Renamed values give equal output and leave the registries related by the same renaming. */
  lemma {:induction false} Forward(x: Value, y: Value, step: string, s: Names, t: Names, rel: Renaming, key: Key)
    requires WellFormed(x) && WellFormed(y)
    requires Bijective(rel) && Linked(s, t, rel) && Alike(x, y, rel, key)
    ensures var (ox, s') := Normalize(x, step, s, key);
      var (oy, t') := Normalize(y, step, t, key);
      Same(ox, oy) && Linked(s', t', rel)
    decreases Size(x), 0, 1
  {
    if Blanked(x, key) {
    } else if x.Arr? {
      ForwardArray(x.items, y.items, step, s, t, rel, key);
    } else if x.Obj? {
      ForwardObject(x.entries, y.entries, step, s, t, rel);
    } else if x.Str? {
      ForwardText(x.text, y.text, step, s, t, rel, key);
    }
  }

  lemma {:induction false} ForwardArray(xs: seq<Value>, ys: seq<Value>, step: string, s: Names, t: Names,
                                        rel: Renaming, key: Key)
    requires forall i :: 0 <= i < |xs| ==> WellFormed(xs[i])
    requires forall i :: 0 <= i < |ys| ==> WellFormed(ys[i])
    requires Bijective(rel) && Linked(s, t, rel) && AlikeItems(xs, ys, rel, key)
    ensures var (ox, s') := NormalizeList(xs, step, s, key);
      var (oy, t') := NormalizeList(ys, step, t, key);
      Same(Arr(ox), Arr(oy)) && Linked(s', t', rel)
    decreases SizeItems(xs), |xs|, 1
  {
    var (ox, s') := NormalizeList(xs, step, s, key);
    var (oy, t') := NormalizeList(ys, step, t, key);
    if ArrayKind(key).Some? {
      ForwardIds(xs, ys, ArrayKind(key).value, step, s, t, rel);
    } else {
      ForwardItems(xs, ys, step, s, t, rel);
    }
    EquivalentOrdered(ox, oy, None, {});
  }

  lemma {:induction false} ForwardObject(xs: seq<(string, Value)>, ys: seq<(string, Value)>, step: string, s: Names,
                                         t: Names, rel: Renaming)
    requires WellFormed(Obj(xs)) && WellFormed(Obj(ys)) && |xs| == |ys|
    requires Bijective(rel) && Linked(s, t, rel)
    requires forall i :: 0 <= i < |xs| ==> AlikeEntry(xs[i], ys, rel)
    ensures var (ox, s') := NormalizeEntries(SortPairs(xs), step, s);
      var (oy, t') := NormalizeEntries(SortPairs(ys), step, t);
      Same(Obj(ox), Obj(oy)) && Linked(s', t', rel)
    decreases SizeEntries(xs), |xs|, 1
  {
    AlikeSorted(xs, ys, rel);
    SizeSorted(xs);
    SortedWellFormed(xs);
    SortedWellFormed(ys);
    ForwardEntries(SortPairs(xs), SortPairs(ys), step, s, t, rel);
    SameListsSameObjects(NormalizeEntries(SortPairs(xs), step, s).0, NormalizeEntries(SortPairs(ys), step, t).0);
  }

  lemma SortedWellFormed(entries: seq<(string, Value)>)
    requires WellFormed(Obj(entries))
    ensures DistinctKeys(SortPairs(entries))
    ensures forall i :: 0 <= i < |entries| ==> WellFormed(SortPairs(entries)[i].1)
  {
    SortKeepsDistinct(entries);
    forall i | 0 <= i < |entries|
      ensures WellFormed(SortPairs(entries)[i].1)
    {
      assert SortPairs(entries)[i] in entries;
    }
  }

  lemma {:induction false} ForwardItems(xs: seq<Value>, ys: seq<Value>, step: string, s: Names, t: Names, rel: Renaming)
    requires forall i :: 0 <= i < |xs| ==> WellFormed(xs[i])
    requires forall i :: 0 <= i < |ys| ==> WellFormed(ys[i])
    requires Bijective(rel) && Linked(s, t, rel) && |xs| == |ys|
    requires forall i :: 0 <= i < |xs| ==> Alike(xs[i], ys[i], rel, None)
    ensures var (ox, s') := NormalizeItems(xs, step, s);
      var (oy, t') := NormalizeItems(ys, step, t);
      Linked(s', t', rel) && SameItems(ox, oy)
    decreases SizeItems(xs), |xs|, 0
  {
    if xs != [] {
      Forward(xs[0], ys[0], step, s, t, rel, None);
      var (hx, s1) := Normalize(xs[0], step, s, None);
      var (hy, t1) := Normalize(ys[0], step, t, None);
      ForwardItems(xs[1..], ys[1..], step, s1, t1, rel);
      SameItemsCons(hx, NormalizeItems(xs[1..], step, s1).0, hy, NormalizeItems(ys[1..], step, t1).0);
    }
  }

  lemma {:induction false} ForwardEntries(xs: seq<(string, Value)>, ys: seq<(string, Value)>, step: string, s: Names,
                                          t: Names, rel: Renaming)
    requires forall i :: 0 <= i < |xs| ==> WellFormed(xs[i].1)
    requires forall i :: 0 <= i < |ys| ==> WellFormed(ys[i].1)
    requires Bijective(rel) && Linked(s, t, rel) && AlikeLists(xs, ys, rel)
    ensures var (ox, s') := NormalizeEntries(xs, step, s);
      var (oy, t') := NormalizeEntries(ys, step, t);
      Linked(s', t', rel) && SameLists(ox, oy)
    decreases SizeEntries(xs), |xs|, 0
  {
    if xs != [] {
      assert SizeEntry(xs[0]) == Size(xs[0].1);
      var key := Some(xs[0].0);
      Forward(xs[0].1, ys[0].1, step, s, t, rel, key);
      AlikeListsTail(xs, ys, rel);
      var (hx, s1) := Normalize(xs[0].1, step, s, key);
      var (hy, t1) := Normalize(ys[0].1, step, t, key);
      ForwardEntries(xs[1..], ys[1..], step, s1, t1, rel);
      SameListsCons((xs[0].0, hx), NormalizeEntries(xs[1..], step, s1).0, (ys[0].0, hy),
                    NormalizeEntries(ys[1..], step, t1).0);
    }
  }
}
