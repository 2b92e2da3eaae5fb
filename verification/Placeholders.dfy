/**
 * Why recordings must hold no literal `{{time}}` in a clock field, and that nothing more is needed:
 * a recording meets the condition exactly when every recording that meets it and compares equal is
 * the same run under a renaming.
 */
module Placeholders {
  import opened Text
  import opened Sorting
  import opened Json
  import opened Canonical
  import opened Registry
  import opened PubSub
  import opened TwoRuns
  import opened Recordings

  const DATE := "2024-01-01T"

  lemma DateIsBlanked(key: Key)
    requires ClockKey(key)
    ensures Blanked(Str(DATE), key) && !Blanked(Str(TIME), key)
  {
    assert StartsWithDate(DATE) && !StartsWithDate(TIME);
  }

  ghost predicate SharesOutput(v: Value, w: Value, step: string, names: Names, key: Key) {
    Normalize(v, step, names, key) == Normalize(w, step, names, key)
  }

  /** A value the walk keeps shares its output with a blanked one exactly when it is the literal `{{time}}`. */
  lemma KeptSharesIff(v: Value, step: string, names: Names, key: Key)
    requires ClockKey(key) && !Blanked(v, key)
    ensures (exists w :: Blanked(w, key) && SharesOutput(v, w, step, names, key)) <==> v == Str(TIME)
  {
    ClockKeysNameNothing(key);
    if w :| Blanked(w, key) && SharesOutput(v, w, step, names, key) {
      assert Normalize(v, step, names, key).0 == Str(TIME);
    }
    if v == Str(TIME) {
      DateIsBlanked(key);
      assert Blanked(Str(DATE), key) && SharesOutput(v, Str(DATE), step, names, key);
    }
  }

  // ----- a date for every literal placeholder -----

  /** The value with a date wherever a clock field holds the literal `{{time}}`. */
  function Dated(v: Value, key: Key): Value
    decreases v, 1
  {
    if Blanked(v, key) then v
    else match v
      case Str(s) => if ClockKey(key) && s == TIME then Str(DATE) else v
      case Arr(items) => if ArrayKind(key).Some? then v else Arr(DatedItems(items))
      case Obj(entries) => Obj(seq(|entries|, i requires 0 <= i < |entries| => DatedEntry(entries[i])))
      case _ => v
  }

  function DatedItems(items: seq<Value>): (r: seq<Value>)
    ensures |r| == |items|
    decreases items, 0
  {
    seq(|items|, i requires 0 <= i < |items| => Dated(items[i], None))
  }

  function DatedEntry(e: (string, Value)): (string, Value)
    decreases e, 2
  {
    (e.0, Dated(e.1, Some(e.0)))
  }

  function DatedEntries(entries: seq<(string, Value)>): (r: seq<(string, Value)>)
    ensures |r| == |entries|
  {
    seq(|entries|, i requires 0 <= i < |entries| => DatedEntry(entries[i]))
  }

  lemma DatedObject(entries: seq<(string, Value)>, key: Key)
    requires !Blanked(Obj(entries), key)
    ensures Dated(Obj(entries), key) == Obj(DatedEntries(entries)) && !Blanked(Obj(DatedEntries(entries)), key)
  {
    var out := DatedEntries(entries);
    assert forall i :: 0 <= i < |entries| ==> out[i].0 == entries[i].0;
  }

  lemma SortDated(s: seq<(string, Value)>)
    ensures SortPairs(DatedEntries(s)) == DatedEntries(SortPairs(s))
  {
    var f := (e: (string, Value)) => Dated(e.1, Some(e.0));
    SortMapped(s, f);
    assert DatedEntries(s) == Mapped(s, f);
    assert DatedEntries(SortPairs(s)) == Mapped(SortPairs(s), f);
  }

  /** The dates leave no trace: output and registry are the same. */
  lemma {:induction false} DatedSharesOutput(v: Value, step: string, names: Names, key: Key)
    ensures SharesOutput(v, Dated(v, key), step, names, key)
    decreases Size(v), 0, 1
  {
    if !Blanked(v, key) {
      match v {
        case Str(s) =>
          if ClockKey(key) && s == TIME {
            ClockKeysNameNothing(key);
            DateIsBlanked(key);
          }
        case Arr(items) =>
          if ArrayKind(key).None? {
            DatedItemsShare(items, step, names);
            assert !Blanked(Arr(DatedItems(items)), key);
          }
        case Obj(entries) =>
          DatedObject(entries, key);
          SizeSorted(entries);
          SortDated(entries);
          DatedEntriesShare(SortPairs(entries), step, names);
        case _ =>
      }
    }
  }

  lemma {:induction false} DatedItemsShare(items: seq<Value>, step: string, names: Names)
    ensures NormalizeItems(DatedItems(items), step, names) == NormalizeItems(items, step, names)
    decreases SizeItems(items), |items|, 0
  {
    if items != [] {
      var dated := DatedItems(items);
      DatedSharesOutput(items[0], step, names, None);
      DatedItemsShare(items[1..], step, Normalize(items[0], step, names, None).1);
      assert dated[0] == Dated(items[0], None) && dated[1..] == DatedItems(items[1..]);
    }
  }

  lemma {:induction false} DatedEntriesShare(entries: seq<(string, Value)>, step: string, names: Names)
    ensures NormalizeEntries(DatedEntries(entries), step, names) == NormalizeEntries(entries, step, names)
    decreases SizeEntries(entries), |entries|, 0
  {
    if entries != [] {
      var dated, key := DatedEntries(entries), Some(entries[0].0);
      assert SizeEntry(entries[0]) == Size(entries[0].1);
      DatedSharesOutput(entries[0].1, step, names, key);
      DatedEntriesShare(entries[1..], step, Normalize(entries[0].1, step, names, key).1);
      assert dated[0] == (entries[0].0, Dated(entries[0].1, key)) && dated[1..] == DatedEntries(entries[1..]);
    }
  }

  lemma {:induction false} DatedIsClean(v: Value, key: Key)
    requires WellFormed(v)
    ensures WellFormed(Dated(v, key)) && Clean(Dated(v, key), key)
    decreases v
  {
    if !Blanked(v, key) {
      match v {
        case Str(s) =>
          if ClockKey(key) {
            DateIsBlanked(key);
          }
        case Arr(items) =>
          if ArrayKind(key).None? {
            forall i | 0 <= i < |items|
              ensures WellFormed(DatedItems(items)[i]) && Clean(DatedItems(items)[i], None)
            {
              DatedIsClean(items[i], None);
            }
          }
        case Obj(entries) =>
          var out := DatedEntries(entries);
          DatedObject(entries, key);
          forall i | 0 <= i < |entries|
            ensures WellFormed(out[i].1) && CleanEntry(out[i]) && out[i].0 == entries[i].0
          {
            assert out[i] == DatedEntry(entries[i]);
            DatedIsClean(entries[i].1, Some(entries[i].0));
          }
        case _ =>
      }
    }
  }

  /** No renaming takes a literal placeholder to a date. */
  lemma {:induction false} DatedIsUnlike(v: Value, key: Key, rel: Renaming)
    requires WellFormed(v) && !Clean(v, key)
    ensures !Alike(v, Dated(v, key), rel, key)
    decreases v
  {
    match v {
      case Str(s) =>
        DateIsBlanked(key);
      case Arr(items) =>
        var i :| 0 <= i < |items| && !Clean(items[i], None);
        DatedIsUnlike(items[i], None, rel);
        assert DatedItems(items)[i] == Dated(items[i], None);
      case Obj(entries) =>
        var i :| 0 <= i < |entries| && !CleanEntry(entries[i]);
        DatedIsUnlike(entries[i].1, Some(entries[i].0), rel);
        DatedObject(entries, key);
        EntryIsUnlike(entries, i, rel);
    }
  }

  lemma EntryIsUnlike(entries: seq<(string, Value)>, i: nat, rel: Renaming)
    requires DistinctKeys(entries) && i < |entries|
    requires !Alike(entries[i].1, Dated(entries[i].1, Some(entries[i].0)), rel, Some(entries[i].0))
    ensures !AlikeEntry(entries[i], DatedEntries(entries), rel)
  {
    var out := DatedEntries(entries);
    assert forall j :: 0 <= j < |entries| ==> out[j] == DatedEntry(entries[j]);
  }

  // ----- the condition is exact -----

  ghost predicate Renames(v: Value, w: Value, key: Key) {
    exists rel :: Bijective(rel) && Alike(v, w, rel, key)
  }

  /** A clean value recorded like `v`. */
  ghost predicate CleanTwin(v: Value, w: Value, step: string, names: Names, key: Key) {
    && WellFormed(w) && Clean(w, key)
    && Same(Normalize(v, step, names, key).0, Normalize(w, step, names, key).0)
  }

  /** A value is clean exactly when every clean value that is recorded alike is a renaming of it. */
  lemma CleanIff(v: Value, step: string, names: Names, key: Key, steps: set<string>)
    requires WellFormed(v) && Valid(names, steps) && !Clash(steps) && Braced(names) && step in steps
    ensures Clean(v, key) <==> forall w :: CleanTwin(v, w, step, names, key) ==> Renames(v, w, key)
  {
    if Clean(v, key) {
      forall w | CleanTwin(v, w, step, names, key)
        ensures Renames(v, w, key)
      {
        Back(v, w, step, names, names, steps, key);
        LinksBijective(Normalize(v, step, names, key).1, Normalize(w, step, names, key).1);
      }
    } else {
      UncleanTwin(v, step, names, key);
    }
  }

  lemma UncleanTwin(v: Value, step: string, names: Names, key: Key)
    requires WellFormed(v) && !Clean(v, key)
    ensures CleanTwin(v, Dated(v, key), step, names, key) && !Renames(v, Dated(v, key), key)
  {
    var w := Dated(v, key);
    DatedIsClean(v, key);
    DatedSharesOutput(v, step, names, key);
    NormalizedWellFormed(v, step, names, key);
    CanonicalIffEquivalent(Normalize(v, step, names, key).0, Normalize(v, step, names, key).0, None, {});
    forall rel
      ensures !Alike(v, w, rel, key)
    {
      DatedIsUnlike(v, key, rel);
    }
  }

  // ----- whole recordings -----

  ghost predicate CleanRun(run: Recording) {
    forall i :: 0 <= i < |run| ==> Clean(run[i].1, None)
  }

  /** A recording of a program whose step names never clash. */
  ghost predicate Program(run: Recording, steps: set<string>) {
    !Clash(steps) && forall i :: 0 <= i < |run| ==> run[i].0 in steps && WellFormed(run[i].1)
  }

  /** A clean recording of the same steps that compares equal. */
  ghost predicate EqualCleanRun(a: Recording, b: Recording, originA: string, originB: string, steps: set<string>) {
    && Program(b, steps) && CleanRun(b)
    && |a| == |b| && (forall i :: 0 <= i < |a| ==> a[i].0 == b[i].0)
    && CompareEqual(NormalizeAll(a, Recordings.Start(originA)).0, NormalizeAll(b, Recordings.Start(originB)).0)
  }

  ghost predicate RenamesRun(a: Recording, b: Recording, originA: string, originB: string) {
    exists rel :: Bijective(rel) && (originA, originB) in rel && Renamed(a, b, rel)
  }

  function DatedRun(run: Recording): (r: Recording)
    ensures |r| == |run|
  {
    seq(|run|, i requires 0 <= i < |run| => (run[i].0, Dated(run[i].1, None)))
  }

  lemma {:induction false} DatedRunShares(run: Recording, names: Names)
    ensures NormalizeAll(DatedRun(run), names) == NormalizeAll(run, names)
    decreases |run|
  {
    if run != [] {
      var dated := DatedRun(run);
      DatedSharesOutput(run[0].1, run[0].0, names, None);
      DatedRunShares(run[1..], Normalize(run[0].1, run[0].0, names, None).1);
      assert dated[0] == (run[0].0, Dated(run[0].1, None)) && dated[1..] == DatedRun(run[1..]);
    }
  }

  lemma UncleanRun(a: Recording, origin: string, steps: set<string>)
    requires Program(a, steps) && !CleanRun(a)
    ensures EqualCleanRun(a, DatedRun(a), origin, origin, steps) && !RenamesRun(a, DatedRun(a), origin, origin)
  {
    var b := DatedRun(a);
    DatedRunShares(a, Recordings.Start(origin));
    forall i | 0 <= i < |a|
      ensures WellFormed(b[i].1) && Clean(b[i].1, None)
    {
      DatedIsClean(a[i].1, None);
    }
    var k :| 0 <= k < |a| && !Clean(a[k].1, None);
    forall rel
      ensures !Renamed(a, b, rel)
    {
      DatedIsUnlike(a[k].1, None, rel);
      assert b[k].1 == Dated(a[k].1, None);
    }
  }

  /**
   * The condition of the two-run theorem is exact: a recording is clean exactly when every clean
   * recording of the same steps that compares equal to it is a renaming of it.
   */
  lemma CleanRunIff(a: Recording, originA: string, steps: set<string>)
    requires Program(a, steps)
    ensures CleanRun(a) <==>
      forall b, originB :: EqualCleanRun(a, b, originA, originB, steps) ==> RenamesRun(a, b, originA, originB)
  {
    if CleanRun(a) {
      forall b, originB | EqualCleanRun(a, b, originA, originB, steps)
        ensures RenamesRun(a, b, originA, originB)
      {
        TwoRunsCompareEqual(a, b, originA, originB, steps);
      }
    } else {
      UncleanRun(a, originA, steps);
    }
  }
}
