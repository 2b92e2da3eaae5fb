/**
 * The converse of the two-run theorem, and the theorem for whole recordings: a program's steps are
 * normalised in order through one registry whose first name is the push origin.
 */
module Recordings {
  import opened Text
  import opened Sorting
  import opened Json
  import opened Canonical
  import opened Registry
  import opened PubSub
  import opened TwoRuns
  import RegistryText
  import TemplateText

  /** No clock field the walk keeps holds the literal text that stands for a blanked clock value. */
  predicate Clean(v: Value, key: Key)
    decreases v, 1
  {
    Blanked(v, key) ||
    match v
    case Str(s) => ClockKey(key) ==> s != TIME
    case Arr(items) => ArrayKind(key).Some? || forall i :: 0 <= i < |items| ==> Clean(items[i], None)
    case Obj(entries) => forall i :: 0 <= i < |entries| ==> CleanEntry(entries[i])
    case _ => true
  }

  predicate CleanEntry(e: (string, Value))
    decreases e, 2
  {
    Clean(e.1, Some(e.0))
  }

  predicate ClockKey(key: Key) {
    key.Some? && (key.value in TIME_KEYS || key.value == "nextPageToken")
  }

  lemma ClockKeysNameNothing(key: Key)
    requires ClockKey(key)
    ensures KeyKind(key).None? && key != Some("name") && ArrayKind(key).None?
  {
    var k := key.value;
    assert k != "name" && k != "messageIds" && k != "messageId" && k != "message_id" && k != "ackId";
    assert k != "revisionId" && k != "firstRevisionId" && k != "lastRevisionId" && k != "googclient_schemarevisionid";
  }

  // ----- registries that gave out the same names -----

  ghost predicate Twins(s: Names, t: Names, steps: set<string>) {
    && Valid(s, steps) && Valid(t, steps) && !Clash(steps)
    && s.counters == t.counters
    && s.templates.Values == t.templates.Values
    && Braced(s) && Braced(t)
  }

  /** Every name in use opens with a brace. */
  ghost predicate Braced(s: Names) {
    forall a :: a in s.templates ==> s.templates[a] != "" && s.templates[a][0] == '{'
  }

  /** Ids that carry one name in both registries. */
  ghost function Links(s: Names, t: Names): Renaming {
    set a, b | a in s.templates && b in t.templates && s.templates[a] == t.templates[b] :: (a, b)
  }

  ghost predicate Extends(s: Names, s': Names) {
    forall a :: a in s.templates ==> a in s'.templates && s'.templates[a] == s.templates[a]
  }

  /** What one stretch of the two walks leaves behind. */
  ghost predicate Step(s: Names, t: Names, s': Names, t': Names, steps: set<string>) {
    Twins(s', t', steps) && Extends(s, s') && Extends(t, t')
  }

  lemma LinksGrow(s: Names, t: Names, s': Names, t': Names)
    requires Extends(s, s') && Extends(t, t')
    ensures Links(s, t) <= Links(s', t')
  {
  }

  lemma LinksBijective(s: Names, t: Names)
    requires Resolves(s) && Resolves(t)
    ensures Bijective(Links(s, t))
  {
  }

  lemma RegisterKeepsValid(s: Names, steps: set<string>, kind: string, step: string, a: string)
    requires Valid(s, steps) && !Clash(steps) && ':' !in kind && step in steps
    ensures var (s', r) := Registered(s, kind, step, a);
      Valid(s', steps) && a in s'.templates && s'.templates[a] == r
  {
    RegisterResolves(s, steps, kind, step, a);
  }

  lemma SameCounters(s: Names, t: Names, kind: string, step: string, a: string, b: string)
    requires s.counters == t.counters
    ensures Registered(s, kind, step, a).0.counters == Registered(t, kind, step, b).0.counters
    ensures NextCount(s, kind, step) == NextCount(t, kind, step)
  {
  }

  lemma LinkedPair(s: Names, t: Names, a: string, b: string)
    requires a in s.templates && b in t.templates && s.templates[a] == t.templates[b]
    ensures (a, b) in Links(s, t)
  {
  }

  /** Equal names returned for two ids mean the ids correspond. */
  lemma RegisterTwins(s: Names, t: Names, steps: set<string>, kind: string, step: string, a: string, b: string)
    requires Twins(s, t, steps) && ':' !in kind && step in steps
    requires Registered(s, kind, step, a).1 == Registered(t, kind, step, b).1
    ensures var s', t' := Registered(s, kind, step, a).0, Registered(t, kind, step, b).0;
      Step(s, t, s', t', steps) && (a, b) in Links(s', t')
  {
    RegisterKeepsValid(s, steps, kind, step, a);
    RegisterKeepsValid(t, steps, kind, step, b);
    SameCounters(s, t, kind, step, a, b);
    LinkedPair(Registered(s, kind, step, a).0, Registered(t, kind, step, b).0, a, b);
    RegisterBraced(s, kind, step, a);
    RegisterBraced(t, kind, step, b);
    TemplateValues(s, steps, kind, step, a);
    TemplateValues(t, steps, kind, step, b);
    BothNewOrNeither(s, t, steps, kind, step, a, b);
    RegisterExtends(s, steps, kind, step, a);
    RegisterExtends(t, steps, kind, step, b);
  }

  lemma RegisterBraced(s: Names, kind: string, step: string, a: string)
    requires Braced(s)
    ensures Braced(Registered(s, kind, step, a).0)
  {
  }

  lemma RegisterExtends(s: Names, steps: set<string>, kind: string, step: string, a: string)
    requires Valid(s, steps)
    ensures Extends(s, Registered(s, kind, step, a).0)
  {
    assert a in s.templates ==> Known(s.templates[a], s, steps);
  }

  lemma BothNewOrNeither(s: Names, t: Names, steps: set<string>, kind: string, step: string, a: string, b: string)
    requires Twins(s, t, steps) && ':' !in kind && step in steps
    requires Registered(s, kind, step, a).1 == Registered(t, kind, step, b).1
    ensures a in s.templates <==> b in t.templates
  {
    NextNameIsFresh(s, steps, kind, step);
    NextNameIsFresh(t, steps, kind, step);
    NamesAreUsed(s, t);
    NamesAreUsed(t, s);
  }

  lemma NamesAreUsed(s: Names, t: Names)
    requires s.templates.Values == t.templates.Values && Resolves(t)
    ensures forall a :: a in s.templates ==> s.templates[a] in t.values
  {
    forall a | a in s.templates
      ensures s.templates[a] in t.values
    {
      assert s.templates[a] in s.templates.Values;
      var b :| b in t.templates && t.templates[b] == s.templates[a];
    }
  }

  lemma TemplateValues(s: Names, steps: set<string>, kind: string, step: string, a: string)
    requires Valid(s, steps)
    ensures var s' := Registered(s, kind, step, a).0;
      s'.templates.Values == if a in s.templates then s.templates.Values
                             else s.templates.Values + {Template(kind, step, NextCount(s, kind, step))}
  {
    var s' := Registered(s, kind, step, a).0;
    if a in s.templates {
      assert Known(s.templates[a], s, steps);
    } else {
      var n := Template(kind, step, NextCount(s, kind, step));
      assert s'.templates == s.templates[a := n];
      assert s'.templates[a] == n;
      forall v | v in s.templates.Values
        ensures v in s'.templates.Values
      {
        var b :| b in s.templates && s.templates[b] == v;
        assert s'.templates[b] == v;
      }
    }
  }

  // ----- equal output forces a renaming -----

  lemma NameNotEmpty(s: Names, steps: set<string>, kind: string, step: string, a: string)
    requires Valid(s, steps) && !Clash(steps) && ':' !in kind && step in steps
    ensures Registered(s, kind, step, a).1 != ""
  {
    RegisterResolves(s, steps, kind, step, a);
    assert Known(Registered(s, kind, step, a).1, Registered(s, kind, step, a).0, steps);
  }

  lemma BackId(x: Value, y: Value, kind: string, step: string, s: Names, t: Names, steps: set<string>)
    requires Twins(s, t, steps) && ':' !in kind && step in steps
    requires Same(NormalizeId(x, kind, step, s).0, NormalizeId(y, kind, step, t).0)
    ensures var s', t' := NormalizeId(x, kind, step, s).1, NormalizeId(y, kind, step, t).1;
      Step(s, t, s', t', steps) && AlikeId(x, y, Links(s', t'))
  {
    if IsId(x) {
      NameNotEmpty(s, steps, kind, step, x.text);
    }
    if IsId(y) {
      NameNotEmpty(t, steps, kind, step, y.text);
    }
    if IsId(x) && IsId(y) {
      RegisterTwins(s, t, steps, kind, step, x.text, y.text);
    }
  }

  lemma SameItemsUncons(x: Value, xs: seq<Value>, y: Value, ys: seq<Value>)
    requires SameItems([x] + xs, [y] + ys)
    ensures Same(x, y) && SameItems(xs, ys)
  {
    var l, r := [x] + xs, [y] + ys;
    assert l[0] == x && r[0] == y;
    forall i | 0 <= i < |xs|
      ensures Same(xs[i], ys[i])
    {
      assert l[i + 1] == xs[i] && r[i + 1] == ys[i];
    }
  }

  lemma SameListsUncons(x: (string, Value), xs: seq<(string, Value)>, y: (string, Value), ys: seq<(string, Value)>)
    requires SameLists([x] + xs, [y] + ys)
    ensures x.0 == y.0 && Same(x.1, y.1) && SameLists(xs, ys)
  {
    var l, r := [x] + xs, [y] + ys;
    assert l[0] == x && r[0] == y;
    forall i | 0 <= i < |xs|
      ensures xs[i].0 == ys[i].0 && Same(xs[i].1, ys[i].1)
    {
      assert l[i + 1] == xs[i] && r[i + 1] == ys[i];
    }
  }

  lemma StepsCompose(s: Names, t: Names, s1: Names, t1: Names, s2: Names, t2: Names, steps: set<string>)
    requires Step(s, t, s1, t1, steps) && Step(s1, t1, s2, t2, steps)
    ensures Step(s, t, s2, t2, steps) && Links(s1, t1) <= Links(s2, t2)
  {
    LinksGrow(s1, t1, s2, t2);
  }

  ghost predicate AlikeIds(xs: seq<Value>, ys: seq<Value>, rel: Renaming) {
    |xs| == |ys| && forall i :: 0 <= i < |xs| ==> AlikeId(xs[i], ys[i], rel)
  }

  lemma AlikeIdsCons(xs: seq<Value>, ys: seq<Value>, few: Renaming, rel: Renaming)
    requires xs != [] && ys != [] && few <= rel
    requires AlikeId(xs[0], ys[0], few) && AlikeIds(xs[1..], ys[1..], rel)
    ensures AlikeIds(xs, ys, rel)
  {
    forall i | 0 <= i < |xs|
      ensures AlikeId(xs[i], ys[i], rel)
    {
      if i > 0 {
        assert xs[1..][i - 1] == xs[i] && ys[1..][i - 1] == ys[i];
      }
    }
  }

  lemma {:induction false} BackIds(xs: seq<Value>, ys: seq<Value>, kind: string, step: string, s: Names, t: Names,
                                   steps: set<string>)
    requires Twins(s, t, steps) && ':' !in kind && step in steps
    requires SameItems(NormalizeIds(xs, kind, step, s).0, NormalizeIds(ys, kind, step, t).0)
    ensures var s', t' := NormalizeIds(xs, kind, step, s).1, NormalizeIds(ys, kind, step, t).1;
      Step(s, t, s', t', steps) && AlikeIds(xs, ys, Links(s', t'))
    decreases |xs|
  {
    if xs != [] {
      var (hx, s1) := NormalizeId(xs[0], kind, step, s);
      var (hy, t1) := NormalizeId(ys[0], kind, step, t);
      var (tx, s2) := NormalizeIds(xs[1..], kind, step, s1);
      var (ty, t2) := NormalizeIds(ys[1..], kind, step, t1);
      SameItemsUncons(hx, tx, hy, ty);
      BackId(xs[0], ys[0], kind, step, s, t, steps);
      BackIds(xs[1..], ys[1..], kind, step, s1, t1, steps);
      StepsCompose(s, t, s1, t1, s2, t2, steps);
      AlikeIdsCons(xs, ys, Links(s1, t1), Links(s2, t2));
    }
  }

  lemma {:induction false} BeforeAfter(s: string)
    requires '@' in s
    ensures s == BeforeAt(s) + "@" + AfterAt(s)
  {
    if s[0] != '@' {
      BeforeAfter(s[1..]);
      assert s == [s[0]] + s[1..];
    } else {
      assert s == "@" + s[1..];
    }
  }

  /** A name with a revision is never confused with a name that is kept as it stands. */
  lemma RevisionVisible(a: string, b: string, name: string, key: Key)
    requires CarriesRevision(a, key) && name != "" && name[0] == '{'
    requires b == BeforeAt(a) + "@" + name
    ensures CarriesRevision(b, key)
  {
    assert b[|BeforeAt(a)|] == '@';
    BeforeAfter(b);
    SplitFirst(BeforeAt(b), AfterAt(b), BeforeAt(a), name, '@');
  }

  lemma TemplateOpens(s: Names, steps: set<string>, kind: string, step: string, a: string)
    requires Valid(s, steps) && !Clash(steps) && ':' !in kind && step in steps && Braced(s)
    ensures Registered(s, kind, step, a).1 != "" && Registered(s, kind, step, a).1[0] == '{'
    ensures Braced(Registered(s, kind, step, a).0)
  {
    NameNotEmpty(s, steps, kind, step, a);
  }

  lemma BackText(a: string, b: string, step: string, s: Names, t: Names, steps: set<string>, key: Key)
    requires Twins(s, t, steps) && step in steps
    requires NormalizeText(a, step, s, key).0 == NormalizeText(b, step, t, key).0
    ensures var s', t' := NormalizeText(a, step, s, key).1, NormalizeText(b, step, t, key).1;
      Step(s, t, s', t', steps) && AlikeText(a, b, Links(s', t'), key)
  {
    if KeyKind(key).Some? {
      var kind := KeyKind(key).value;
      if a != "" {
        NameNotEmpty(s, steps, kind, step, a);
      }
      if b != "" {
        NameNotEmpty(t, steps, kind, step, b);
      }
      if a != "" && b != "" {
        RegisterTwins(s, t, steps, kind, step, a, b);
      }
    } else {
      if CarriesRevision(a, key) {
        TemplateOpens(s, steps, "revisionId", step, Revision(a));
        RevisionVisible(a, NormalizeText(a, step, s, key).0.text, Registered(s, "revisionId", step, Revision(a)).1,
                        key);
      }
      if CarriesRevision(b, key) {
        TemplateOpens(t, steps, "revisionId", step, Revision(b));
        RevisionVisible(b, NormalizeText(b, step, t, key).0.text, Registered(t, "revisionId", step, Revision(b)).1,
                        key);
      }
      if CarriesRevision(a, key) && CarriesRevision(b, key) {
        SplitFirst(BeforeAt(a), Registered(s, "revisionId", step, Revision(a)).1,
                   BeforeAt(b), Registered(t, "revisionId", step, Revision(b)).1, '@');
        RegisterTwins(s, t, steps, "revisionId", step, Revision(a), Revision(b));
      }
    }
  }

  /** Blanked output is told apart from every kept value of a clean recording. */
  lemma BlankedTogether(x: Value, y: Value, step: string, s: Names, t: Names, key: Key)
    requires Blanked(x, key) && Clean(y, key)
    requires Same(Normalize(x, step, s, key).0, Normalize(y, step, t, key).0)
    ensures Blanked(y, key)
  {
    ClockKeysNameNothing(key);
    assert Normalize(y, step, t, key).0 == Str(TIME);
  }

  lemma SameSymmetricText(x: Value, y: Value)
    requires x.Str? || y.Str?
    ensures Same(x, y) <==> x == y
  {
  }

  lemma KindOfOutput(v: Value, step: string, s: Names, key: Key)
    requires !Blanked(v, key)
    ensures KindOf(Normalize(v, step, s, key).0) == KindOf(v)
    ensures !v.Arr? && !v.Obj? && !v.Str? ==> Normalize(v, step, s, key) == (v, s)
  {
  }

  /** Equal output forces the raw values to agree up to the renaming the registries hold. */
  lemma {:induction false} Back(x: Value, y: Value, step: string, s: Names, t: Names, steps: set<string>, key: Key)
    requires WellFormed(x) && WellFormed(y) && Clean(x, key) && Clean(y, key)
    requires Twins(s, t, steps) && step in steps
    requires Same(Normalize(x, step, s, key).0, Normalize(y, step, t, key).0)
    ensures var s', t' := Normalize(x, step, s, key).1, Normalize(y, step, t, key).1;
      Step(s, t, s', t', steps) && Alike(x, y, Links(s', t'), key)
    decreases Size(x), 0, 1
  {
    if Blanked(x, key) {
      BlankedTogether(x, y, step, s, t, key);
    } else if Blanked(y, key) {
      SameSymmetricText(Normalize(x, step, s, key).0, Normalize(y, step, t, key).0);
      BlankedTogether(y, x, step, t, s, key);
    } else {
      KindOfOutput(x, step, s, key);
      KindOfOutput(y, step, t, key);
      assert KindOf(x) == KindOf(y);
      if x.Arr? {
        BackArray(x.items, y.items, step, s, t, steps, key);
      } else if x.Obj? {
        BackObject(x.entries, y.entries, step, s, t, steps);
      } else if x.Str? {
        BackText(x.text, y.text, step, s, t, steps, key);
      }
    }
  }

  lemma {:induction false} BackArray(xs: seq<Value>, ys: seq<Value>, step: string, s: Names, t: Names,
                                     steps: set<string>, key: Key)
    requires WellFormed(Arr(xs)) && WellFormed(Arr(ys))
    requires ArrayKind(key).None? ==> forall i :: 0 <= i < |xs| ==> Clean(xs[i], None)
    requires ArrayKind(key).None? ==> forall i :: 0 <= i < |ys| ==> Clean(ys[i], None)
    requires Twins(s, t, steps) && step in steps
    requires Same(Arr(NormalizeList(xs, step, s, key).0), Arr(NormalizeList(ys, step, t, key).0))
    ensures var s', t' := NormalizeList(xs, step, s, key).1, NormalizeList(ys, step, t, key).1;
      Step(s, t, s', t', steps) && AlikeItems(xs, ys, Links(s', t'), key)
    decreases SizeItems(xs), |xs|, 1
  {
    EquivalentOrdered(NormalizeList(xs, step, s, key).0, NormalizeList(ys, step, t, key).0, None, {});
    if ArrayKind(key).Some? {
      BackIds(xs, ys, ArrayKind(key).value, step, s, t, steps);
    } else {
      BackItems(xs, ys, step, s, t, steps);
    }
  }

  ghost predicate AlikeAll(xs: seq<Value>, ys: seq<Value>, rel: Renaming) {
    |xs| == |ys| && forall i :: 0 <= i < |xs| ==> Alike(xs[i], ys[i], rel, None)
  }

  lemma AlikeAllCons(xs: seq<Value>, ys: seq<Value>, few: Renaming, rel: Renaming)
    requires xs != [] && ys != [] && few <= rel
    requires Alike(xs[0], ys[0], few, None) && AlikeAll(xs[1..], ys[1..], rel)
    ensures AlikeAll(xs, ys, rel)
  {
    AlikeGrows(xs[0], ys[0], few, rel, None);
    forall i | 0 <= i < |xs|
      ensures Alike(xs[i], ys[i], rel, None)
    {
      if i > 0 {
        assert xs[1..][i - 1] == xs[i] && ys[1..][i - 1] == ys[i];
      }
    }
  }

  lemma {:induction false} BackItems(xs: seq<Value>, ys: seq<Value>, step: string, s: Names, t: Names,
                                     steps: set<string>)
    requires forall i :: 0 <= i < |xs| ==> WellFormed(xs[i]) && Clean(xs[i], None)
    requires forall i :: 0 <= i < |ys| ==> WellFormed(ys[i]) && Clean(ys[i], None)
    requires Twins(s, t, steps) && step in steps
    requires SameItems(NormalizeItems(xs, step, s).0, NormalizeItems(ys, step, t).0)
    ensures var s', t' := NormalizeItems(xs, step, s).1, NormalizeItems(ys, step, t).1;
      Step(s, t, s', t', steps) && AlikeAll(xs, ys, Links(s', t'))
    decreases SizeItems(xs), |xs|, 0
  {
    if xs != [] {
      var (hx, s1) := Normalize(xs[0], step, s, None);
      var (hy, t1) := Normalize(ys[0], step, t, None);
      var (tx, s2) := NormalizeItems(xs[1..], step, s1);
      var (ty, t2) := NormalizeItems(ys[1..], step, t1);
      SameItemsUncons(hx, tx, hy, ty);
      Back(xs[0], ys[0], step, s, t, steps, None);
      BackItems(xs[1..], ys[1..], step, s1, t1, steps);
      StepsCompose(s, t, s1, t1, s2, t2, steps);
      AlikeAllCons(xs, ys, Links(s1, t1), Links(s2, t2));
    }
  }

  lemma AlikeListsCons(xs: seq<(string, Value)>, ys: seq<(string, Value)>, few: Renaming, rel: Renaming)
    requires xs != [] && ys != [] && few <= rel && xs[0].0 == ys[0].0
    requires Alike(xs[0].1, ys[0].1, few, Some(xs[0].0)) && AlikeLists(xs[1..], ys[1..], rel)
    ensures AlikeLists(xs, ys, rel)
  {
    AlikeGrows(xs[0].1, ys[0].1, few, rel, Some(xs[0].0));
    forall i | 0 <= i < |xs|
      ensures xs[i].0 == ys[i].0 && Alike(xs[i].1, ys[i].1, rel, Some(xs[i].0))
    {
      if i > 0 {
        assert xs[1..][i - 1] == xs[i] && ys[1..][i - 1] == ys[i];
      }
    }
  }

  ghost predicate CleanEntries(xs: seq<(string, Value)>) {
    forall i :: 0 <= i < |xs| ==> WellFormed(xs[i].1) && Clean(xs[i].1, Some(xs[i].0))
  }

  lemma {:induction false} BackEntries(xs: seq<(string, Value)>, ys: seq<(string, Value)>, step: string, s: Names,
                                       t: Names, steps: set<string>)
    requires CleanEntries(xs) && CleanEntries(ys)
    requires Twins(s, t, steps) && step in steps
    requires SameLists(NormalizeEntries(xs, step, s).0, NormalizeEntries(ys, step, t).0)
    ensures var s', t' := NormalizeEntries(xs, step, s).1, NormalizeEntries(ys, step, t).1;
      Step(s, t, s', t', steps) && AlikeLists(xs, ys, Links(s', t'))
    decreases SizeEntries(xs), |xs|, 0
  {
    if xs != [] {
      assert SizeEntry(xs[0]) == Size(xs[0].1);
      var (hx, s1) := Normalize(xs[0].1, step, s, Some(xs[0].0));
      var (hy, t1) := Normalize(ys[0].1, step, t, Some(ys[0].0));
      var (tx, s2) := NormalizeEntries(xs[1..], step, s1);
      var (ty, t2) := NormalizeEntries(ys[1..], step, t1);
      SameListsUncons((xs[0].0, hx), tx, (ys[0].0, hy), ty);
      Back(xs[0].1, ys[0].1, step, s, t, steps, Some(xs[0].0));
      BackEntries(xs[1..], ys[1..], step, s1, t1, steps);
      StepsCompose(s, t, s1, t1, s2, t2, steps);
      AlikeListsCons(xs, ys, Links(s1, t1), Links(s2, t2));
    }
  }

  lemma CleanSorted(xs: seq<(string, Value)>)
    requires WellFormed(Obj(xs)) && Clean(Obj(xs), None)
    ensures CleanEntries(SortPairs(xs))
  {
    forall i | 0 <= i < |xs|
      ensures WellFormed(SortPairs(xs)[i].1) && Clean(SortPairs(xs)[i].1, Some(SortPairs(xs)[i].0))
    {
      assert SortPairs(xs)[i] in xs;
      var j :| 0 <= j < |xs| && xs[j] == SortPairs(xs)[i];
      assert CleanEntry(xs[j]);
    }
  }

  lemma NormalizedKeysSorted(xs: seq<(string, Value)>, step: string, s: Names)
    requires DistinctKeys(xs)
    ensures Ascending(NormalizeEntries(SortPairs(xs), step, s).0)
    ensures DistinctKeys(NormalizeEntries(SortPairs(xs), step, s).0)
  {
    SortKeepsDistinct(xs);
  }

  lemma {:induction false} BackObject(xs: seq<(string, Value)>, ys: seq<(string, Value)>, step: string, s: Names,
                                      t: Names, steps: set<string>)
    requires WellFormed(Obj(xs)) && WellFormed(Obj(ys)) && Clean(Obj(xs), None) && Clean(Obj(ys), None)
    requires Twins(s, t, steps) && step in steps
    requires Same(Obj(NormalizeEntries(SortPairs(xs), step, s).0), Obj(NormalizeEntries(SortPairs(ys), step, t).0))
    ensures var s', t' := NormalizeEntries(SortPairs(xs), step, s).1, NormalizeEntries(SortPairs(ys), step, t).1;
      && Step(s, t, s', t', steps)
      && |xs| == |ys| && forall i :: 0 <= i < |xs| ==> AlikeEntry(xs[i], ys, Links(s', t'))
    decreases SizeEntries(xs), |xs|, 1
  {
    CleanSorted(xs);
    CleanSorted(ys);
    SizeSorted(xs);
    NormalizedKeysSorted(xs, step, s);
    NormalizedKeysSorted(ys, step, t);
    SameObjectsSameLists(NormalizeEntries(SortPairs(xs), step, s).0, NormalizeEntries(SortPairs(ys), step, t).0);
    BackEntries(SortPairs(xs), SortPairs(ys), step, s, t, steps);
    var s', t' := NormalizeEntries(SortPairs(xs), step, s).1, NormalizeEntries(SortPairs(ys), step, t).1;
    AlikeUnsorted(xs, ys, Links(s', t'));
  }

  // ----- whole recordings -----

  /** The values of a program's steps, each with its step name. */
  type Recording = seq<(string, Value)>

  function NormalizeAll(run: Recording, names: Names): (r: (seq<Value>, Names))
    ensures |r.0| == |run|
    decreases |run|
  {
    if run == [] then ([], names)
    else
      var (h, n1) := Normalize(run[0].1, run[0].0, names, None);
      var (t, n2) := NormalizeAll(run[1..], n1);
      ([h] + t, n2)
  }

  const PUSH_ORIGIN := "{{pushOrigin}}"

  /** The registry a run starts with. */
  function Start(origin: string): Names {
    Bound(NO_NAMES, PUSH_ORIGIN, origin)
  }

  /** Two recordings of one program: the same steps, in order, none named like another's ordinal. */
  ghost predicate SameProgram(a: Recording, b: Recording, steps: set<string>) {
    && |a| == |b| && !Clash(steps)
    && (forall i :: 0 <= i < |a| ==> a[i].0 == b[i].0 && a[i].0 in steps)
    && (forall i :: 0 <= i < |a| ==> WellFormed(a[i].1) && WellFormed(b[i].1))
    && (forall i :: 0 <= i < |a| ==> Clean(a[i].1, None) && Clean(b[i].1, None))
  }

  ghost predicate Renamed(a: Recording, b: Recording, rel: Renaming) {
    |a| == |b| && forall i :: 0 <= i < |a| ==> Alike(a[i].1, b[i].1, rel, None)
  }

  lemma RenamedCons(a: Recording, b: Recording, few: Renaming, rel: Renaming)
    requires a != [] && b != [] && few <= rel
    requires Alike(a[0].1, b[0].1, few, None) && Renamed(a[1..], b[1..], rel)
    ensures Renamed(a, b, rel)
  {
    AlikeGrows(a[0].1, b[0].1, few, rel, None);
    forall i | 0 <= i < |a|
      ensures Alike(a[i].1, b[i].1, rel, None)
    {
      if i > 0 {
        assert a[1..][i - 1] == a[i] && b[1..][i - 1] == b[i];
      }
    }
  }

  lemma {:induction false} ForwardAll(a: Recording, b: Recording, s: Names, t: Names, rel: Renaming, steps: set<string>)
    requires SameProgram(a, b, steps) && Bijective(rel) && Linked(s, t, rel) && Renamed(a, b, rel)
    ensures SameItems(NormalizeAll(a, s).0, NormalizeAll(b, t).0)
    ensures Linked(NormalizeAll(a, s).1, NormalizeAll(b, t).1, rel)
    decreases |a|
  {
    if a != [] {
      Forward(a[0].1, b[0].1, a[0].0, s, t, rel, None);
      var (hx, s1) := Normalize(a[0].1, a[0].0, s, None);
      var (hy, t1) := Normalize(b[0].1, b[0].0, t, None);
      ForwardAll(a[1..], b[1..], s1, t1, rel, steps);
      SameItemsCons(hx, NormalizeAll(a[1..], s1).0, hy, NormalizeAll(b[1..], t1).0);
    }
  }

  lemma {:induction false} BackAll(a: Recording, b: Recording, s: Names, t: Names, steps: set<string>)
    requires SameProgram(a, b, steps) && Twins(s, t, steps)
    requires SameItems(NormalizeAll(a, s).0, NormalizeAll(b, t).0)
    ensures var s', t' := NormalizeAll(a, s).1, NormalizeAll(b, t).1;
      Step(s, t, s', t', steps) && Renamed(a, b, Links(s', t'))
    decreases |a|
  {
    if a != [] {
      var (hx, s1) := Normalize(a[0].1, a[0].0, s, None);
      var (hy, t1) := Normalize(b[0].1, b[0].0, t, None);
      var (tx, s2) := NormalizeAll(a[1..], s1);
      var (ty, t2) := NormalizeAll(b[1..], t1);
      SameItemsUncons(hx, tx, hy, ty);
      Back(a[0].1, b[0].1, a[0].0, s, t, steps, None);
      BackAll(a[1..], b[1..], s1, t1, steps);
      StepsCompose(s, t, s1, t1, s2, t2, steps);
      RenamedCons(a, b, Links(s1, t1), Links(s2, t2));
    }
  }

  lemma StartTwins(originA: string, originB: string, steps: set<string>)
    requires !Clash(steps)
    ensures Twins(Start(originA), Start(originB), steps)
    ensures (originA, originB) in Links(Start(originA), Start(originB))
  {
    var s, t := Start(originA), Start(originB);
    assert ':' !in PUSH_ORIGIN;
    assert s.templates.Values == {PUSH_ORIGIN} by {
      assert s.templates[originA] == PUSH_ORIGIN;
    }
    assert t.templates.Values == {PUSH_ORIGIN} by {
      assert t.templates[originB] == PUSH_ORIGIN;
    }
  }

  /** What the replay compares: the canonical forms of the normalised steps. */
  ghost predicate CompareEqual(xs: seq<Value>, ys: seq<Value>) {
    |xs| == |ys| && forall i :: 0 <= i < |xs| ==> Canonicalize(xs[i], None, {}) == Canonicalize(ys[i], None, {})
  }

  lemma CompareEqualIffSame(xs: seq<Value>, ys: seq<Value>)
    requires forall i :: 0 <= i < |xs| ==> WellFormed(xs[i])
    requires forall i :: 0 <= i < |ys| ==> WellFormed(ys[i])
    ensures CompareEqual(xs, ys) <==> SameItems(xs, ys)
  {
    if |xs| == |ys| {
      forall i | 0 <= i < |xs|
        ensures Canonicalize(xs[i], None, {}) == Canonicalize(ys[i], None, {}) <==> Same(xs[i], ys[i])
      {
        CanonicalIffEquivalent(xs[i], ys[i], None, {});
      }
    }
  }

  lemma {:induction false} AllWellFormed(run: Recording, names: Names)
    requires forall i :: 0 <= i < |run| ==> WellFormed(run[i].1)
    ensures forall i :: 0 <= i < |run| ==> WellFormed(NormalizeAll(run, names).0[i])
    decreases |run|
  {
    if run != [] {
      NormalizedWellFormed(run[0].1, run[0].0, names, None);
      AllWellFormed(run[1..], Normalize(run[0].1, run[0].0, names, None).1);
    }
  }

  lemma {:induction false} NormalizedWellFormed(v: Value, step: string, s: Names, key: Key)
    requires WellFormed(v)
    ensures WellFormed(Normalize(v, step, s, key).0)
    decreases Size(v), 0, 1
  {
    if !Blanked(v, key) && v.Arr? {
      ListWellFormed(v.items, step, s, key);
    } else if !Blanked(v, key) && v.Obj? {
      SizeSorted(v.entries);
      SortedWellFormed(v.entries);
      EntriesWellFormed(SortPairs(v.entries), step, s);
      NormalizedKeysSorted(v.entries, step, s);
    }
  }

  lemma {:induction false} ListWellFormed(items: seq<Value>, step: string, s: Names, key: Key)
    requires forall i :: 0 <= i < |items| ==> WellFormed(items[i])
    ensures forall i :: 0 <= i < |items| ==> WellFormed(NormalizeList(items, step, s, key).0[i])
    decreases SizeItems(items), |items|, 1
  {
    if ArrayKind(key).Some? {
      IdsWellFormed(items, ArrayKind(key).value, step, s);
    } else {
      ItemsWellFormed(items, step, s);
    }
  }

  lemma {:induction false} IdsWellFormed(items: seq<Value>, kind: string, step: string, s: Names)
    requires forall i :: 0 <= i < |items| ==> WellFormed(items[i])
    ensures forall i :: 0 <= i < |items| ==> WellFormed(NormalizeIds(items, kind, step, s).0[i])
    decreases |items|
  {
    if items != [] {
      IdsWellFormed(items[1..], kind, step, NormalizeId(items[0], kind, step, s).1);
    }
  }

  lemma {:induction false} ItemsWellFormed(items: seq<Value>, step: string, s: Names)
    requires forall i :: 0 <= i < |items| ==> WellFormed(items[i])
    ensures forall i :: 0 <= i < |items| ==> WellFormed(NormalizeItems(items, step, s).0[i])
    decreases SizeItems(items), |items|, 0
  {
    if items != [] {
      NormalizedWellFormed(items[0], step, s, None);
      ItemsWellFormed(items[1..], step, Normalize(items[0], step, s, None).1);
    }
  }

  lemma {:induction false} EntriesWellFormed(entries: seq<(string, Value)>, step: string, s: Names)
    requires forall i :: 0 <= i < |entries| ==> WellFormed(entries[i].1)
    ensures forall i :: 0 <= i < |entries| ==> WellFormed(NormalizeEntries(entries, step, s).0[i].1)
    decreases SizeEntries(entries), |entries|, 0
  {
    if entries != [] {
      assert SizeEntry(entries[0]) == Size(entries[0].1);
      NormalizedWellFormed(entries[0].1, step, s, Some(entries[0].0));
      EntriesWellFormed(entries[1..], step, Normalize(entries[0].1, step, s, Some(entries[0].0)).1);
    }
  }

  /**
   * Two recordings of one program compare equal exactly when some one-to-one renaming of ids, which
   * sends one push origin to the other, carries the first recording to the second.
   */
  lemma TwoRunsCompareEqual(a: Recording, b: Recording, originA: string, originB: string, steps: set<string>)
    requires SameProgram(a, b, steps)
    ensures CompareEqual(NormalizeAll(a, Start(originA)).0, NormalizeAll(b, Start(originB)).0) <==>
            exists rel :: Bijective(rel) && (originA, originB) in rel && Renamed(a, b, rel)
  {
    var s, t := Start(originA), Start(originB);
    AllWellFormed(a, s);
    AllWellFormed(b, t);
    CompareEqualIffSame(NormalizeAll(a, s).0, NormalizeAll(b, t).0);
    if SameItems(NormalizeAll(a, s).0, NormalizeAll(b, t).0) {
      var rel := EqualRunsGiveRenaming(a, b, originA, originB, steps);
    }
    if exists rel :: Bijective(rel) && (originA, originB) in rel && Renamed(a, b, rel) {
      var rel :| Bijective(rel) && (originA, originB) in rel && Renamed(a, b, rel);
      StartLinked(originA, originB, rel);
      ForwardAll(a, b, s, t, rel, steps);
    }
  }

  lemma EqualRunsGiveRenaming(a: Recording, b: Recording, originA: string, originB: string, steps: set<string>)
    returns (rel: Renaming)
    requires SameProgram(a, b, steps)
    requires SameItems(NormalizeAll(a, Start(originA)).0, NormalizeAll(b, Start(originB)).0)
    ensures Bijective(rel) && (originA, originB) in rel && Renamed(a, b, rel)
  {
    var s, t := Start(originA), Start(originB);
    StartTwins(originA, originB, steps);
    BackAll(a, b, s, t, steps);
    var s', t' := NormalizeAll(a, s).1, NormalizeAll(b, t).1;
    LinksGrow(s, t, s', t');
    LinksBijective(s', t');
    rel := Links(s', t');
  }

  lemma StartLinked(originA: string, originB: string, rel: Renaming)
    requires Bijective(rel) && (originA, originB) in rel
    ensures Linked(Start(originA), Start(originB), rel)
  {
  }

  // ----- where the conditions come from -----

  /** Base and revision are the whole name exactly when there is one `@`. */
  lemma OneAtIsWhole(s: string)
    requires '@' in s
    ensures s == BeforeAt(s) + "@" + Revision(s) <==> '@' !in AfterAt(s)
  {
    BeforeAfter(s);
    if '@' !in AfterAt(s) {
      NoAt(AfterAt(s));
    } else {
      BeforeAfter(AfterAt(s));
      assert |BeforeAt(s) + "@" + Revision(s)| < |s|;
    }
  }

  lemma {:induction false} NoAt(s: string)
    requires '@' !in s
    ensures BeforeAt(s) == s
  {
    if s != "" {
      assert s[0] in s;
      NoAt(s[1..]);
      assert s == [s[0]] + s[1..];
    }
  }

  const NAME: Key := Some("name")

  /** A recorded schema name with its revision resolved through the registry. */
  function RestoredName(text: string, names: Names): string {
    if CarriesRevision(text, NAME) && AfterAt(text) in names.values
    then BeforeAt(text) + "@" + names.values[AfterAt(text)]
    else text
  }

  lemma AfterFirstAt(base: string, rest: string)
    requires '@' !in base
    ensures var s := base + "@" + rest; '@' in s && BeforeAt(s) == base && AfterAt(s) == rest
  {
    var s := base + "@" + rest;
    assert s[|base|] == '@';
    BeforeAfter(s);
    SplitFirst(BeforeAt(s), AfterAt(s), base, rest, '@');
  }

  /**
   * What the walk records for a schema name gives the whole name back exactly when the name carries
   * no revision or holds no second `@` behind it.
   */
  lemma NameRestoredIff(s: string, step: string, names: Names, steps: set<string>)
    requires Valid(names, steps) && !Clash(steps) && step in steps && Braced(names)
    ensures var (out, after) := NormalizeText(s, step, names, NAME);
      out.Str? && (RestoredName(out.text, after) == s <==> !CarriesRevision(s, NAME) || '@' !in AfterAt(s))
  {
    if CarriesRevision(s, NAME) {
      var (after, t) := Registered(names, "revisionId", step, Revision(s));
      assert NormalizeText(s, step, names, NAME) == (Str(BeforeAt(s) + "@" + t), after);
      RevisionResolves(names, steps, step, Revision(s));
      RevisionRestored(s, t, after);
      OneAtIsWhole(s);
    } else {
      assert NormalizeText(s, step, names, NAME) == (Str(s), names);
    }
  }

  lemma RevisionResolves(names: Names, steps: set<string>, step: string, raw: string)
    requires Valid(names, steps) && !Clash(steps) && step in steps && Braced(names)
    ensures var (after, t) := Registered(names, "revisionId", step, raw);
      t != "" && t[0] == '{' && t in after.values && after.values[t] == raw
  {
    RegisterResolves(names, steps, "revisionId", step, raw);
    TemplateOpens(names, steps, "revisionId", step, raw);
  }

  lemma RevisionRestored(s: string, t: string, names: Names)
    requires CarriesRevision(s, NAME) && t != "" && t[0] == '{' && t in names.values && names.values[t] == Revision(s)
    ensures RestoredName(BeforeAt(s) + "@" + t, names) == BeforeAt(s) + "@" + Revision(s)
  {
    RevisionVisible(s, BeforeAt(s) + "@" + t, t, NAME);
    AfterFirstAt(BeforeAt(s), t);
  }

  /**
   * The registry's own `resolve` on what is recorded: a name without braces comes back exactly when it
   * carries no revision or holds no second `@` behind it.
   */
  lemma NameResolvesIff(s: string, step: string, names: Names, steps: set<string>)
    requires Valid(names, steps) && !Clash(steps) && step in steps && RegistryText.AllRecognised(names)
    requires TemplateText.BraceFree(s) && RegistryText.StepName(step)
    ensures var (out, after) := NormalizeText(s, step, names, NAME);
      && out.Str?
      && (TemplateText.Resolve(out.text, after.values) == Some(s) <==>
          !CarriesRevision(s, NAME) || '@' !in AfterAt(s))
  {
    if CarriesRevision(s, NAME) {
      var (after, t) := Registered(names, "revisionId", step, Revision(s));
      assert NormalizeText(s, step, names, NAME) == (Str(BeforeAt(s) + "@" + t), after);
      RevisionRecognised(names, steps, step, Revision(s));
      NameResolves(s, t, after);
    } else {
      TemplateText.ResolveLiteral(s, "", names.values);
      assert s + "" == s;
    }
  }

  lemma NameResolves(s: string, t: string, names: Names)
    requires TemplateText.BraceFree(s) && '@' in s && TemplateText.Recognised(t)
    requires t in names.values && names.values[t] == Revision(s)
    ensures TemplateText.Resolve(BeforeAt(s) + "@" + t, names.values) == Some(s) <==> '@' !in AfterAt(s)
  {
    var base := BeforeAt(s) + "@";
    BeforeAfter(s);
    assert forall c :: c in BeforeAt(s) ==> c in s;
    TemplateText.ResolveThen(base, t, "", "", names.values);
    assert t + "" == t && base + names.values[t] + "" == base + names.values[t];
    OneAtIsWhole(s);
  }

  lemma RevisionRecognised(names: Names, steps: set<string>, step: string, raw: string)
    requires Valid(names, steps) && !Clash(steps) && step in steps && RegistryText.AllRecognised(names)
    requires RegistryText.StepName(step)
    ensures var (after, t) := Registered(names, "revisionId", step, raw);
      TemplateText.Recognised(t) && t in after.values && after.values[t] == raw
  {
    RegisterResolves(names, steps, "revisionId", step, raw);
    RegistryText.RegisterRecognised(names, "revisionId", step, raw);
  }

  /** A second `@` loses its tail: different names record alike whatever the renaming. */
  lemma SecondAtIsLost(step: string, names: Names)
    ensures Normalize(Str("n@r@x"), step, names, Some("name")) == Normalize(Str("n@r@y"), step, names, Some("name"))
    ensures Str("n@r@x") != Str("n@r@y")
  {
    assert "n@r@x"[1..] == "@r@x" && "@r@x"[1..] == "r@x" && "r@x"[1..] == "@x";
    assert "n@r@y"[1..] == "@r@y" && "@r@y"[1..] == "r@y" && "r@y"[1..] == "@y";
    assert AfterAt("n@r@x") == "r@x" && AfterAt("n@r@y") == "r@y";
    assert BeforeAt("r@x") == "r" && BeforeAt("r@y") == "r";
    assert '@' in "n@r@x" by { assert "n@r@x"[1] == '@'; }
    assert '@' in "n@r@y" by { assert "n@r@y"[1] == '@'; }
  }

  /** A clock field that already holds `{{time}}` is confused with a blanked one. */
  lemma LiteralTimeCollides(step: string, names: Names, rel: Renaming)
    ensures var x, y := Str(TIME), Str("2024-01-01T");
      && Normalize(x, step, names, Some("createTime")) == Normalize(y, step, names, Some("createTime"))
      && !Alike(x, y, rel, Some("createTime"))
  {
    assert StartsWithDate("2024-01-01T") && !StartsWithDate(TIME);
    ClockKeysNameNothing(Some("createTime"));
  }
}
