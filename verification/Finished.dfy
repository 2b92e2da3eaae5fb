/**
 * What a step finally records: `finish` puts the push origin's placeholder into every string of the
 * normalised value, and the replay compares the results. Finishing commutes with normalising, so the
 * two-run theorem carries over to recordings whose strings hold the origin of their own run.
 */
module Finished {
  import opened Text
  import opened Sorting
  import opened Json
  import opened Canonical
  import opened Registry
  import opened PubSub
  import opened TwoRuns
  import opened Recordings
  import opened TemplateText

  // ----- one string -----

  /** `split(origin).join("{{pushOrigin}}")`; an empty origin is left alone. */
  function FinishText(s: string, origin: string): string {
    Replace(s, origin, PUSH_ORIGIN, false, false)
  }

  lemma PlainReplace(s: string, raw: string, template: string, b: bool, c: bool)
    ensures Replace(s, raw, template, false, b) == Replace(s, raw, template, false, c)
  {
  }

  predicate At(s: string, origin: string) {
    origin != "" && StartsWith(s, origin)
  }

  lemma FinishStep(s: string, origin: string)
    requires s != ""
    ensures At(s, origin) ==> FinishText(s, origin) == PUSH_ORIGIN + FinishText(s[|origin|..], origin)
    ensures !At(s, origin) ==> FinishText(s, origin) == [s[0]] + FinishText(s[1..], origin)
  {
    if At(s, origin) {
      PlainReplace(s[|origin|..], origin, PUSH_ORIGIN, IsDigit(origin[|origin| - 1]), false);
    } else {
      PlainReplace(s[1..], origin, PUSH_ORIGIN, IsDigit(s[0]), false);
    }
  }

  lemma OccursLater(s: string, part: string)
    requires s != ""
    ensures Occurs(s[1..], part) ==> Occurs(s, part)
  {
    if Occurs(s[1..], part) {
      var i :| 0 <= i <= |s[1..]| && StartsWith(s[1..][i..], part);
      assert s[1..][i..] == s[i + 1..];
    }
  }

  /** Text in which the origin does not stand is kept. */
  lemma {:induction false} NothingToFinish(s: string, origin: string)
    requires origin == "" || !Occurs(s, origin)
    ensures FinishText(s, origin) == s
    decreases |s|
  {
    if s != "" {
      FinishStep(s, origin);
      assert s[0..] == s;
      OccursLater(s, origin);
      NothingToFinish(s[1..], origin);
      assert s == [s[0]] + s[1..];
    }
  }

  lemma StartsBeforeAt(s: string, tail: string, origin: string)
    requires '@' !in origin
    ensures At(s + "@" + tail, origin) <==> At(s, origin)
  {
    var u := s + "@" + tail;
    assert forall i :: 0 <= i < |origin| ==> origin[i] in origin;
    if |origin| <= |s| {
      assert u[..|origin|] == s[..|origin|];
    } else if |origin| <= |u| {
      assert u[..|origin|][|s|] == '@';
    }
  }

  /** An origin without `@` is replaced on both sides of an `@` separately. */
  lemma {:induction false} FinishAroundAt(s: string, tail: string, origin: string)
    requires '@' !in origin
    ensures FinishText(s + "@" + tail, origin) == FinishText(s, origin) + "@" + FinishText(tail, origin)
    decreases |s|
  {
    var u := s + "@" + tail;
    FinishStep(u, origin);
    StartsBeforeAt(s, tail, origin);
    if s == "" {
      assert u[1..] == tail && u[0] == '@';
      assert FinishText(s, origin) == "";
      assert !At(s, origin);
    } else {
      FinishStep(s, origin);
      var k := if At(s, origin) then |origin| else 1;
      var head := if At(s, origin) then PUSH_ORIGIN else [s[0]];
      assert u[k..] == s[k..] + "@" + tail && u[0] == s[0];
      FinishAroundAt(s[k..], tail, origin);
      assert FinishText(s, origin) == head + FinishText(s[k..], origin);
      ThreeParts(head, FinishText(s[k..], origin), "@", FinishText(tail, origin));
    }
  }

  lemma ThreeParts(a: string, b: string, c: string, d: string)
    ensures a + (b + c + d) == a + b + c + d
  {
  }

  /** Text as short as a clock placeholder shows no replacement. */
  lemma {:induction false} ShortIsKept(s: string, origin: string)
    requires |FinishText(s, origin)| < |PUSH_ORIGIN|
    ensures FinishText(s, origin) == s
    decreases |s|
  {
    if s != "" {
      FinishStep(s, origin);
      ShortIsKept(s[1..], origin);
      assert s == [s[0]] + s[1..];
    }
  }

  lemma FinishOpens(s: string, origin: string)
    requires s != "" && At(s, origin)
    ensures FinishText(s, origin) != "" && FinishText(s, origin)[0] == '{'
  {
    FinishStep(s, origin);
  }

  /** Up to the first brace of the finished text nothing was replaced. */
  lemma {:induction false} PlainPrefixKept(s: string, origin: string, n: nat)
    requires n <= |FinishText(s, origin)| && '{' !in FinishText(s, origin)[..n]
    ensures n <= |s| && FinishText(s, origin)[..n] == s[..n]
    decreases n
  {
    if n > 0 {
      var f := FinishText(s, origin);
      assert f[..n][0] == f[0];
      assert s != "";
      FinishStep(s, origin);
      if At(s, origin) {
        FinishOpens(s, origin);
        assert false;
      }
      var g := FinishText(s[1..], origin);
      assert f == [s[0]] + g;
      assert g[..n - 1] == f[..n][1..];
      PlainPrefixKept(s[1..], origin, n - 1);
      assert f[..n] == [s[0]] + g[..n - 1] && s[..n] == [s[0]] + s[1..][..n - 1];
    }
  }

  lemma NoNewDate(s: string, origin: string)
    requires StartsWithDate(FinishText(s, origin))
    ensures StartsWithDate(s)
  {
    var f := FinishText(s, origin);
    assert forall i :: 0 <= i < 11 ==> f[..11][i] == f[i];
    PlainPrefixKept(s, origin, 11);
    assert forall i :: 0 <= i < 11 ==> f[..11][i] == s[..11][i];
  }

  // ----- whole values -----

  function Finish(v: Value, origin: string): Value
    decreases v, 1
  {
    match v
    case Str(s) => Str(FinishText(s, origin))
    case Arr(items) => Arr(FinishItems(items, origin))
    case Obj(entries) => Obj(seq(|entries|, i requires 0 <= i < |entries| => FinishEntry(entries[i], origin)))
    case _ => v
  }

  function FinishItems(items: seq<Value>, origin: string): (r: seq<Value>)
    ensures |r| == |items|
    decreases items, 0
  {
    seq(|items|, i requires 0 <= i < |items| => Finish(items[i], origin))
  }

  function FinishEntry(e: (string, Value), origin: string): (string, Value)
    decreases e, 2
  {
    (e.0, Finish(e.1, origin))
  }

  function FinishEntries(entries: seq<(string, Value)>, origin: string): (r: seq<(string, Value)>)
    ensures |r| == |entries|
  {
    seq(|entries|, i requires 0 <= i < |entries| => FinishEntry(entries[i], origin))
  }

  // ----- the raw value with the origin taken out of its ordinary strings -----

  function PortableText(s: string, origin: string, key: Key): string {
    if KeyKind(key).Some? && s != "" then s
    else if CarriesRevision(s, key) then FinishText(BeforeAt(s), origin) + "@" + AfterAt(s)
    else FinishText(s, origin)
  }

  /** Ids and clock values stay; every other string has the origin replaced. */
  function Portable(v: Value, origin: string, key: Key): Value
    decreases v, 1
  {
    if Blanked(v, key) then v
    else match v
      case Str(s) => Str(PortableText(s, origin, key))
      case Arr(items) => Arr(PortableItems(items, origin, key))
      case Obj(entries) => Obj(seq(|entries|, i requires 0 <= i < |entries| => PortableEntry(entries[i], origin)))
      case _ => v
  }

  function PortableItems(items: seq<Value>, origin: string, key: Key): (r: seq<Value>)
    ensures |r| == |items|
    decreases items, 0
  {
    if ArrayKind(key).Some? then seq(|items|, i requires 0 <= i < |items| => PortableId(items[i], origin))
    else seq(|items|, i requires 0 <= i < |items| => Portable(items[i], origin, None))
  }

  function PortableId(v: Value, origin: string): Value {
    if IsId(v) then v else Finish(v, origin)
  }

  function PortableEntry(e: (string, Value), origin: string): (string, Value)
    decreases e, 2
  {
    (e.0, Portable(e.1, origin, Some(e.0)))
  }

  function PortableEntries(entries: seq<(string, Value)>, origin: string): (r: seq<(string, Value)>)
    ensures |r| == |entries|
  {
    seq(|entries|, i requires 0 <= i < |entries| => PortableEntry(entries[i], origin))
  }

  // ----- finishing leaves the registry's names alone -----

  ghost predicate Untouched(t: string, origin: string) {
    FinishText(t, origin) == t
  }

  const ID_KINDS: set<string> := {"messageId", "ackId", "revisionId"}

  const PLACEHOLDERS: set<string> := {TIME, PUSH_ORIGIN}

  lemma KindsAreIdKinds(key: Key)
    ensures KeyKind(key).Some? ==> KeyKind(key).value in ID_KINDS
    ensures ArrayKind(key).Some? ==> ArrayKind(key).value in ID_KINDS
  {
  }

  /** The origin holds no `@` and stands in no placeholder or name that a run over these steps can give out. */
  ghost predicate Apart(origin: string, steps: set<string>) {
    && '@' !in origin && (forall t :: t in PLACEHOLDERS ==> Untouched(t, origin))
    && forall kind, step, n: nat :: kind in ID_KINDS && step in steps && n >= 1 ==>
         Untouched(Template(kind, step, n), origin)
  }

  ghost predicate NamesUntouched(names: Names, origin: string) {
    forall raw :: raw in names.templates ==> Untouched(names.templates[raw], origin)
  }

  lemma RegisterUntouched(names: Names, kind: string, step: string, raw: string, origin: string, steps: set<string>)
    requires Apart(origin, steps) && NamesUntouched(names, origin) && kind in ID_KINDS && step in steps
    ensures NamesUntouched(Registered(names, kind, step, raw).0, origin)
    ensures Untouched(Registered(names, kind, step, raw).1, origin)
  {
    var n := NextCount(names, kind, step);
    NamedUntouched(names, Template(kind, step, n), CounterKey(kind, step), n, raw, origin);
  }

  lemma NamedUntouched(names: Names, template: string, key: string, n: nat, raw: string, origin: string)
    requires NamesUntouched(names, origin) && Untouched(template, origin)
    ensures NamesUntouched(Named(names, template, key, n, raw).0, origin)
    ensures Untouched(Named(names, template, key, n, raw).1, origin)
  {
  }

  // ----- the kinds of strings survive -----

  lemma NotBlanked(v: Value, origin: string, key: Key)
    requires !Blanked(v, key)
    ensures !Blanked(Portable(v, origin, key), key)
  {
    if v.Str? {
      if Blanked(Portable(v, origin, key), key) {
        ClockKeysNameNothing(key);
        NoNewDate(v.text, origin);
        assert false;
      }
    } else if v.Obj? {
      SameTimeShape(v.entries, origin);
      assert Portable(v, origin, key) == Obj(PortableEntries(v.entries, origin));
    }
  }

  lemma SameTimeShape(entries: seq<(string, Value)>, origin: string)
    ensures IsTimeLike(Obj(PortableEntries(entries, origin))) <==> IsTimeLike(Obj(entries))
  {
    var ps := PortableEntries(entries, origin);
    assert forall i :: 0 <= i < |entries| ==> ps[i].0 == entries[i].0;
  }

  lemma {:induction false} NoAtAppears(s: string, origin: string)
    requires '@' !in s
    ensures '@' !in FinishText(s, origin)
    decreases |s|
  {
    if s != "" {
      FinishStep(s, origin);
      if At(s, origin) {
        NoAtAppears(s[|origin|..], origin);
      } else {
        NoAtAppears(s[1..], origin);
      }
    }
  }

  lemma AtHoldsFirst(s: string, origin: string)
    requires s != "" && At(s, origin)
    ensures s[0] in origin
  {
    assert origin == s[..|origin|] && origin[0] == s[0];
  }

  lemma AtStaysFirst(s: string, origin: string)
    requires '@' !in origin && s != "" && s[0] == '@'
    ensures FinishText(s, origin) != "" && FinishText(s, origin)[0] == '@'
  {
    if At(s, origin) {
      AtHoldsFirst(s, origin);
      assert false;
    }
    FinishStep(s, origin);
  }

  /** A name without a revision gains none. */
  lemma NoNewRevision(s: string, origin: string, key: Key)
    requires '@' !in origin && !CarriesRevision(s, key)
    ensures !CarriesRevision(FinishText(s, origin), key)
  {
    if key == Some("name") {
      if '@' in s {
        BeforeAfter(s);
        var a := AfterAt(s);
        FinishAroundAt(BeforeAt(s), a, origin);
        NoAtAppears(BeforeAt(s), origin);
        AfterFirstAt(FinishText(BeforeAt(s), origin), FinishText(a, origin));
        if a != "" {
          AtStaysFirst(a, origin);
        }
      } else {
        NoAtAppears(s, origin);
      }
    }
  }

  lemma IdCommutes(s: string, step: string, names: Names, key: Key, origin: string)
    requires NamesUntouched(names, origin) && KeyKind(key).Some? && s != ""
    requires var (after, t) := Registered(names, KeyKind(key).value, step, s);
      Untouched(t, origin) && NamesUntouched(after, origin)
    ensures TextAgrees(s, step, names, key, origin)
  {
    var (after, t) := Registered(names, KeyKind(key).value, step, s);
    assert PortableText(s, origin, key) == s;
    assert NormalizeText(s, step, names, key) == (Str(t), after);
    assert Finish(Str(t), origin) == Str(t);
  }

  lemma RevisionCommutes(s: string, step: string, names: Names, key: Key, origin: string)
    requires '@' !in origin && NamesUntouched(names, origin) && KeyKind(key).None? && CarriesRevision(s, key)
    requires var (after, t) := Registered(names, "revisionId", step, Revision(s));
      Untouched(t, origin) && NamesUntouched(after, origin)
    ensures TextAgrees(s, step, names, key, origin)
  {
    var (after, t) := Registered(names, "revisionId", step, Revision(s));
    FinishAroundAt(BeforeAt(s), t, origin);
    var base := FinishText(BeforeAt(s), origin);
    NoAtAppears(BeforeAt(s), origin);
    AfterFirstAt(base, AfterAt(s));
    RevisionText(s, base, step, names, key);
    assert PortableText(s, origin, key) == base + "@" + AfterAt(s);
    assert NormalizeText(s, step, names, key) == (Str(BeforeAt(s) + "@" + t), after);
  }

  /** Changing what stands before the `@` changes only that in the result. */
  lemma RevisionText(s: string, base: string, step: string, names: Names, key: Key)
    requires KeyKind(key).None? && CarriesRevision(s, key)
    requires var u := base + "@" + AfterAt(s); '@' in u && BeforeAt(u) == base && AfterAt(u) == AfterAt(s)
    ensures var (after, t) := Registered(names, "revisionId", step, Revision(s));
      NormalizeText(base + "@" + AfterAt(s), step, names, key) == (Str(base + "@" + t), after)
  {
  }

  /** Normalising the portable text is finishing the normalised text, with the same registry after it. */
  ghost predicate TextAgrees(s: string, step: string, names: Names, key: Key, origin: string) {
    var (out, after) := NormalizeText(s, step, names, key);
    && NormalizeText(PortableText(s, origin, key), step, names, key) == (Finish(out, origin), after)
    && NamesUntouched(after, origin)
  }

  lemma PlainCommutes(s: string, step: string, names: Names, key: Key, origin: string)
    requires '@' !in origin && NamesUntouched(names, origin)
    requires !CarriesRevision(s, key) && (KeyKind(key).None? || s == "")
    ensures TextAgrees(s, step, names, key, origin)
  {
    NoNewRevision(s, origin, key);
    assert s == "" ==> FinishText(s, origin) == "";
    assert NormalizeText(s, step, names, key) == (Str(s), names);
  }

  lemma TextCommutes(s: string, step: string, names: Names, key: Key, origin: string, steps: set<string>)
    requires Apart(origin, steps) && NamesUntouched(names, origin) && step in steps
    ensures TextAgrees(s, step, names, key, origin)
  {
    KindsAreIdKinds(key);
    if KeyKind(key).Some? && s != "" {
      RegisterUntouched(names, KeyKind(key).value, step, s, origin, steps);
      IdCommutes(s, step, names, key, origin);
    } else if CarriesRevision(s, key) {
      RegisterUntouched(names, "revisionId", step, Revision(s), origin, steps);
      RevisionCommutes(s, step, names, key, origin);
    } else {
      PlainCommutes(s, step, names, key, origin);
    }
  }

  // ----- finishing commutes with the walk -----

  ghost predicate Agrees(v: Value, step: string, names: Names, key: Key, origin: string) {
    var (out, after) := Normalize(v, step, names, key);
    && Normalize(Portable(v, origin, key), step, names, key) == (Finish(out, origin), after)
    && NamesUntouched(after, origin)
  }

  ghost predicate ItemsAgree(portable: seq<Value>, items: seq<Value>, step: string, names: Names, origin: string) {
    var (out, after) := NormalizeItems(items, step, names);
    && NormalizeItems(portable, step, names) == (FinishItems(out, origin), after)
    && NamesUntouched(after, origin)
  }

  ghost predicate IdsAgree(portable: seq<Value>, items: seq<Value>, kind: string, step: string, names: Names,
                           origin: string) {
    var (out, after) := NormalizeIds(items, kind, step, names);
    && NormalizeIds(portable, kind, step, names) == (FinishItems(out, origin), after)
    && NamesUntouched(after, origin)
  }

  ghost predicate EntriesAgree(entries: seq<(string, Value)>, step: string, names: Names, origin: string) {
    var (out, after) := NormalizeEntries(entries, step, names);
    && NormalizeEntries(PortableEntries(entries, origin), step, names) == (FinishEntries(out, origin), after)
    && NamesUntouched(after, origin)
  }

  lemma FinishItemsCons(x: Value, xs: seq<Value>, origin: string)
    ensures FinishItems([x] + xs, origin) == [Finish(x, origin)] + FinishItems(xs, origin)
  {
  }

  lemma FinishEntriesCons(x: (string, Value), xs: seq<(string, Value)>, origin: string)
    ensures FinishEntries([x] + xs, origin) == [FinishEntry(x, origin)] + FinishEntries(xs, origin)
  {
  }

  lemma IdAgrees(x: Value, kind: string, step: string, names: Names, origin: string, steps: set<string>)
    requires Apart(origin, steps) && NamesUntouched(names, origin) && step in steps && kind in ID_KINDS
    ensures var (out, after) := NormalizeId(x, kind, step, names);
      && NormalizeId(PortableId(x, origin), kind, step, names) == (Finish(out, origin), after)
      && NamesUntouched(after, origin)
  {
    if IsId(x) {
      RegisterUntouched(names, kind, step, x.text, origin, steps);
    } else if x.Str? {
      assert FinishText("", origin) == "";
    }
  }

  ghost predicate IdsPortable(portable: seq<Value>, items: seq<Value>, origin: string) {
    |portable| == |items| && forall i :: 0 <= i < |items| ==> portable[i] == PortableId(items[i], origin)
  }

  ghost predicate AllPortable(portable: seq<Value>, items: seq<Value>, origin: string) {
    |portable| == |items| && forall i :: 0 <= i < |items| ==> portable[i] == Portable(items[i], origin, None)
  }

  lemma AllPortableTail(portable: seq<Value>, items: seq<Value>, origin: string)
    requires items != [] && AllPortable(portable, items, origin)
    ensures portable[0] == Portable(items[0], origin, None) && AllPortable(portable[1..], items[1..], origin)
  {
  }

  lemma ItemsPortable(items: seq<Value>, origin: string, key: Key)
    ensures ArrayKind(key).Some? ==> IdsPortable(PortableItems(items, origin, key), items, origin)
    ensures ArrayKind(key).None? ==> AllPortable(PortableItems(items, origin, key), items, origin)
  {
  }

  lemma {:induction false} IdsCommute(portable: seq<Value>, items: seq<Value>, kind: string, step: string, names: Names,
                                      origin: string, steps: set<string>)
    requires Apart(origin, steps) && NamesUntouched(names, origin) && step in steps && kind in ID_KINDS
    requires IdsPortable(portable, items, origin)
    ensures IdsAgree(portable, items, kind, step, names, origin)
    decreases |items|
  {
    if items != [] {
      IdAgrees(items[0], kind, step, names, origin, steps);
      var (h, n1) := NormalizeId(items[0], kind, step, names);
      IdsCommute(portable[1..], items[1..], kind, step, n1, origin, steps);
      FinishItemsCons(h, NormalizeIds(items[1..], kind, step, n1).0, origin);
    }
  }

  lemma PortableSplit(xs: seq<(string, Value)>, origin: string)
    requires xs != []
    ensures var ps := PortableEntries(xs, origin);
      ps[0] == PortableEntry(xs[0], origin) && ps[0].0 == xs[0].0 && ps[1..] == PortableEntries(xs[1..], origin)
  {
  }

  /** Sorting looks at keys only. */
  lemma SortPortable(s: seq<(string, Value)>, origin: string)
    ensures SortPairs(PortableEntries(s, origin)) == PortableEntries(SortPairs(s), origin)
  {
    var f := (e: (string, Value)) => Portable(e.1, origin, Some(e.0));
    SortMapped(s, f);
    assert PortableEntries(s, origin) == Mapped(s, f);
    assert PortableEntries(SortPairs(s), origin) == Mapped(SortPairs(s), f);
  }

  ghost predicate ListAgrees(items: seq<Value>, step: string, names: Names, key: Key, origin: string) {
    var (out, after) := NormalizeList(items, step, names, key);
    && NormalizeList(PortableItems(items, origin, key), step, names, key) == (FinishItems(out, origin), after)
    && NamesUntouched(after, origin)
  }

  lemma BlankedAgrees(v: Value, step: string, names: Names, key: Key, origin: string)
    requires NamesUntouched(names, origin) && Blanked(v, key) && Untouched(TIME, origin)
    ensures Agrees(v, step, names, key, origin)
  {
    assert Normalize(v, step, names, key) == (Str(TIME), names);
    assert Portable(v, origin, key) == v;
  }

  lemma TextValueAgrees(s: string, step: string, names: Names, key: Key, origin: string)
    requires !Blanked(Str(s), key) && !Blanked(Portable(Str(s), origin, key), key)
    requires TextAgrees(s, step, names, key, origin)
    ensures Agrees(Str(s), step, names, key, origin)
  {
  }

  lemma ArrayAgrees(items: seq<Value>, step: string, names: Names, key: Key, origin: string)
    requires !Blanked(Arr(items), key) && ListAgrees(items, step, names, key, origin)
    ensures Agrees(Arr(items), step, names, key, origin)
  {
    var (out, after) := NormalizeList(items, step, names, key);
    assert Normalize(Arr(items), step, names, key) == (Arr(out), after);
    assert Portable(Arr(items), origin, key) == Arr(PortableItems(items, origin, key));
  }

  lemma ObjectAgrees(entries: seq<(string, Value)>, step: string, names: Names, key: Key, origin: string)
    requires !Blanked(Obj(entries), key) && !Blanked(Portable(Obj(entries), origin, key), key)
    requires EntriesAgree(SortPairs(entries), step, names, origin)
    ensures Agrees(Obj(entries), step, names, key, origin)
  {
    SortPortable(entries, origin);
    var (out, after) := NormalizeEntries(SortPairs(entries), step, names);
    assert Normalize(Obj(entries), step, names, key) == (Obj(out), after);
    assert Portable(Obj(entries), origin, key) == Obj(PortableEntries(entries, origin));
    assert Finish(Obj(out), origin) == Obj(FinishEntries(out, origin));
  }

  /** Normalising the portable value is finishing the normalised value, with the same registry after it. */
  lemma {:induction false} Commutes(v: Value, step: string, names: Names, key: Key, origin: string, steps: set<string>)
    requires Apart(origin, steps) && NamesUntouched(names, origin) && step in steps
    ensures Agrees(v, step, names, key, origin)
    decreases Size(v), 0, 1
  {
    if Blanked(v, key) {
      assert TIME in PLACEHOLDERS;
      BlankedAgrees(v, step, names, key, origin);
    } else {
      NotBlanked(v, origin, key);
      match v {
        case Str(s) =>
          TextCommutes(s, step, names, key, origin, steps);
          TextValueAgrees(s, step, names, key, origin);
        case Arr(items) =>
          ListCommutes(items, step, names, key, origin, steps);
          ArrayAgrees(items, step, names, key, origin);
        case Obj(entries) =>
          SizeSorted(entries);
          EntriesCommute(SortPairs(entries), step, names, origin, steps);
          ObjectAgrees(entries, step, names, key, origin);
        case _ =>
      }
    }
  }

  lemma {:induction false} ListCommutes(items: seq<Value>, step: string, names: Names, key: Key, origin: string,
                                        steps: set<string>)
    requires Apart(origin, steps) && NamesUntouched(names, origin) && step in steps
    ensures ListAgrees(items, step, names, key, origin)
    decreases SizeItems(items), |items|, 1
  {
    KindsAreIdKinds(key);
    ItemsPortable(items, origin, key);
    if ArrayKind(key).Some? {
      IdsCommute(PortableItems(items, origin, key), items, ArrayKind(key).value, step, names, origin, steps);
      IdListAgrees(items, step, names, key, origin, PortableItems(items, origin, key), ArrayKind(key).value);
    } else {
      ItemsCommute(PortableItems(items, origin, key), items, step, names, origin, steps);
      PlainListAgrees(items, step, names, key, origin, PortableItems(items, origin, key));
    }
  }

  lemma IdListAgrees(items: seq<Value>, step: string, names: Names, key: Key, origin: string, portable: seq<Value>,
                     kind: string)
    requires ArrayKind(key) == Some(kind) && portable == PortableItems(items, origin, key)
    requires IdsAgree(portable, items, kind, step, names, origin)
    ensures ListAgrees(items, step, names, key, origin)
  {
    assert NormalizeList(items, step, names, key) == NormalizeIds(items, kind, step, names);
    assert NormalizeList(portable, step, names, key) == NormalizeIds(portable, kind, step, names);
  }

  lemma PlainListAgrees(items: seq<Value>, step: string, names: Names, key: Key, origin: string, portable: seq<Value>)
    requires ArrayKind(key).None? && portable == PortableItems(items, origin, key)
    requires ItemsAgree(portable, items, step, names, origin)
    ensures ListAgrees(items, step, names, key, origin)
  {
    assert NormalizeList(items, step, names, key) == NormalizeItems(items, step, names);
    assert NormalizeList(portable, step, names, key) == NormalizeItems(portable, step, names);
  }

  lemma {:induction false} ItemsCommute(portable: seq<Value>, items: seq<Value>, step: string, names: Names,
                                        origin: string, steps: set<string>)
    requires Apart(origin, steps) && NamesUntouched(names, origin) && step in steps
    requires AllPortable(portable, items, origin)
    ensures ItemsAgree(portable, items, step, names, origin)
    decreases SizeItems(items), |items|, 0
  {
    if items != [] {
      Commutes(items[0], step, names, None, origin, steps);
      AllPortableTail(portable, items, origin);
      ItemsCommute(portable[1..], items[1..], step, Normalize(items[0], step, names, None).1, origin, steps);
      ItemsAgreeCons(portable, items, step, names, origin);
    }
  }

  lemma ItemsAgreeCons(portable: seq<Value>, items: seq<Value>, step: string, names: Names, origin: string)
    requires items != [] && portable != [] && portable[0] == Portable(items[0], origin, None)
    requires Agrees(items[0], step, names, None, origin)
    requires ItemsAgree(portable[1..], items[1..], step, Normalize(items[0], step, names, None).1, origin)
    ensures ItemsAgree(portable, items, step, names, origin)
  {
    var (h, n1) := Normalize(items[0], step, names, None);
    var (t, n2) := NormalizeItems(items[1..], step, n1);
    assert NormalizeItems(items, step, names) == ([h] + t, n2);
    FinishItemsCons(h, t, origin);
  }

  lemma EntriesAgreeCons(entries: seq<(string, Value)>, step: string, names: Names, origin: string)
    requires entries != [] && Agrees(entries[0].1, step, names, Some(entries[0].0), origin)
    requires EntriesAgree(entries[1..], step, Normalize(entries[0].1, step, names, Some(entries[0].0)).1, origin)
    ensures EntriesAgree(entries, step, names, origin)
  {
    var e := entries[0];
    var (h, n1) := Normalize(e.1, step, names, Some(e.0));
    var (t, n2) := NormalizeEntries(entries[1..], step, n1);
    PortableSplit(entries, origin);
    assert NormalizeEntries(entries, step, names) == ([(e.0, h)] + t, n2);
    FinishEntriesCons((e.0, h), t, origin);
  }

  lemma {:induction false} EntriesCommute(entries: seq<(string, Value)>, step: string, names: Names, origin: string,
                                          steps: set<string>)
    requires Apart(origin, steps) && NamesUntouched(names, origin) && step in steps
    ensures EntriesAgree(entries, step, names, origin)
    decreases SizeEntries(entries), |entries|, 0
  {
    if entries != [] {
      assert SizeEntry(entries[0]) == Size(entries[0].1);
      Commutes(entries[0].1, step, names, Some(entries[0].0), origin, steps);
      var n1 := Normalize(entries[0].1, step, names, Some(entries[0].0)).1;
      EntriesCommute(entries[1..], step, n1, origin, steps);
      EntriesAgreeCons(entries, step, names, origin);
    } else {
      assert FinishEntries([], origin) == [];
    }
  }

  // ----- whole recordings -----

  /** What a run records: the normalised steps with the run's own origin finished. */
  function Recorded(run: Recording, origin: string): seq<Value> {
    FinishItems(NormalizeAll(run, Start(origin)).0, origin)
  }

  function PortableRun(run: Recording, origin: string): (r: Recording)
    ensures |r| == |run|
  {
    seq(|run|, i requires 0 <= i < |run| => (run[i].0, Portable(run[i].1, origin, None)))
  }

  ghost predicate RunAgrees(run: Recording, names: Names, origin: string) {
    && NormalizeAll(PortableRun(run, origin), names).0 == FinishItems(NormalizeAll(run, names).0, origin)
  }

  lemma RunAgreesCons(run: Recording, names: Names, origin: string)
    requires run != [] && Agrees(run[0].1, run[0].0, names, None, origin)
    requires RunAgrees(run[1..], Normalize(run[0].1, run[0].0, names, None).1, origin)
    ensures RunAgrees(run, names, origin)
  {
    var (h, n1) := Normalize(run[0].1, run[0].0, names, None);
    var portable := PortableRun(run, origin);
    assert portable[0] == (run[0].0, Portable(run[0].1, origin, None)) &&
      portable[1..] == PortableRun(run[1..], origin);
    assert NormalizeAll(run, names).0 == [h] + NormalizeAll(run[1..], n1).0;
    FinishItemsCons(h, NormalizeAll(run[1..], n1).0, origin);
  }

  lemma {:induction false} RunCommutes(run: Recording, names: Names, origin: string, steps: set<string>)
    requires Apart(origin, steps) && NamesUntouched(names, origin)
    requires forall i :: 0 <= i < |run| ==> run[i].0 in steps
    ensures RunAgrees(run, names, origin)
    decreases |run|
  {
    if run != [] {
      Commutes(run[0].1, run[0].0, names, None, origin, steps);
      RunCommutes(run[1..], Normalize(run[0].1, run[0].0, names, None).1, origin, steps);
      RunAgreesCons(run, names, origin);
    }
  }

  // ----- portable values keep the conditions of the theorem -----

  lemma {:induction false} FinishWellFormed(v: Value, origin: string)
    requires WellFormed(v)
    ensures WellFormed(Finish(v, origin))
    decreases v
  {
    match v {
      case Arr(items) =>
        forall i | 0 <= i < |items|
          ensures WellFormed(Finish(items[i], origin))
        {
          FinishWellFormed(items[i], origin);
        }
      case Obj(entries) =>
        var out := Finish(v, origin).entries;
        forall i | 0 <= i < |entries|
          ensures WellFormed(out[i].1) && out[i].0 == entries[i].0
        {
          assert out[i] == FinishEntry(entries[i], origin);
          FinishWellFormed(entries[i].1, origin);
        }
      case _ =>
    }
  }

  lemma {:induction false} PortableWellFormed(v: Value, origin: string, key: Key)
    requires WellFormed(v)
    ensures WellFormed(Portable(v, origin, key))
    decreases v
  {
    if !Blanked(v, key) {
      match v {
        case Arr(items) =>
          var out := PortableItems(items, origin, key);
          forall i | 0 <= i < |items|
            ensures WellFormed(out[i])
          {
            FinishWellFormed(items[i], origin);
            PortableWellFormed(items[i], origin, None);
          }
        case Obj(entries) =>
          var out := Portable(v, origin, key).entries;
          forall i | 0 <= i < |entries|
            ensures WellFormed(out[i].1) && out[i].0 == entries[i].0
          {
            assert out[i] == PortableEntry(entries[i], origin);
            PortableWellFormed(entries[i].1, origin, Some(entries[i].0));
          }
        case _ =>
      }
    }
  }

  lemma CleanText(s: string, origin: string, key: Key)
    requires Clean(Str(s), key)
    ensures Clean(Str(PortableText(s, origin, key)), key)
  {
    if ClockKey(key) {
      ClockKeysNameNothing(key);
      if |FinishText(s, origin)| < |PUSH_ORIGIN| {
        ShortIsKept(s, origin);
      }
    }
  }

  lemma {:induction false} PortableClean(v: Value, origin: string, key: Key)
    requires Clean(v, key)
    ensures Clean(Portable(v, origin, key), key)
    decreases v
  {
    if !Blanked(v, key) {
      match v {
        case Str(s) =>
          CleanText(s, origin, key);
        case Arr(items) =>
          if ArrayKind(key).None? {
            forall i | 0 <= i < |items|
              ensures Clean(PortableItems(items, origin, key)[i], None)
            {
              PortableClean(items[i], origin, None);
            }
          }
        case Obj(entries) =>
          var out := Portable(v, origin, key).entries;
          forall i | 0 <= i < |entries|
            ensures CleanEntry(out[i])
          {
            assert CleanEntry(entries[i]) && out[i] == PortableEntry(entries[i], origin);
            PortableClean(entries[i].1, origin, Some(entries[i].0));
          }
        case _ =>
      }
    }
  }

  lemma PortableProgram(a: Recording, b: Recording, originA: string, originB: string, steps: set<string>)
    requires SameProgram(a, b, steps)
    ensures SameProgram(PortableRun(a, originA), PortableRun(b, originB), steps)
  {
    forall i | 0 <= i < |a|
      ensures WellFormed(PortableRun(a, originA)[i].1) && WellFormed(PortableRun(b, originB)[i].1)
      ensures Clean(PortableRun(a, originA)[i].1, None) && Clean(PortableRun(b, originB)[i].1, None)
    {
      PortableWellFormed(a[i].1, originA, None);
      PortableWellFormed(b[i].1, originB, None);
      PortableClean(a[i].1, originA, None);
      PortableClean(b[i].1, originB, None);
    }
  }

  lemma StartUntouched(origin: string, steps: set<string>)
    requires Apart(origin, steps)
    ensures NamesUntouched(Start(origin), origin)
  {
    assert PUSH_ORIGIN in PLACEHOLDERS;
  }

  /**
   * What two runs of one program record compares equal exactly when some one-to-one renaming of ids,
   * which sends one push origin to the other, carries the first recording to the second once each
   * run's own origin is taken out of its ordinary strings.
   */
  lemma RecordedRunsCompareEqual(a: Recording, b: Recording, originA: string, originB: string, steps: set<string>)
    requires SameProgram(a, b, steps) && Apart(originA, steps) && Apart(originB, steps)
    ensures CompareEqual(Recorded(a, originA), Recorded(b, originB)) <==>
            exists rel :: Bijective(rel) && (originA, originB) in rel &&
                          Renamed(PortableRun(a, originA), PortableRun(b, originB), rel)
  {
    StartUntouched(originA, steps);
    StartUntouched(originB, steps);
    RunCommutes(a, Start(originA), originA, steps);
    RunCommutes(b, Start(originB), originB, steps);
    PortableProgram(a, b, originA, originB, steps);
    TwoRunsCompareEqual(PortableRun(a, originA), PortableRun(b, originB), originA, originB, steps);
  }

  // ----- origins as the harness has them -----

  lemma OccursHolds(t: string, part: string, c: char)
    requires Occurs(t, part) && c in part
    ensures c in t
  {
    var i :| 0 <= i <= |t| && StartsWith(t[i..], part);
    var k :| 0 <= k < |part| && part[k] == c;
    assert t[i..][..|part|][k] == t[i + k];
  }

  lemma UntouchedWithout(t: string, origin: string, c: char)
    requires c in origin && c !in t
    ensures Untouched(t, origin)
  {
    if Occurs(t, origin) {
      OccursHolds(t, origin, c);
      assert false;
    }
    NothingToFinish(t, origin);
  }

  lemma NoSlashInTemplate(kind: string, step: string, n: nat)
    requires '/' !in kind && '/' !in step
    ensures '/' !in Template(kind, step, n)
  {
    assert '/' !in Ordinal(n);
    assert '/' !in step + Ordinal(n);
    assert '/' !in kind + ":" + (step + Ordinal(n));
  }

  lemma PlaceholdersUntouched(origin: string)
    requires '/' in origin
    ensures forall t :: t in PLACEHOLDERS ==> Untouched(t, origin)
  {
    forall t | t in PLACEHOLDERS
      ensures Untouched(t, origin)
    {
      assert '/' !in TIME && '/' !in PUSH_ORIGIN;
      UntouchedWithout(t, origin, '/');
    }
  }

  lemma TemplateUntouched(kind: string, step: string, n: nat, origin: string)
    requires '/' in origin && kind in ID_KINDS && '/' !in step
    ensures Untouched(Template(kind, step, n), origin)
  {
    assert forall k :: k in ID_KINDS ==> '/' !in k;
    NoSlashInTemplate(kind, step, n);
    UntouchedWithout(Template(kind, step, n), origin, '/');
  }

  /** An origin with a slash and no `@`, as every URL origin is, is apart from steps without a slash. */
  lemma UrlOriginsAreApart(origin: string, steps: set<string>)
    requires '/' in origin && '@' !in origin && forall step :: step in steps ==> '/' !in step
    ensures Apart(origin, steps)
  {
    PlaceholdersUntouched(origin);
    forall kind, step, n: nat | kind in ID_KINDS && step in steps && n >= 1
      ensures Untouched(Template(kind, step, n), origin)
    {
      TemplateUntouched(kind, step, n, origin);
    }
  }

  // ----- what equal finished strings mean -----

  /** Puts an origin back for every placeholder. */
  function Resumed(s: string, origin: string): string {
    Replace(s, PUSH_ORIGIN, origin, false, false)
  }

  lemma ResumedStep(s: string, origin: string)
    requires s != ""
    ensures StartsWith(s, PUSH_ORIGIN) ==> Resumed(s, origin) == origin + Resumed(s[|PUSH_ORIGIN|..], origin)
    ensures !StartsWith(s, PUSH_ORIGIN) ==> Resumed(s, origin) == [s[0]] + Resumed(s[1..], origin)
  {
    if StartsWith(s, PUSH_ORIGIN) {
      PlainReplace(s[|PUSH_ORIGIN|..], PUSH_ORIGIN, origin, IsDigit(PUSH_ORIGIN[|PUSH_ORIGIN| - 1]), false);
    } else {
      PlainReplace(s[1..], PUSH_ORIGIN, origin, IsDigit(s[0]), false);
    }
  }

  /** The placeholder cannot begin inside itself, so the end of one is never made by replacing. */
  lemma {:induction false} NoSeam(s: string, origin: string, k: nat)
    requires 1 <= k <= |PUSH_ORIGIN| && StartsWith(FinishText(s, origin), PUSH_ORIGIN[k..])
    ensures StartsWith(s, PUSH_ORIGIN[k..])
    decreases |PUSH_ORIGIN| - k
  {
    if k < |PUSH_ORIGIN| {
      assert s != "";
      FinishStep(s, origin);
      if At(s, origin) {
        SeamBroken(FinishText(s, origin), k, FinishText(s[|origin|..], origin));
        assert false;
      }
      var rest := PUSH_ORIGIN[k..];
      StartsCons(s[0], FinishText(s[1..], origin), rest);
      assert rest[1..] == PUSH_ORIGIN[k + 1..];
      NoSeam(s[1..], origin, k + 1);
      StartsCons(s[0], s[1..], rest);
      assert s == [s[0]] + s[1..];
    }
  }

  lemma StartsCons(c: char, s: string, part: string)
    requires part != ""
    ensures StartsWith([c] + s, part) <==> part[0] == c && StartsWith(s, part[1..])
  {
    var u := [c] + s;
    if StartsWith(u, part) {
      assert part[1..] == u[..|part|][1..] == s[..|part| - 1] && part[0] == u[..|part|][0];
    }
    if part[0] == c && StartsWith(s, part[1..]) {
      assert part == [c] + part[1..] && u[..|part|] == [c] + s[..|part| - 1];
    }
  }

  lemma SeamBroken(f: string, k: nat, g: string)
    requires 1 <= k < |PUSH_ORIGIN| && f == PUSH_ORIGIN + g
    ensures !StartsWith(f, PUSH_ORIGIN[k..])
  {
    SameStart(f, PUSH_ORIGIN[k..]);
    assert PUSH_ORIGIN[0] == '{' && PUSH_ORIGIN[1] == '{';
    assert forall j :: 2 <= j < |PUSH_ORIGIN| ==> PUSH_ORIGIN[j] != '{';
  }

  lemma SameStart(f: string, rest: string)
    requires rest != ""
    ensures StartsWith(f, rest) ==> f[0] == rest[0] && (|rest| > 1 ==> f[1] == rest[1])
  {
    if StartsWith(f, rest) {
      assert forall i :: 0 <= i < |rest| ==> f[..|rest|][i] == f[i];
    }
  }

  /** Text without a literal placeholder is restored from its finished form. */
  lemma {:induction false} FinishRestores(s: string, origin: string)
    requires !Occurs(s, PUSH_ORIGIN)
    ensures Resumed(FinishText(s, origin), origin) == s
    decreases |s|
  {
    if s != "" {
      var f := FinishText(s, origin);
      FinishStep(s, origin);
      ResumedStep(f, origin);
      if At(s, origin) {
        var rest := s[|origin|..];
        OccursInTail(s, |origin|, PUSH_ORIGIN);
        FinishRestores(rest, origin);
        assert f[|PUSH_ORIGIN|..] == FinishText(rest, origin);
        assert s == origin + rest;
      } else {
        OccursInTail(s, 1, PUSH_ORIGIN);
        FinishRestores(s[1..], origin);
        assert s[0..] == s;
        if StartsWith(f, PUSH_ORIGIN) {
          PlaceholderWasThere(s, origin);
          assert false;
        }
        assert f[1..] == FinishText(s[1..], origin) && s == [s[0]] + s[1..];
      }
    }
  }

  lemma OccursInTail(s: string, k: nat, part: string)
    requires k <= |s| && !Occurs(s, part)
    ensures !Occurs(s[k..], part)
  {
    forall i | 0 <= i <= |s[k..]|
      ensures !StartsWith(s[k..][i..], part)
    {
      assert s[k..][i..] == s[k + i..];
    }
  }

  lemma PlaceholderWasThere(s: string, origin: string)
    requires s != "" && !At(s, origin) && StartsWith(FinishText(s, origin), PUSH_ORIGIN)
    ensures StartsWith(s, PUSH_ORIGIN)
  {
    FinishStep(s, origin);
    StartsCons(s[0], FinishText(s[1..], origin), PUSH_ORIGIN);
    NoSeam(s[1..], origin, 1);
    StartsCons(s[0], s[1..], PUSH_ORIGIN);
    assert s == [s[0]] + s[1..];
  }

  function OpeningBraces(s: string): nat {
    if s == "" then 0 else (if s[0] == '{' then 1 else 0) + OpeningBraces(s[1..])
  }

  lemma {:induction false} BracesAdd(s: string, t: string)
    ensures OpeningBraces(s + t) == OpeningBraces(s) + OpeningBraces(t)
  {
    if s == "" {
      assert s + t == t;
    } else {
      assert (s + t)[1..] == s[1..] + t;
      BracesAdd(s[1..], t);
    }
  }

  lemma {:induction false} NoBraces(s: string)
    requires '{' !in s
    ensures OpeningBraces(s) == 0
  {
    if s != "" {
      assert s[0] in s;
      NoBraces(s[1..]);
    }
  }

  lemma PlaceholderBraces()
    ensures OpeningBraces(PUSH_ORIGIN) == 2
  {
    var rest := PUSH_ORIGIN[2..];
    assert forall i :: 0 <= i < |rest| ==> rest[i] == PUSH_ORIGIN[i + 2] && rest[i] != '{';
    NoBraces(rest);
    assert PUSH_ORIGIN[0] == '{' && PUSH_ORIGIN[1] == '{' && PUSH_ORIGIN[1..][1..] == rest;
  }

  /** A placeholder cannot begin inside text without braces. */
  lemma OccursBehind(s: string, k: nat)
    requires k <= |s| && '{' !in s[..k] && Occurs(s, PUSH_ORIGIN)
    ensures Occurs(s[k..], PUSH_ORIGIN)
  {
    var i :| 0 <= i <= |s| && StartsWith(s[i..], PUSH_ORIGIN);
    assert s[i..][..|PUSH_ORIGIN|][0] == '{' == s[i];
    assert forall j :: 0 <= j < k ==> s[..k][j] == s[j] != '{';
    assert s[k..][i - k..] == s[i..];
  }

  /** An origin that can be told from the placeholder: free of braces and no part of it. */
  ghost predicate TellsApart(origin: string) {
    origin != "" && BraceFree(origin) && !Occurs(PUSH_ORIGIN, origin)
  }

  /** A literal placeholder is kept by finishing. */
  lemma FinishKeepsPlaceholder(s: string, origin: string)
    requires TellsApart(origin) && StartsWith(s, PUSH_ORIGIN)
    ensures FinishText(s, origin) == PUSH_ORIGIN + FinishText(s[|PUSH_ORIGIN|..], origin)
  {
    assert PUSH_ORIGIN[|PUSH_ORIGIN| - 1] == '}' && PUSH_ORIGIN[0..] == PUSH_ORIGIN;
    ReplaceSkipsTemplate(PUSH_ORIGIN, 0, s[|PUSH_ORIGIN|..], origin, PUSH_ORIGIN, false, false);
    assert s == PUSH_ORIGIN + s[|PUSH_ORIGIN|..];
  }

  /** Restoring puts an origin without braces in the place of each literal placeholder. */
  lemma {:induction false} PlaceholdersLoseBraces(s: string, origin: string)
    requires TellsApart(origin)
    ensures OpeningBraces(Resumed(FinishText(s, origin), origin)) <= OpeningBraces(s)
    ensures Occurs(s, PUSH_ORIGIN) ==> OpeningBraces(Resumed(FinishText(s, origin), origin)) < OpeningBraces(s)
    decreases |s|
  {
    if s == "" {
      assert FinishText(s, origin) == "" && Resumed("", origin) == "";
    } else if At(s, origin) {
      OriginLosesNone(s, origin);
    } else if StartsWith(s, PUSH_ORIGIN) {
      PlaceholderLosesTwo(s, origin);
    } else {
      CharacterKept(s, origin);
    }
  }

  lemma {:induction false} OriginLosesNone(s: string, origin: string)
    requires TellsApart(origin) && s != "" && At(s, origin)
    ensures OpeningBraces(Resumed(FinishText(s, origin), origin)) <= OpeningBraces(s)
    ensures Occurs(s, PUSH_ORIGIN) ==> OpeningBraces(Resumed(FinishText(s, origin), origin)) < OpeningBraces(s)
    decreases |s|, 0
  {
    var rest := s[|origin|..];
    var f := FinishText(s, origin);
    FinishStep(s, origin);
    ResumedStep(f, origin);
    assert f[|PUSH_ORIGIN|..] == FinishText(rest, origin);
    PlaceholdersLoseBraces(rest, origin);
    assert s == origin + rest && s[..|origin|] == origin;
    NoBraces(origin);
    BracesAdd(origin, rest);
    BracesAdd(origin, Resumed(FinishText(rest, origin), origin));
    if Occurs(s, PUSH_ORIGIN) {
      OccursBehind(s, |origin|);
    }
  }

  lemma {:induction false} PlaceholderLosesTwo(s: string, origin: string)
    requires TellsApart(origin) && StartsWith(s, PUSH_ORIGIN)
    ensures OpeningBraces(Resumed(FinishText(s, origin), origin)) < OpeningBraces(s)
    decreases |s|, 0
  {
    var rest := s[|PUSH_ORIGIN|..];
    var f := FinishText(s, origin);
    FinishKeepsPlaceholder(s, origin);
    ResumedStep(f, origin);
    assert f[|PUSH_ORIGIN|..] == FinishText(rest, origin);
    PlaceholdersLoseBraces(rest, origin);
    assert s == PUSH_ORIGIN + rest;
    PlaceholderBraces();
    NoBraces(origin);
    BracesAdd(PUSH_ORIGIN, rest);
    BracesAdd(origin, Resumed(FinishText(rest, origin), origin));
  }

  lemma {:induction false} CharacterKept(s: string, origin: string)
    requires TellsApart(origin) && s != "" && !At(s, origin) && !StartsWith(s, PUSH_ORIGIN)
    ensures OpeningBraces(Resumed(FinishText(s, origin), origin)) <= OpeningBraces(s)
    ensures Occurs(s, PUSH_ORIGIN) ==> OpeningBraces(Resumed(FinishText(s, origin), origin)) < OpeningBraces(s)
    decreases |s|, 0
  {
    var f := FinishText(s, origin);
    FinishStep(s, origin);
    if StartsWith(f, PUSH_ORIGIN) {
      PlaceholderWasThere(s, origin);
      assert false;
    }
    ResumedStep(f, origin);
    assert f[1..] == FinishText(s[1..], origin);
    PlaceholdersLoseBraces(s[1..], origin);
    if Occurs(s, PUSH_ORIGIN) {
      var i :| 0 <= i <= |s| && StartsWith(s[i..], PUSH_ORIGIN);
      assert i > 0 by {
        assert s[0..] == s;
      }
      assert s[1..][i - 1..] == s[i..];
    }
  }

  /** A string is restored from its finished form exactly when it holds no literal placeholder. */
  lemma FinishRestoresIff(s: string, origin: string)
    requires TellsApart(origin)
    ensures Resumed(FinishText(s, origin), origin) == s <==> !Occurs(s, PUSH_ORIGIN)
  {
    if Occurs(s, PUSH_ORIGIN) {
      PlaceholdersLoseBraces(s, origin);
    } else {
      FinishRestores(s, origin);
    }
  }

  /** Origins with a slash and without braces, as every URL origin is, can be told from the placeholder. */
  lemma UrlOriginsTellApart(origin: string)
    requires '/' in origin && BraceFree(origin)
    ensures TellsApart(origin)
  {
    assert '/' !in PUSH_ORIGIN;
    if Occurs(PUSH_ORIGIN, origin) {
      OccursWithin(PUSH_ORIGIN, origin, '/');
      assert false;
    }
  }

  lemma OccursWithin(s: string, part: string, c: char)
    requires Occurs(s, part) && c in part
    ensures c in s
  {
    var i :| 0 <= i <= |s| && StartsWith(s[i..], part);
    var k :| 0 <= k < |part| && part[k] == c;
    assert s[i..][..|part|][k] == s[i + k];
  }

  /** Strings without a literal placeholder that finish alike are one text with each run's origin in it. */
  lemma EqualFinishedText(a: string, b: string, originA: string, originB: string)
    requires !Occurs(a, PUSH_ORIGIN) && !Occurs(b, PUSH_ORIGIN)
    requires FinishText(a, originA) == FinishText(b, originB)
    ensures a == Resumed(FinishText(b, originB), originA) && b == Resumed(FinishText(a, originA), originB)
    ensures originA == originB ==> a == b
  {
    FinishRestores(a, originA);
    FinishRestores(b, originB);
  }

  /** A literal placeholder is confused with the origin it stands for. */
  lemma LiteralPlaceholderCollides(origin: string)
    requires origin != "" && origin != PUSH_ORIGIN && Untouched(PUSH_ORIGIN, origin)
    ensures FinishText(origin, origin) == FinishText(PUSH_ORIGIN, origin)
  {
    FinishStep(origin, origin);
    assert origin[..|origin|] == origin && origin[|origin|..] == "";
    assert FinishText("", origin) == "";
  }

  /** Endpoints that differ only in the origin of their run are recorded alike. */
  lemma EndpointsRecordAlike(originA: string, originB: string, path: string)
    requires originA != "" && originB != "" && !Occurs(path, originA) && !Occurs(path, originB)
    ensures FinishText(originA + path, originA) == FinishText(originB + path, originB) == PUSH_ORIGIN + path
  {
    FinishStep(originA + path, originA);
    FinishStep(originB + path, originB);
    assert (originA + path)[|originA|..] == path && (originB + path)[|originB|..] == path;
    NothingToFinish(path, originA);
    NothingToFinish(path, originB);
  }
}
