/**
 * The registry of run-dependent values. `register` names a raw value after the step that produced
 * it; the first name of a value stays canonical and later names resolve as aliases.
 */
module Registry {
  import opened Text

  /** raw value to template, template to raw value, and how many registrations each name had. */
  datatype Names = Names(templates: map<string, string>, values: map<string, string>, counters: map<string, nat>)

  const NO_NAMES := Names(map[], map[], map[])

  function CounterKey(kind: string, step: string): string {
    kind + ":" + step
  }

  /** The part of a template after the step name. */
  function Ordinal(count: nat): string {
    if count == 1 then "" else "#" + Decimal(count)
  }

  function Template(kind: string, step: string, count: nat): string {
    "{{" + (kind + ":" + (step + Ordinal(count))) + "}}"
  }

  function NextCount(names: Names, kind: string, step: string): (r: nat)
    ensures r >= 1
  {
    var k := CounterKey(kind, step);
    (if k in names.counters then names.counters[k] else 0) + 1
  }

  /** `register` of a value that is not left alone as a program constant. */
  function Registered(names: Names, kind: string, step: string, raw: string): (r: (Names, string)) {
    var count := NextCount(names, kind, step);
    Named(names, Template(kind, step, count), CounterKey(kind, step), count, raw)
  }

  /** Gives `raw` the name `template` unless it has one; the new name resolves either way. */
  function Named(names: Names, template: string, key: string, count: nat, raw: string): (r: (Names, string)) {
    var values := if template in names.values then names.values else names.values[template := raw];
    var counters := names.counters[key := count];
    if raw in names.templates && names.templates[raw] != ""
    then (Names(names.templates, values, counters), names.templates[raw])
    else (Names(names.templates[raw := template], values, counters), template)
  }

  function Bound(names: Names, template: string, raw: string): Names {
    names.(templates := names.templates[raw := template], values := names.values[template := raw])
  }

  /** The mutable registry of the harness. */
  class Registry {
    var templates: map<string, string>
    var values: map<string, string>
    var counters: map<string, nat>
    const constants: set<string>

    constructor (constants: set<string>)
      ensures State() == NO_NAMES && this.constants == constants
    {
      templates, values, counters := map[], map[], map[];
      this.constants := constants;
    }

    function State(): Names
      reads this
    {
      Names(templates, values, counters)
    }

    method Register(kind: string, step: string, raw: string, force: bool) returns (r: string)
      modifies this
      ensures !force && raw in constants ==> r == raw && State() == old(State())
      ensures force || raw !in constants ==> (State(), r) == Registered(old(State()), kind, step, raw)
    {
      if !force && raw in constants {
        return raw;
      }
      var counterKey := CounterKey(kind, step);
      var count := (if counterKey in counters then counters[counterKey] else 0) + 1;
      counters := counters[counterKey := count];
      var template := Template(kind, step, count);
      if template !in values {
        values := values[template := raw];
      }
      if raw in templates && templates[raw] != "" {
        return templates[raw];
      }
      templates := templates[raw := template];
      r := template;
    }

    method Bind(template: string, raw: string)
      modifies this
      ensures State() == Bound(old(State()), template, raw)
    {
      templates := templates[raw := template];
      values := values[template := raw];
    }
  }

  // ----- template names -----

  /** Two step names clash when one is the other followed by an ordinal such as `#2`. */
  ghost predicate Clash(steps: set<string>) {
    exists s, t, n: nat :: s in steps && t in steps && ClashAt(s, t, n)
  }

  predicate ClashAt(s: string, t: string, n: nat) {
    n >= 2 && t == s + "#" + Decimal(n)
  }

  lemma NoHashInDecimal(n: nat)
    ensures '#' !in Decimal(n)
  {
  }

  lemma OrdinalDecodes(s: string, m: nat, t: string, n: nat)
    requires m >= 1 && n >= 1
    requires s + Ordinal(m) == t + Ordinal(n)
    ensures (s == t && m == n) || ClashAt(s, t, m) || ClashAt(t, s, n)
  {
    Reassociate(s, "#", Decimal(m));
    Reassociate(t, "#", Decimal(n));
    assert s + "" == s && t + "" == t;
    if m > 1 && n > 1 {
      NoHashInDecimal(m);
      NoHashInDecimal(n);
      SplitLast(s, Decimal(m), t, Decimal(n), '#');
      DecimalInjective(m, n);
    }
  }

  /** A template name determines its kind, its step and its ordinal. */
  lemma TemplateDecodes(k: string, s: string, m: nat, l: string, t: string, n: nat, steps: set<string>)
    requires ':' !in k && ':' !in l && m >= 1 && n >= 1
    requires s in steps && t in steps && !Clash(steps)
    requires Template(k, s, m) == Template(l, t, n)
    ensures k == l && s == t && m == n
  {
    var x, y := k + ":" + (s + Ordinal(m)), l + ":" + (t + Ordinal(n));
    Cancel("{{" + x, "}}", "{{" + y, "}}");
    Cancel("{{", x, "{{", y);
    SplitFirst(k, s + Ordinal(m), l, t + Ordinal(n), ':');
    OrdinalDecodes(s, m, t, n);
  }

  lemma CounterKeyDecodes(k: string, s: string, l: string, t: string)
    requires ':' !in k && ':' !in l && CounterKey(k, s) == CounterKey(l, t)
    ensures k == l && s == t
  {
    SplitFirst(k, s, l, t, ':');
  }

  // ----- what every sequence of operations keeps -----

  /** `t` is the `n`-th name given for some kind and step, already counted. */
  ghost predicate NamedBy(t: string, names: Names, steps: set<string>, k: string, s: string, n: nat) {
    && ':' !in k && s in steps && t == Template(k, s, n)
    && CounterKey(k, s) in names.counters && 1 <= n <= names.counters[CounterKey(k, s)]
  }

  /** Names bound by hand (origins) carry no colon, so they are never a registered name. */
  ghost predicate Known(t: string, names: Names, steps: set<string>) {
    t != "" && (':' !in t || exists k, s, n: nat :: NamedBy(t, names, steps, k, s, n))
  }

  /** Every canonical template resolves to its raw value. */
  ghost predicate Resolves(names: Names) {
    forall raw :: raw in names.templates ==>
      names.templates[raw] in names.values && names.values[names.templates[raw]] == raw
  }

  /** Every name resolves to a value that has a canonical name. */
  ghost predicate Aliased(names: Names) {
    forall t :: t in names.values ==> names.values[t] in names.templates
  }

  ghost predicate Valid(names: Names, steps: set<string>) {
    && Resolves(names) && Aliased(names)
    && (forall t :: t in names.values ==> Known(t, names, steps))
  }

  /** A name and the canonical name of its value resolve to one value. */
  lemma AliasAgrees(names: Names, t: string)
    requires Resolves(names) && Aliased(names) && t in names.values
    ensures var canonical := names.templates[names.values[t]];
      canonical in names.values && names.values[canonical] == names.values[t]
  {
  }

  lemma TemplateHasColon(k: string, s: string, n: nat)
    ensures ':' in Template(k, s, n) && Template(k, s, n) != ""
  {
    var inner := s + Ordinal(n);
    assert (k + ":" + inner)[|k|] == ':';
    assert Template(k, s, n)[2 + |k|] == ':';
  }

  /** The next name was never used. */
  lemma NextNameIsFresh(names: Names, steps: set<string>, kind: string, step: string)
    requires Valid(names, steps) && !Clash(steps) && ':' !in kind && step in steps
    ensures Template(kind, step, NextCount(names, kind, step)) !in names.values
  {
    var n := NextCount(names, kind, step);
    var t := Template(kind, step, n);
    if t in names.values {
      TemplateHasColon(kind, step, n);
      assert Known(t, names, steps);
      var k, s, m: nat :| NamedBy(t, names, steps, k, s, m);
      TemplateDecodes(kind, step, n, k, s, m, steps);
      assert false;
    }
  }

  /** Counting up keeps every earlier name known. */
  lemma KnownGrows(t: string, names: Names, steps: set<string>, kind: string, step: string, raw: string)
    requires Known(t, names, steps) && ':' !in kind
    ensures Known(t, Registered(names, kind, step, raw).0, steps)
  {
    if ':' in t {
      var k, s, n: nat :| NamedBy(t, names, steps, k, s, n);
      assert NamedBy(t, Registered(names, kind, step, raw).0, steps, k, s, n);
    }
  }

  /** Registering keeps the invariant; the returned name and the new alias both resolve to the raw value. */
  lemma RegisterResolves(names: Names, steps: set<string>, kind: string, step: string, raw: string)
    requires Valid(names, steps) && !Clash(steps) && ':' !in kind && step in steps
    ensures var (after, r) := Registered(names, kind, step, raw);
      var alias := Template(kind, step, NextCount(names, kind, step));
      && Valid(after, steps)
      && r in after.values && after.values[r] == raw
      && alias in after.values && after.values[alias] == raw
      && (raw in names.templates ==> r == names.templates[raw])
      && raw in after.templates && after.templates[raw] == r
  {
    var (after, r) := Registered(names, kind, step, raw);
    var n := NextCount(names, kind, step);
    var alias := Template(kind, step, n);
    NextNameIsFresh(names, steps, kind, step);
    TemplateHasColon(kind, step, n);
    assert NamedBy(alias, after, steps, kind, step, n);
    forall t | t in after.values
      ensures Known(t, after, steps)
    {
      if t != alias {
        KnownGrows(t, names, steps, kind, step, raw);
      }
    }
    assert raw in names.templates ==> names.templates[raw] != "" by {
      assert raw in names.templates ==> Known(names.templates[raw], names, steps);
    }
  }

  /** One call on the registry. */
  datatype Call = CallRegister(kind: string, step: string, raw: string) | CallBind(template: string, raw: string)

  function Apply(names: Names, call: Call): Names {
    match call
    case CallRegister(kind, step, raw) => Registered(names, kind, step, raw).0
    case CallBind(template, raw) => Bound(names, template, raw)
  }

  function ApplyAll(names: Names, calls: seq<Call>): Names
    decreases |calls|
  {
    if calls == [] then names else ApplyAll(Apply(names, calls[0]), calls[1..])
  }

  /** Registered kinds hold no colon and steps come from `steps`; nothing is bound. */
  predicate Registers(calls: seq<Call>, steps: set<string>) {
    forall i :: 0 <= i < |calls| ==> calls[i].CallRegister? && ':' !in calls[i].kind && calls[i].step in steps
  }

  /** A registration as above, or a colon-free name bound by hand that stands for no other value. */
  predicate Admits(names: Names, call: Call, steps: set<string>) {
    match call
    case CallRegister(kind, step, _) => ':' !in kind && step in steps
    case CallBind(template, raw) =>
      template != "" && ':' !in template && (template in names.values ==> names.values[template] == raw)
  }

  predicate Admitted(names: Names, calls: seq<Call>, steps: set<string>)
    decreases |calls|
  {
    calls == [] || (Admits(names, calls[0], steps) && Admitted(Apply(names, calls[0]), calls[1..], steps))
  }

  lemma {:induction false} RegistersAdmitted(names: Names, calls: seq<Call>, steps: set<string>)
    requires Registers(calls, steps)
    ensures Admitted(names, calls, steps)
    decreases |calls|
  {
    if calls != [] {
      RegistersAdmitted(Apply(names, calls[0]), calls[1..], steps);
    }
  }

  lemma {:induction false} AdmittedSplits(names: Names, calls: seq<Call>, steps: set<string>, i: nat)
    requires Admitted(names, calls, steps) && i <= |calls|
    ensures Admitted(names, calls[..i], steps) && Admitted(ApplyAll(names, calls[..i]), calls[i..], steps)
    decreases i
  {
    if i == 0 {
      assert calls[0..] == calls && calls[..0] == [];
    } else {
      var next, rest := Apply(names, calls[0]), calls[1..];
      AdmittedSplits(next, rest, steps, i - 1);
      assert calls[..i][0] == calls[0] && calls[..i][1..] == rest[..i - 1] && rest[i - 1..] == calls[i..];
      assert Admitted(names, calls[..i], steps);
      assert ApplyAll(names, calls[..i]) == ApplyAll(next, rest[..i - 1]);
    }
  }

  /** The name that call `i` of a run gives its value. */
  function NameOf(names: Names, calls: seq<Call>, i: nat): string
    requires i < |calls|
  {
    match calls[i]
    case CallRegister(kind, step, _) => Template(kind, step, NextCount(ApplyAll(names, calls[..i]), kind, step))
    case CallBind(template, _) => template
  }

  /** Each call's own name resolves to the value it was given to. */
  ghost predicate OwnNamesResolve(start: Names, calls: seq<Call>, end: Names) {
    forall i :: 0 <= i < |calls| ==>
      NameOf(start, calls, i) in end.values && end.values[NameOf(start, calls, i)] == calls[i].raw
  }

  lemma ValuesStay(names: Names, call: Call, steps: set<string>, t: string)
    requires Admits(names, call, steps) && t in names.values
    ensures t in Apply(names, call).values && Apply(names, call).values[t] == names.values[t]
  {
  }

  lemma {:induction false} ValuesStayInRun(names: Names, calls: seq<Call>, steps: set<string>, t: string)
    requires Admitted(names, calls, steps) && t in names.values
    ensures t in ApplyAll(names, calls).values && ApplyAll(names, calls).values[t] == names.values[t]
    decreases |calls|
  {
    if calls != [] {
      ValuesStay(names, calls[0], steps, t);
      ValuesStayInRun(Apply(names, calls[0]), calls[1..], steps, t);
    }
  }

  lemma {:induction false} ApplyAllSplits(names: Names, calls: seq<Call>, i: nat)
    requires i <= |calls|
    ensures ApplyAll(names, calls) == ApplyAll(ApplyAll(names, calls[..i]), calls[i..])
    decreases i
  {
    if i == 0 {
      assert calls[0..] == calls && calls[..0] == [];
    } else {
      assert calls[..i][1..] == calls[1..][..i - 1] && calls[1..][i - 1..] == calls[i..];
      ApplyAllSplits(Apply(names, calls[0]), calls[1..], i - 1);
    }
  }

  /** Binding a fresh colon-free name to a raw value keeps the invariant. */
  lemma BindResolves(names: Names, steps: set<string>, template: string, raw: string)
    requires Valid(names, steps) && template != "" && ':' !in template
    requires template in names.values ==> names.values[template] == raw
    ensures Valid(Bound(names, template, raw), steps)
  {
    var after := Bound(names, template, raw);
    forall t | t in after.values
      ensures Known(t, after, steps)
    {
      if t != template && ':' in t {
        assert Known(t, names, steps);
        var k, s, n: nat :| NamedBy(t, names, steps, k, s, n);
        assert NamedBy(t, after, steps, k, s, n);
      }
    }
  }

  lemma OwnNameResolves(names: Names, calls: seq<Call>, steps: set<string>, i: nat)
    requires Valid(names, steps) && !Clash(steps) && Admitted(names, calls, steps) && i < |calls|
    ensures var end := ApplyAll(names, calls);
      NameOf(names, calls, i) in end.values && end.values[NameOf(names, calls, i)] == calls[i].raw
  {
    var before := ApplyAll(names, calls[..i]);
    AdmittedSplits(names, calls, steps, i);
    RunResolves(names, calls[..i], steps);
    if calls[i].CallRegister? {
      RegisterResolves(before, steps, calls[i].kind, calls[i].step, calls[i].raw);
    }
    ApplyAllSplits(names, calls, i);
    assert calls[i..][0] == calls[i] && calls[i..][1..] == calls[i + 1..];
    ValuesStayInRun(Apply(before, calls[i]), calls[i + 1..], steps, NameOf(names, calls, i));
  }

  /** After every run of registrations and binds each call's own name still resolves to its value. */
  lemma RunResolvesOwnNames(names: Names, calls: seq<Call>, steps: set<string>)
    requires Valid(names, steps) && !Clash(steps) && Admitted(names, calls, steps)
    ensures OwnNamesResolve(names, calls, ApplyAll(names, calls))
  {
    forall i | 0 <= i < |calls|
      ensures var end := ApplyAll(names, calls);
        NameOf(names, calls, i) in end.values && end.values[NameOf(names, calls, i)] == calls[i].raw
    {
      OwnNameResolves(names, calls, steps, i);
    }
  }

  lemma {:induction false} RunResolves(names: Names, calls: seq<Call>, steps: set<string>)
    requires Valid(names, steps) && !Clash(steps) && Admitted(names, calls, steps)
    ensures Valid(ApplyAll(names, calls), steps)
    decreases |calls|
  {
    if calls != [] {
      match calls[0] {
        case CallRegister(kind, step, raw) => RegisterResolves(names, steps, kind, step, raw);
        case CallBind(template, raw) => BindResolves(names, steps, template, raw);
      }
      RunResolves(Apply(names, calls[0]), calls[1..], steps);
    }
  }

  // ----- names are numbered in the order of the calls -----

  /** How many of the calls register this kind under this step. */
  function CallsOf(calls: seq<Call>, kind: string, step: string): nat {
    if calls == [] then 0
    else
      var last := calls[|calls| - 1];
      CallsOf(calls[..|calls| - 1], kind, step) +
      if last.CallRegister? && last.kind == kind && last.step == step then 1 else 0
  }

  lemma {:induction false} CountFollowsCalls(calls: seq<Call>, kind: string, step: string)
    requires ':' !in kind && forall i :: 0 <= i < |calls| && calls[i].CallRegister? ==> ':' !in calls[i].kind
    ensures NextCount(ApplyAll(NO_NAMES, calls), kind, step) == CallsOf(calls, kind, step) + 1
    decreases |calls|
  {
    if calls != [] {
      var before, last := calls[..|calls| - 1], calls[|calls| - 1];
      assert calls == before + [last];
      CountFollowsCalls(before, kind, step);
      ApplyAllAppends(NO_NAMES, before, last);
      if last.CallRegister? && CounterKey(last.kind, last.step) == CounterKey(kind, step) {
        CounterKeyDecodes(last.kind, last.step, kind, step);
      }
      if last.CallRegister? && last.kind == kind && last.step == step {
        CountFollowsCalls(before, kind, step);
      }
    }
  }

  /** The first registration of a kind under a step is named `{{kind:step}}`, the n-th `{{kind:step#n}}`. */
  lemma NamesCountCalls(calls: seq<Call>, i: nat)
    requires i < |calls| && calls[i].CallRegister?
    requires forall j :: 0 <= j < |calls| && calls[j].CallRegister? ==> ':' !in calls[j].kind
    ensures var kind, step, n := calls[i].kind, calls[i].step, CallsOf(calls[..i], calls[i].kind, calls[i].step) + 1;
      NameOf(NO_NAMES, calls, i) == "{{" + (kind + ":" + (step + if n == 1 then "" else "#" + Decimal(n))) + "}}"
  {
    CountFollowsCalls(calls[..i], calls[i].kind, calls[i].step);
  }

  // ----- exactly when naming is sound -----

  /** `count` registrations of distinct raw values under one step. */
  function Repeat(kind: string, step: string, count: nat): seq<Call> {
    seq(count, i requires 0 <= i < count => CallRegister(kind, step, Decimal(i)))
  }

  lemma {:induction false} ApplyAllAppends(names: Names, calls: seq<Call>, last: Call)
    ensures ApplyAll(names, calls + [last]) == Apply(ApplyAll(names, calls), last)
    decreases |calls|
  {
    if calls == [] {
      assert [last][1..] == [];
      assert ApplyAll(names, [last]) == ApplyAll(Apply(names, last), []);
      assert calls + [last] == [last];
    } else {
      assert (calls + [last])[1..] == calls[1..] + [last];
      ApplyAllAppends(Apply(names, calls[0]), calls[1..], last);
    }
  }

  /** `t` was registered once with the value "x" and `s` with the first `count` numerals. */
  ghost predicate Counted(names: Names, kind: string, s: string, t: string, count: nat) {
    && NextCount(names, kind, s) == count + 1
    && Template(kind, t, 1) in names.values && names.values[Template(kind, t, 1)] == "x"
    && forall i: nat :: i >= count ==> Decimal(i) !in names.templates
  }

  lemma CountedFirst(kind: string, s: string, t: string)
    requires s != t && ':' !in kind
    ensures Counted(Registered(NO_NAMES, kind, t, "x").0, kind, s, t, 0)
  {
    var first := Registered(NO_NAMES, kind, t, "x").0;
    if CounterKey(kind, s) == CounterKey(kind, t) {
      CounterKeyDecodes(kind, s, kind, t);
      assert false;
    }
    forall i: nat
      ensures Decimal(i) !in first.templates
    {
      assert Decimal(i)[0] != 'x';
    }
  }

  lemma CountedNext(names: Names, kind: string, s: string, t: string, count: nat)
    requires Counted(names, kind, s, t, count)
    ensures Counted(Registered(names, kind, s, Decimal(count)).0, kind, s, t, count + 1)
  {
    forall i: nat | i >= count + 1
      ensures Decimal(i) != Decimal(count)
    {
      DecimalInjective(i, count);
    }
  }

  /** Counting under `s` after `t` was registered once with the value "x". */
  lemma {:induction false} RepeatCounts(kind: string, s: string, t: string, count: nat)
    requires s != t && ':' !in kind
    ensures Counted(ApplyAll(Registered(NO_NAMES, kind, t, "x").0, Repeat(kind, s, count)), kind, s, t, count)
    decreases count
  {
    var first := Registered(NO_NAMES, kind, t, "x").0;
    if count == 0 {
      assert Repeat(kind, s, 0) == [];
      CountedFirst(kind, s, t);
    } else {
      RepeatCounts(kind, s, t, count - 1);
      var last := CallRegister(kind, s, Decimal(count - 1));
      assert Repeat(kind, s, count) == Repeat(kind, s, count - 1) + [last];
      ApplyAllAppends(first, Repeat(kind, s, count - 1), last);
      CountedNext(ApplyAll(first, Repeat(kind, s, count - 1)), kind, s, t, count - 1);
    }
  }

  /** One value registered under `t`, then `n` values under `s`, all of one kind. */
  function ClashingRun(kind: string, s: string, t: string, n: nat): seq<Call> {
    [CallRegister(kind, t, "x")] + Repeat(kind, s, n)
  }

  lemma SameTemplate(kind: string, s: string, t: string, n: nat)
    requires ClashAt(s, t, n)
    ensures Template(kind, s, n) == Template(kind, t, 1)
  {
    Reassociate(s, "#", Decimal(n));
    assert t + "" == t;
  }

  /** A clash makes some run of any kind give one name to two values. */
  lemma ClashBreaks(kind: string, s: string, t: string, n: nat)
    requires ClashAt(s, t, n) && ':' !in kind
    ensures var calls := ClashingRun(kind, s, t, n);
      OfKind(calls, kind, {s, t}) && !Resolves(ApplyAll(NO_NAMES, calls))
  {
    assert |t| > |s|;
    RepeatCounts(kind, s, t, n - 1);
    var first := Registered(NO_NAMES, kind, t, "x").0;
    var before := ApplyAll(first, Repeat(kind, s, n - 1));
    var last := CallRegister(kind, s, Decimal(n - 1));
    assert Repeat(kind, s, n) == Repeat(kind, s, n - 1) + [last];
    ApplyAllAppends(first, Repeat(kind, s, n - 1), last);
    SameTemplate(kind, s, t, n);
    var calls := ClashingRun(kind, s, t, n);
    assert calls[1..] == Repeat(kind, s, n);
    var after := ApplyAll(NO_NAMES, calls);
    assert after == Apply(before, last);
    assert Decimal(n - 1) in after.templates && after.values[after.templates[Decimal(n - 1)]] == "x";
    assert Decimal(n - 1)[0] != 'x';
  }

  predicate OfKind(calls: seq<Call>, kind: string, steps: set<string>) {
    Registers(calls, steps) && forall i :: 0 <= i < |calls| ==> calls[i].kind == kind
  }

  /**
   * A run is sound when every canonical name resolves to its own value, every alias to the value of
   * its canonical name, and each call's own name to the value it registered.
   */
  ghost predicate Sound(calls: seq<Call>) {
    var end := ApplyAll(NO_NAMES, calls);
    Resolves(end) && Aliased(end) && OwnNamesResolve(NO_NAMES, calls, end)
  }

  lemma NoClashSound(calls: seq<Call>, steps: set<string>)
    requires !Clash(steps) && Registers(calls, steps)
    ensures Sound(calls)
  {
    RegistersAdmitted(NO_NAMES, calls, steps);
    RunResolves(NO_NAMES, calls, steps);
    RunResolvesOwnNames(NO_NAMES, calls, steps);
  }

  /**
   * Over the step names of a plan and for each kind, every sequence of registrations is sound exactly
   * when no step name is another one followed by an ordinal.
   */
  lemma NamingSoundIff(kind: string, steps: set<string>)
    requires ':' !in kind
    ensures (forall calls :: OfKind(calls, kind, steps) ==> Sound(calls)) <==> !Clash(steps)
  {
    if Clash(steps) {
      var s, t, n: nat :| s in steps && t in steps && ClashAt(s, t, n);
      ClashBreaks(kind, s, t, n);
      assert OfKind(ClashingRun(kind, s, t, n), kind, steps);
    } else {
      forall calls | OfKind(calls, kind, steps)
        ensures Sound(calls)
      {
        NoClashSound(calls, steps);
      }
    }
  }
}
