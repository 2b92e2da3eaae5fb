/** Text recorded through a registry can be replayed: `resolve` undoes `replaceAll`. */
module RegistryText {
  import opened Text
  import opened Registry
  import opened TemplateText

  /** The loop of `replaceAll` over the registered pairs, in whatever order they were sorted. */
  method ReplaceEntries(text: string, entries: seq<(string, string)>) returns (output: string)
    ensures output == ReplaceAll(text, entries)
  {
    output := text;
    for k := 0 to |entries|
      invariant ReplaceAll(output, entries[k..]) == ReplaceAll(text, entries)
    {
      var (raw, template) := entries[k];
      assert entries[k..][0] == entries[k] && entries[k..][1..] == entries[k + 1..];
      if |raw| < 4 {
        continue;
      }
      output := Replace(output, raw, template, AllDigits(raw), false);
    }
  }

  // ----- registered names are templates the resolver recognises -----

  predicate Letters(s: string) {
    s != "" && forall i :: 0 <= i < |s| ==> Letter(s[i])
  }

  predicate StepName(s: string) {
    s != "" && forall i :: 0 <= i < |s| ==> StepChar(s[i])
  }

  lemma {:induction false} LetterRunOf(s: string, rest: string)
    requires (forall i :: 0 <= i < |s| ==> Letter(s[i])) && (rest == "" || !Letter(rest[0]))
    ensures LetterRun(s + rest) == |s|
    decreases |s|
  {
    if s == "" {
      assert s + rest == rest;
    } else {
      assert (s + rest)[0] == s[0] && (s + rest)[1..] == s[1..] + rest;
      LetterRunOf(s[1..], rest);
    }
  }

  lemma {:induction false} StepRunOf(s: string, rest: string)
    requires (forall i :: 0 <= i < |s| ==> StepChar(s[i])) && (rest == "" || !StepChar(rest[0]))
    ensures StepRun(s + rest) == |s|
    decreases |s|
  {
    if s == "" {
      assert s + rest == rest;
    } else {
      assert (s + rest)[0] == s[0] && (s + rest)[1..] == s[1..] + rest;
      StepRunOf(s[1..], rest);
    }
  }

  lemma OrdinalPartOf(n: nat)
    requires n >= 1
    ensures OrdinalPart(Ordinal(n) + "}}") == |Ordinal(n)|
  {
    var o := Ordinal(n);
    if n > 1 {
      var d := Decimal(n);
      assert (o + "}}")[0] == '#' && (o + "}}")[1..] == d + "}}";
      DigitRunOf(d, "}}");
    } else {
      assert o + "}}" == "}}";
    }
  }

  lemma StepPartOf(step: string, n: nat)
    requires StepName(step) && n >= 1
    ensures var x := ":" + (step + Ordinal(n)); StepPart(x + "}}") == |x|
  {
    var o := Ordinal(n);
    var s := ":" + (step + o) + "}}";
    assert s[0] == ':' && s[1..] == step + (o + "}}");
    assert (o + "}}")[0] == '#' || (o + "}}")[0] == '}';
    StepRunOf(step, o + "}}");
    assert s[1..][|step|..] == o + "}}";
    OrdinalPartOf(n);
  }

  lemma TemplateShape(kind: string, x: string, close: string, t: string)
    requires t == "{{" + (kind + x) + close
    ensures t[..2] == "{{" && t[2..] == kind + (x + close) && t[2 + |kind|..] == x + close
    ensures t[2 + |kind|..][|x|..] == close && |t| == 2 + |kind| + |x| + |close|
  {
  }

  lemma WholeTemplate(kind: string, x: string, close: string, t: string)
    requires Letters(kind) && x != "" && !Letter(x[0]) && close == "}}"
    requires StepPart(x + close) == |x| && t == "{{" + (kind + x) + close
    ensures Recognised(t)
  {
    TemplateShape(kind, x, close, t);
    LetterRunOf(kind, x + close);
    LengthFromParts(t, |kind|, |x|, close);
  }

  /** Every name built from a kind of letters and a plain step name is recognised whole. */
  lemma TemplateRecognised(kind: string, step: string, n: nat)
    requires Letters(kind) && StepName(step) && n >= 1
    ensures Recognised(Template(kind, step, n))
    ensures var t := Template(kind, step, n); t[0] == '{' && t[|t| - 1] == '}'
  {
    var x := ":" + (step + Ordinal(n));
    assert kind + ":" + (step + Ordinal(n)) == kind + x;
    StepPartOf(step, n);
    WholeTemplate(kind, x, "}}", Template(kind, step, n));
  }

  // ----- over every sequence of registrations -----

  ghost predicate AllRecognised(names: Names) {
    forall raw :: raw in names.templates ==>
      var t := names.templates[raw]; Recognised(t) && t[0] == '{' && t[|t| - 1] == '}'
  }

  lemma RegisterRecognised(names: Names, kind: string, step: string, raw: string)
    requires AllRecognised(names) && Letters(kind) && StepName(step)
    ensures AllRecognised(Registered(names, kind, step, raw).0)
  {
    TemplateRecognised(kind, step, NextCount(names, kind, step));
  }

  predicate PlainCalls(calls: seq<Call>) {
    forall i :: 0 <= i < |calls| ==> calls[i].CallRegister? && Letters(calls[i].kind) && StepName(calls[i].step)
  }

  lemma {:induction false} RunRecognised(names: Names, calls: seq<Call>)
    requires AllRecognised(names) && PlainCalls(calls)
    ensures AllRecognised(ApplyAll(names, calls))
    decreases |calls|
  {
    if calls != [] {
      RegisterRecognised(names, calls[0].kind, calls[0].step, calls[0].raw);
      RunRecognised(Apply(names, calls[0]), calls[1..]);
    }
  }

  function StepsOf(calls: seq<Call>): set<string> {
    set i | 0 <= i < |calls| && calls[i].CallRegister? :: calls[i].step
  }

  lemma HoldsHash(s: string, rest: string)
    ensures '#' in s + "#" + rest
  {
    assert (s + "#" + rest)[|s|] == '#';
  }

  lemma PlainStepsNeverClash(calls: seq<Call>)
    requires PlainCalls(calls)
    ensures !Clash(StepsOf(calls)) && Registers(calls, StepsOf(calls))
  {
    forall i | 0 <= i < |calls|
      ensures ':' !in calls[i].kind && calls[i].step in StepsOf(calls)
    {
    }
    forall s, t, n: nat | s in StepsOf(calls) && t in StepsOf(calls)
      ensures !ClashAt(s, t, n)
    {
      var i :| 0 <= i < |calls| && calls[i].CallRegister? && calls[i].step == t;
      assert StepName(t);
      if t == s + "#" + Decimal(n) {
        HoldsHash(s, Decimal(n));
        assert false;
      }
    }
  }

  /** The registered pairs, in any order and any selection. */
  ghost predicate PairsOf(pairs: seq<(string, string)>, names: Names) {
    forall i :: 0 <= i < |pairs| ==>
      pairs[i].0 in names.templates && pairs[i].1 == names.templates[pairs[i].0]
  }

  /** Raw values are free of braces and occur in no template in use. */
  ghost predicate Distinguishable(names: Names) {
    && (forall raw :: raw in names.templates ==> raw != "" && BraceFree(raw))
    && (forall raw, other :: raw in names.templates && other in names.templates ==>
         !Occurs(names.templates[other], raw))
  }

  /**
   * After any sequence of registrations with letter kinds and plain step names, recorded text
   * without braces resolves back to itself.
   */
  lemma RecordedTextReplays(text: string, calls: seq<Call>, pairs: seq<(string, string)>)
    requires BraceFree(text) && PlainCalls(calls)
    requires var names := ApplyAll(NO_NAMES, calls); PairsOf(pairs, names) && Distinguishable(names)
    ensures Resolve(ReplaceAll(text, pairs), ApplyAll(NO_NAMES, calls).values) == Some(text)
    ensures forall i :: 0 <= i < |pairs| && |pairs[i].0| >= 4 && !AllDigits(pairs[i].0) ==>
      !Occurs(ReplaceAll(text, pairs), pairs[i].0)
  {
    var names := ApplyAll(NO_NAMES, calls);
    PlainStepsNeverClash(calls);
    RegistersAdmitted(NO_NAMES, calls, StepsOf(calls));
    RunResolves(NO_NAMES, calls, StepsOf(calls));
    RunRecognised(NO_NAMES, calls);
    var raws := names.templates.Keys;
    var templates := set raw | raw in names.templates :: names.templates[raw];
    ResolveUndoesReplaceAll(text, pairs, raws, templates, names.values);
  }
}
