/**
 * Templates inside text: `replaceAll` puts templates in place of raw values, one value after the
 * other, and `resolve` puts the raw values back.
 */
module TemplateText {
  import opened Text

  // ----- replacing one raw value -----

  /** No digit stands right after the first `n` characters. */
  predicate NoDigitAt(text: string, n: nat) {
    n < |text| ==> !IsDigit(text[n])
  }

  /** A match at the front of `text`; values of digits only must be whole numbers. */
  predicate Matches(text: string, raw: string, whole: bool, before: bool) {
    raw != "" && StartsWith(text, raw) && (whole ==> !before && NoDigitAt(text, |raw|))
  }

  /**
   * Replaces every match from left to right. `before` tells whether a digit stands just before
   * `text`, which only matters for whole numbers.
   */
  function Replace(text: string, raw: string, template: string, whole: bool, before: bool): string
    decreases |text|
  {
    if text == "" then ""
    else if Matches(text, raw, whole, before) then
      template + Replace(text[|raw|..], raw, template, whole, IsDigit(raw[|raw| - 1]))
    else [text[0]] + Replace(text[1..], raw, template, whole, IsDigit(text[0]))
  }

  predicate AllDigits(s: string) {
    s != "" && forall i :: 0 <= i < |s| ==> IsDigit(s[i])
  }

  /** `replaceAll` over the registered pairs in a given order; short values are left alone. */
  function ReplaceAll(text: string, pairs: seq<(string, string)>): string
    decreases |pairs|
  {
    if pairs == [] then text
    else
      var (raw, template) := pairs[0];
      var next := if |raw| < 4 then text else Replace(text, raw, template, AllDigits(raw), false);
      ReplaceAll(next, pairs[1..])
  }

  // ----- resolving -----

  predicate Letter(c: char) {
    'a' <= c <= 'z' || 'A' <= c <= 'Z'
  }

  predicate StepChar(c: char) {
    Letter(c) || IsDigit(c) || c == '_' || c == '-'
  }

  /** The length of the longest run of characters of one class. */
  function LetterRun(s: string): (n: nat)
    ensures n <= |s|
  {
    if s != "" && Letter(s[0]) then 1 + LetterRun(s[1..]) else 0
  }

  function StepRun(s: string): (n: nat)
    ensures n <= |s|
  {
    if s != "" && StepChar(s[0]) then 1 + StepRun(s[1..]) else 0
  }

  /** The length of the optional `#` and number. */
  function OrdinalPart(s: string): (n: nat)
    ensures n <= |s|
  {
    if s != "" && s[0] == '#' && DigitRun(s[1..]) > 0 then 1 + DigitRun(s[1..]) else 0
  }

  /** The length of the optional `:`, step and ordinal. */
  function StepPart(s: string): (n: nat)
    ensures n <= |s|
  {
    if s != "" && s[0] == ':' && StepRun(s[1..]) > 0
    then 1 + StepRun(s[1..]) + OrdinalPart(s[1..][StepRun(s[1..])..])
    else 0
  }

  /** `/\{\{[a-zA-Z]+(?::[a-zA-Z0-9_-]+(?:#\d+)?)?\}\}/` at the front of `text`: the length of the match, or 0. */
  function TemplateLength(text: string): (n: nat)
    ensures n <= |text|
  {
    if !StartsWith(text, "{{") then 0
    else
      var kind := LetterRun(text[2..]);
      var rest := text[2 + kind..];
      var step := StepPart(rest);
      if kind > 0 && StartsWith(rest[step..], "}}") then 2 + kind + step + 2 else 0
  }

  /** `resolve`: every template becomes its value; an unknown template is an error. */
  function Resolve(text: string, values: map<string, string>): Option<string>
    decreases |text|
  {
    if text == "" then Some("")
    else
      var n := TemplateLength(text);
      if n > 0 then
        if text[..n] !in values then None else Prefixed(values[text[..n]], Resolve(text[n..], values))
      else Prefixed([text[0]], Resolve(text[1..], values))
  }

  function Prefixed(s: string, rest: Option<string>): Option<string> {
    if rest.None? then None else Some(s + rest.value)
  }

  lemma PrefixedTwice(s: string, t: string, rest: Option<string>)
    ensures Prefixed(s, Prefixed(t, rest)) == Prefixed(s + t, rest)
  {
    if rest.Some? {
      Reassociate(s, t, rest.value);
    }
  }

  // ----- text with marked templates -----

  /** Literal text, then a template, then more; templates never touch without a literal between. */
  datatype Marked = Plain(text: string) | Then(text: string, template: string, rest: Marked)

  function Flatten(m: Marked): string {
    match m
    case Plain(s) => s
    case Then(s, t, rest) => s + (t + Flatten(rest))
  }

  /** What marked text stands for. */
  ghost predicate Means(m: Marked, values: map<string, string>, original: string)
    decreases m
  {
    match m
    case Plain(s) => s == original
    case Then(s, t, rest) =>
      && t in values && StartsWith(original, s + values[t])
      && Means(rest, values, original[|s + values[t]|..])
  }

  predicate BraceFree(s: string) {
    '{' !in s && '}' !in s
  }

  /** A template opens and closes with a brace and holds no registered value. */
  ghost predicate Sealed(t: string, raws: set<string>) {
    && t != "" && t[0] == '{' && t[|t| - 1] == '}'
    && forall raw :: raw in raws ==> !Occurs(t, raw)
  }

  /** The resolver takes exactly this text as a template. */
  predicate Recognised(t: string) {
    t != "" && TemplateLength(t) == |t|
  }

  /** Literals are free of braces and templates come from the given set. */
  ghost predicate Good(m: Marked, templates: set<string>) {
    match m
    case Plain(s) => BraceFree(s)
    case Then(s, t, rest) => BraceFree(s) && t in templates && Good(rest, templates)
  }

  function Push(c: char, m: Marked): Marked {
    match m
    case Plain(s) => Plain([c] + s)
    case Then(s, t, rest) => Then([c] + s, t, rest)
  }

  function Extend(m: Marked, t: string, rest: Marked): Marked {
    match m
    case Plain(s) => Then(s, t, rest)
    case Then(s, u, more) => Then(s, u, Extend(more, t, rest))
  }

  /** Replacing inside one literal. */
  function Mark(s: string, raw: string, template: string, whole: bool, before: bool): Marked
    decreases |s|
  {
    if s == "" then Plain("")
    else if Matches(s, raw, whole, before) then
      Then("", template, Mark(s[|raw|..], raw, template, whole, IsDigit(raw[|raw| - 1])))
    else Push(s[0], Mark(s[1..], raw, template, whole, IsDigit(s[0])))
  }

  /** Replacing in every literal. */
  function MarkAll(m: Marked, raw: string, template: string, whole: bool): Marked {
    match m
    case Plain(s) => Mark(s, raw, template, whole, false)
    case Then(s, t, rest) => Extend(Mark(s, raw, template, whole, false), t, MarkAll(rest, raw, template, whole))
  }

  // ----- text replacement acts on the literals only -----

  lemma FlattenPush(c: char, m: Marked)
    ensures Flatten(Push(c, m)) == [c] + Flatten(m)
  {
    match m
    case Plain(s) =>
    case Then(s, t, rest) => assert [c] + s + (t + Flatten(rest)) == [c] + (s + (t + Flatten(rest)));
  }

  lemma {:induction false} FlattenExtend(m: Marked, t: string, rest: Marked)
    ensures Flatten(Extend(m, t, rest)) == Flatten(m) + (t + Flatten(rest))
  {
    match m
    case Plain(s) =>
    case Then(s, u, more) =>
      FlattenExtend(more, t, rest);
      var z := t + Flatten(rest);
      assert s + (u + (Flatten(more) + z)) == (s + (u + Flatten(more))) + z;
  }

  /** At a brace or at the end, what stands before does not matter. */
  lemma BeforeIrrelevant(text: string, raw: string, template: string, whole: bool, b: bool, c: bool)
    requires BraceFree(raw) && (text == "" || text[0] == '{')
    ensures Replace(text, raw, template, whole, b) == Replace(text, raw, template, whole, c)
  {
    assert raw != "" ==> raw[0] in raw;
  }

  /** A match cannot run across a brace. */
  lemma MatchStaysInside(s: string, tail: string, raw: string, whole: bool, before: bool)
    requires BraceFree(raw) && (tail == "" || tail[0] == '{')
    ensures Matches(s + tail, raw, whole, before) <==> Matches(s, raw, whole, before)
  {
    var u := s + tail;
    assert forall i :: 0 <= i < |raw| ==> raw[i] in raw;
    if |raw| <= |s| {
      assert u[..|raw|] == s[..|raw|];
    } else if |raw| <= |u| {
      assert u[..|raw|][|s|] == tail[0];
    }
  }

  /** One step of replacing. */
  lemma ReplaceStep(text: string, raw: string, template: string, whole: bool, before: bool)
    requires text != ""
    ensures Matches(text, raw, whole, before) ==>
      Replace(text, raw, template, whole, before) ==
        template + Replace(text[|raw|..], raw, template, whole, IsDigit(raw[|raw| - 1]))
    ensures !Matches(text, raw, whole, before) ==>
      Replace(text, raw, template, whole, before) ==
        [text[0]] + Replace(text[1..], raw, template, whole, IsDigit(text[0]))
  {
  }

  lemma {:induction false} ReplaceLiteral(s: string, tail: string, raw: string, template: string, whole: bool,
                                          before: bool)
    requires BraceFree(raw) && (tail == "" || tail[0] == '{')
    ensures Replace(s + tail, raw, template, whole, before)
         == Flatten(Mark(s, raw, template, whole, before)) + Replace(tail, raw, template, whole, false)
    decreases |s|
  {
    if s == "" {
      assert s + tail == tail;
      BeforeIrrelevant(tail, raw, template, whole, before, false);
    } else {
      MatchStaysInside(s, tail, raw, whole, before);
      if Matches(s, raw, whole, before) {
        ReplaceLiteral(s[|raw|..], tail, raw, template, whole, IsDigit(raw[|raw| - 1]));
        LiteralMatched(s, tail, raw, template, whole, before);
      } else {
        ReplaceLiteral(s[1..], tail, raw, template, whole, IsDigit(s[0]));
        LiteralKept(s, tail, raw, template, whole, before);
      }
    }
  }

  lemma LiteralMatched(s: string, tail: string, raw: string, template: string, whole: bool, before: bool)
    requires s != "" && Matches(s, raw, whole, before) && Matches(s + tail, raw, whole, before)
    requires var d := IsDigit(raw[|raw| - 1]);
      Replace(s[|raw|..] + tail, raw, template, whole, d)
        == Flatten(Mark(s[|raw|..], raw, template, whole, d)) + Replace(tail, raw, template, whole, false)
    ensures Replace(s + tail, raw, template, whole, before)
         == Flatten(Mark(s, raw, template, whole, before)) + Replace(tail, raw, template, whole, false)
  {
    var d, u := IsDigit(raw[|raw| - 1]), s + tail;
    assert u[|raw|..] == s[|raw|..] + tail;
    var rest := Flatten(Mark(s[|raw|..], raw, template, whole, d));
    assert Flatten(Mark(s, raw, template, whole, before)) == "" + (template + rest) == template + rest;
    Reassociate(template, rest, Replace(tail, raw, template, whole, false));
  }

  lemma LiteralKept(s: string, tail: string, raw: string, template: string, whole: bool, before: bool)
    requires s != "" && !Matches(s, raw, whole, before) && !Matches(s + tail, raw, whole, before)
    requires var d := IsDigit(s[0]);
      Replace(s[1..] + tail, raw, template, whole, d)
        == Flatten(Mark(s[1..], raw, template, whole, d)) + Replace(tail, raw, template, whole, false)
    ensures Replace(s + tail, raw, template, whole, before)
         == Flatten(Mark(s, raw, template, whole, before)) + Replace(tail, raw, template, whole, false)
  {
    var d, u := IsDigit(s[0]), s + tail;
    assert u[1..] == s[1..] + tail && u[0] == s[0];
    var rest := Flatten(Mark(s[1..], raw, template, whole, d));
    FlattenPush(s[0], Mark(s[1..], raw, template, whole, d));
    Reassociate([s[0]], rest, Replace(tail, raw, template, whole, false));
  }

  /** Inside a template, which ends with a brace and holds no raw value, nothing matches. */
  lemma NoMatchInTemplate(t: string, i: nat, tail: string, raw: string)
    requires i < |t| && t[|t| - 1] == '}' && BraceFree(raw) && raw != "" && !Occurs(t, raw)
    ensures !StartsWith(t[i..] + tail, raw)
  {
    var u := t[i..] + tail;
    assert forall k :: 0 <= k < |raw| ==> raw[k] in raw;
    if |raw| <= |t| - i {
      assert u[..|raw|] == t[i..][..|raw|];
    } else if |raw| <= |u| {
      assert u[..|raw|][|t| - i - 1] == t[|t| - 1];
    }
  }

  lemma {:induction false} ReplaceSkipsTemplate(t: string, i: nat, tail: string, raw: string, template: string,
                                                whole: bool, before: bool)
    requires i <= |t| && t != "" && t[|t| - 1] == '}' && BraceFree(raw) && raw != "" && !Occurs(t, raw)
    requires i == |t| ==> !before
    ensures Replace(t[i..] + tail, raw, template, whole, before) == t[i..] + Replace(tail, raw, template, whole, false)
    decreases |t| - i
  {
    if i == |t| {
      assert t[i..] + tail == tail;
    } else {
      var u := t[i..] + tail;
      NoMatchInTemplate(t, i, tail, raw);
      assert u[0] == t[i] && u[1..] == t[i + 1..] + tail;
      ReplaceSkipsTemplate(t, i + 1, tail, raw, template, whole, IsDigit(t[i]));
      assert t[i..] == [t[i]] + t[i + 1..];
    }
  }

  /** Replacing in the flat text is replacing in the literals. */
  lemma {:induction false} ReplaceIsMarkAll(m: Marked, templates: set<string>, raws: set<string>, raw: string,
                                            template: string, whole: bool)
    requires Good(m, templates) && raw in raws && BraceFree(raw) && raw != ""
    requires forall t :: t in templates ==> Sealed(t, raws)
    ensures Replace(Flatten(m), raw, template, whole, false) == Flatten(MarkAll(m, raw, template, whole))
  {
    match m
    case Plain(s) =>
      ReplaceLiteral(s, "", raw, template, whole, false);
      assert s + "" == s;
    case Then(s, t, rest) =>
      var tail := t + Flatten(rest);
      ReplaceLiteral(s, tail, raw, template, whole, false);
      ReplaceSkipsTemplate(t, 0, Flatten(rest), raw, template, whole, false);
      assert t[0..] == t;
      ReplaceIsMarkAll(rest, templates, raws, raw, template, whole);
      FlattenExtend(Mark(s, raw, template, whole, false), t, MarkAll(rest, raw, template, whole));
  }

  // ----- the meaning is kept -----

  lemma GoodPush(c: char, m: Marked, templates: set<string>)
    requires Good(m, templates) && c != '{' && c != '}'
    ensures Good(Push(c, m), templates)
  {
  }

  lemma MeansPush(c: char, m: Marked, values: map<string, string>, original: string)
    requires Means(m, values, original)
    ensures Means(Push(c, m), values, [c] + original)
  {
    match m
    case Plain(s) =>
    case Then(s, t, rest) =>
      var v := s + values[t];
      assert [c] + s + values[t] == [c] + v;
      assert ([c] + original)[..|v| + 1] == [c] + original[..|v|];
      assert ([c] + original)[|v| + 1..] == original[|v|..];
  }

  lemma {:induction false} MarkMeans(s: string, templates: set<string>, raw: string, template: string, whole: bool,
                                     before: bool, values: map<string, string>)
    requires BraceFree(s) && raw != "" && template in templates && template in values && values[template] == raw
    ensures Good(Mark(s, raw, template, whole, before), templates)
    ensures Means(Mark(s, raw, template, whole, before), values, s)
    decreases |s|
  {
    if s != "" {
      if Matches(s, raw, whole, before) {
        MarkMeans(s[|raw|..], templates, raw, template, whole, IsDigit(raw[|raw| - 1]), values);
        assert "" + raw == raw;
      } else {
        assert s[0] in s;
        var m := Mark(s[1..], raw, template, whole, IsDigit(s[0]));
        MarkMeans(s[1..], templates, raw, template, whole, IsDigit(s[0]), values);
        GoodPush(s[0], m, templates);
        MeansPush(s[0], m, values, s[1..]);
        assert s == [s[0]] + s[1..];
      }
    }
  }

  lemma {:induction false} ExtendMeans(m: Marked, t: string, rest: Marked, templates: set<string>,
                                       values: map<string, string>, s: string, after: string)
    requires Good(m, templates) && t in templates && Good(rest, templates)
    requires Means(m, values, s) && t in values && Means(rest, values, after)
    ensures Good(Extend(m, t, rest), templates) && Means(Extend(m, t, rest), values, s + (values[t] + after))
  {
    match m
    case Plain(x) =>
      var v := x + values[t];
      var o := s + (values[t] + after);
      assert o[..|v|] == v && o[|v|..] == after;
    case Then(x, u, more) =>
      var v := x + values[u];
      var o := s + (values[t] + after);
      ExtendMeans(more, t, rest, templates, values, s[|v|..], after);
      assert o[..|v|] == s[..|v|] && o[|v|..] == s[|v|..] + (values[t] + after);
  }

  lemma {:induction false} MarkAllMeans(m: Marked, templates: set<string>, raw: string, template: string, whole: bool,
                                        values: map<string, string>, original: string)
    requires Good(m, templates) && Means(m, values, original)
    requires raw != "" && template in templates && template in values && values[template] == raw
    ensures Good(MarkAll(m, raw, template, whole), templates) &&
      Means(MarkAll(m, raw, template, whole), values, original)
  {
    match m
    case Plain(s) =>
      MarkMeans(s, templates, raw, template, whole, false, values);
    case Then(s, t, rest) =>
      var v := s + values[t];
      var after := original[|v|..];
      MarkMeans(s, templates, raw, template, whole, false, values);
      MarkAllMeans(rest, templates, raw, template, whole, values, after);
      ExtendMeans(Mark(s, raw, template, whole, false), t, MarkAll(rest, raw, template, whole), templates, values, s,
                  after);
      assert original == original[..|v|] + after && s + (values[t] + after) == v + after;
  }

  // ----- resolving restores the meaning -----

  lemma NoTemplateAtLiteral(s: string, tail: string)
    requires BraceFree(s) && s != ""
    ensures TemplateLength(s + tail) == 0
  {
    var u := s + tail;
    assert s[0] in s && u[0] == s[0];
    if |u| >= 2 {
      assert u[..2][0] == u[0] && "{{"[0] == '{';
    }
  }

  lemma ResolveStep(u: string, values: map<string, string>)
    requires u != "" && TemplateLength(u) == 0
    ensures Resolve(u, values) == Prefixed([u[0]], Resolve(u[1..], values))
  {
  }

  lemma {:induction false} ResolveLiteral(s: string, tail: string, values: map<string, string>)
    requires BraceFree(s)
    ensures Resolve(s + tail, values) == Prefixed(s, Resolve(tail, values))
    decreases |s|
  {
    if s == "" {
      assert s + tail == tail;
      var rest := Resolve(tail, values);
      assert rest.Some? ==> s + rest.value == rest.value;
    } else {
      var u := s + tail;
      NoTemplateAtLiteral(s, tail);
      ResolveStep(u, values);
      assert u[0] == s[0] && u[1..] == s[1..] + tail;
      ResolveLiteral(s[1..], tail, values);
      PrefixedTwice([s[0]], s[1..], Resolve(tail, values));
      assert s == [s[0]] + s[1..];
    }
  }

  lemma {:induction false} RunsStop(s: string, rest: string)
    ensures LetterRun(s) < |s| ==> LetterRun(s + rest) == LetterRun(s)
    ensures StepRun(s) < |s| ==> StepRun(s + rest) == StepRun(s)
    ensures DigitRun(s) < |s| ==> DigitRun(s + rest) == DigitRun(s)
    decreases |s|
  {
    if s != "" {
      assert (s + rest)[0] == s[0] && (s + rest)[1..] == s[1..] + rest;
      RunsStop(s[1..], rest);
    }
  }

  lemma OrdinalPartStops(s: string, rest: string)
    requires OrdinalPart(s) < |s| && s[OrdinalPart(s)] == '}'
    ensures OrdinalPart(s + rest) == OrdinalPart(s)
  {
    var u := s + rest;
    assert u[0] == s[0] && u[1..] == s[1..] + rest;
    RunsStop(s[1..], rest);
  }

  lemma StepPartStops(s: string, rest: string)
    requires StepPart(s) < |s| && s[StepPart(s)] == '}'
    ensures StepPart(s + rest) == StepPart(s)
  {
    var u := s + rest;
    assert u[0] == s[0] && u[1..] == s[1..] + rest;
    RunsStop(s[1..], rest);
    var n := StepRun(s[1..]);
    if s[0] == ':' && n > 0 {
      var o := s[1..][n..];
      assert u[1..][n..] == o + rest;
      assert o[OrdinalPart(o)] == s[StepPart(s)];
      OrdinalPartStops(o, rest);
    }
  }

  /** What follows a complete template does not change where it ends. */
  lemma TemplateEnds(t: string, rest: string)
    requires Recognised(t)
    ensures TemplateLength(t + rest) == |t|
  {
    var u, kind := t + rest, LetterRun(t[2..]);
    var after := t[2 + kind..];
    var step := StepPart(after);
    TemplateCloses(t);
    RunsStop(t[2..], rest);
    StepPartStops(after, rest);
    Suffix(t, rest, 2);
    Suffix(t, rest, 2 + kind);
    Suffix(after, rest, step);
    assert u[..2] == t[..2];
    LengthFromParts(u, kind, step, "}}" + rest);
  }

  lemma Suffix(s: string, rest: string, n: nat)
    requires n <= |s|
    ensures (s + rest)[n..] == s[n..] + rest
  {
  }

  lemma TemplateCloses(t: string)
    requires Recognised(t)
    ensures var kind := LetterRun(t[2..]);
      var after := t[2 + kind..];
      var step := StepPart(after);
      kind > 0 && kind < |t[2..]| && step < |after| && after[step..] == "}}" && after[step] == '}'
  {
    var kind := LetterRun(t[2..]);
    var after := t[2 + kind..];
    var step := StepPart(after);
    assert StartsWith(after[step..], "}}") && |after[step..]| == 2;
    assert after[step..][..2] == after[step..];
    assert after[step..][0] == after[step];
  }

  lemma LengthFromParts(u: string, kind: nat, step: nat, close: string)
    requires StartsWith(u, "{{") && kind > 0 && LetterRun(u[2..]) == kind && StepPart(u[2 + kind..]) == step
    requires u[2 + kind..][step..] == close && StartsWith(close, "}}")
    ensures TemplateLength(u) == 2 + kind + step + 2
  {
  }

  lemma ResolveTemplate(t: string, tail: string, values: map<string, string>)
    requires Recognised(t) && t in values
    ensures Resolve(t + tail, values) == Prefixed(values[t], Resolve(tail, values))
  {
    var u := t + tail;
    TemplateEnds(t, tail);
    assert u[..|t|] == t && u[|t|..] == tail;
  }

  lemma {:induction false} ResolveMarked(m: Marked, templates: set<string>, values: map<string, string>,
                                         original: string)
    requires Good(m, templates) && Means(m, values, original) && forall t :: t in templates ==> Recognised(t)
    ensures Resolve(Flatten(m), values) == Some(original)
  {
    match m
    case Plain(s) =>
      ResolveLiteral(s, "", values);
      assert s + "" == s;
    case Then(s, t, rest) =>
      var v := s + values[t];
      ResolveMarked(rest, templates, values, original[|v|..]);
      assert Recognised(t);
      ResolveThen(s, t, Flatten(rest), original[|v|..], values);
      assert original == v + original[|v|..];
  }

  lemma ResolveThen(s: string, t: string, tail: string, after: string, values: map<string, string>)
    requires BraceFree(s) && Recognised(t) && t in values && Resolve(tail, values) == Some(after)
    ensures Resolve(s + (t + tail), values) == Some(s + values[t] + after)
  {
    ResolveTemplate(t, tail, values);
    ResolveLiteral(s, t + tail, values);
    PrefixedTwice(s, values[t], Some(after));
  }

  // ----- no value is left -----

  /** The raw value stands in no literal. */
  ghost predicate Free(m: Marked, raw: string) {
    match m
    case Plain(s) => !Occurs(s, raw)
    case Then(s, _, rest) => !Occurs(s, raw) && Free(rest, raw)
  }

  function First(m: Marked): string {
    m.text
  }

  lemma NothingInTail(s: string, k: nat, part: string)
    requires k <= |s| && !Occurs(s, part)
    ensures !Occurs(s[k..], part)
  {
    assert forall i :: 0 <= i <= |s[k..]| ==> s[k..][i..] == s[k + i..];
  }

  lemma NothingInFront(c: char, p: string, part: string)
    requires !Occurs(p, part) && !StartsWith([c] + p, part)
    ensures !Occurs([c] + p, part)
  {
    var u := [c] + p;
    forall i | 0 <= i <= |u|
      ensures !StartsWith(u[i..], part)
    {
      if i == 0 {
        assert u[0..] == u;
      } else {
        assert u[i..] == p[i - 1..];
      }
    }
  }

  lemma {:induction false} FirstIsPrefix(s: string, raw: string, template: string, whole: bool, before: bool)
    ensures StartsWith(s, First(Mark(s, raw, template, whole, before)))
    decreases |s|
  {
    if s != "" && !Matches(s, raw, whole, before) {
      FirstIsPrefix(s[1..], raw, template, whole, IsDigit(s[0]));
      var p := First(Mark(s[1..], raw, template, whole, IsDigit(s[0])));
      assert s[..|p| + 1] == [s[0]] + s[1..][..|p|];
    }
  }

  lemma FreePush(c: char, m: Marked, raw: string)
    requires Free(m, raw) && !StartsWith([c] + First(m), raw)
    ensures Free(Push(c, m), raw)
  {
    NothingInFront(c, First(m), raw);
  }

  lemma LongerStart(s: string, p: string, part: string)
    requires StartsWith(s, p) && StartsWith(p, part)
    ensures StartsWith(s, part)
  {
    assert s[..|part|] == p[..|part|];
  }

  /** Marking leaves the value in no literal. */
  lemma {:induction false} MarkFree(s: string, raw: string, template: string, before: bool)
    requires raw != ""
    ensures Free(Mark(s, raw, template, false, before), raw)
    decreases |s|
  {
    if s != "" {
      if Matches(s, raw, false, before) {
        MarkFree(s[|raw|..], raw, template, IsDigit(raw[|raw| - 1]));
      } else {
        var m := Mark(s[1..], raw, template, false, IsDigit(s[0]));
        MarkFree(s[1..], raw, template, IsDigit(s[0]));
        KeptCharacter(s, raw, template, false, before, raw);
        FreePush(s[0], m, raw);
      }
    }
  }

  lemma KeptCharacter(s: string, raw: string, template: string, whole: bool, before: bool, other: string)
    requires s != "" && !Matches(s, raw, whole, before) && !StartsWith(s, other)
    ensures !StartsWith([s[0]] + First(Mark(s[1..], raw, template, whole, IsDigit(s[0]))), other)
  {
    var p := [s[0]] + First(Mark(s[1..], raw, template, whole, IsDigit(s[0])));
    FirstIsPrefix(s, raw, template, whole, before);
    assert StartsWith(s, p);
    if StartsWith(p, other) {
      LongerStart(s, p, other);
    }
  }

  /** Marking one value brings no other into a literal. */
  lemma {:induction false} MarkKeepsFree(s: string, raw: string, template: string, whole: bool, before: bool,
                                         other: string)
    requires other != "" && !Occurs(s, other)
    ensures Free(Mark(s, raw, template, whole, before), other)
    decreases |s|
  {
    if s != "" {
      assert s[0..] == s;
      if Matches(s, raw, whole, before) {
        NothingInTail(s, |raw|, other);
        MarkKeepsFree(s[|raw|..], raw, template, whole, IsDigit(raw[|raw| - 1]), other);
      } else {
        NothingInTail(s, 1, other);
        MarkKeepsFree(s[1..], raw, template, whole, IsDigit(s[0]), other);
        KeptCharacter(s, raw, template, whole, before, other);
        FreePush(s[0], Mark(s[1..], raw, template, whole, IsDigit(s[0])), other);
      }
    }
  }

  lemma {:induction false} ExtendFree(m: Marked, t: string, rest: Marked, raw: string)
    requires Free(m, raw) && Free(rest, raw)
    ensures Free(Extend(m, t, rest), raw)
  {
    if m.Then? {
      ExtendFree(m.rest, t, rest, raw);
    }
  }

  lemma {:induction false} MarkAllFree(m: Marked, raw: string, template: string)
    requires raw != ""
    ensures Free(MarkAll(m, raw, template, false), raw)
  {
    MarkFree(m.text, raw, template, false);
    if m.Then? {
      MarkAllFree(m.rest, raw, template);
      ExtendFree(Mark(m.text, raw, template, false, false), m.template, MarkAll(m.rest, raw, template, false), raw);
    }
  }

  lemma {:induction false} MarkAllKeepsFree(m: Marked, raw: string, template: string, whole: bool, other: string)
    requires other != "" && Free(m, other)
    ensures Free(MarkAll(m, raw, template, whole), other)
  {
    MarkKeepsFree(m.text, raw, template, whole, false, other);
    if m.Then? {
      MarkAllKeepsFree(m.rest, raw, template, whole, other);
      ExtendFree(Mark(m.text, raw, template, whole, false), m.template, MarkAll(m.rest, raw, template, whole), other);
    }
  }

  /** A value without braces that stands in no literal and in no template does not stand in the text. */
  lemma {:induction false} FreeText(m: Marked, templates: set<string>, raws: set<string>, raw: string)
    requires Good(m, templates) && Free(m, raw) && raw in raws && raw != "" && BraceFree(raw)
    requires forall t :: t in templates ==> Sealed(t, raws)
    ensures !Occurs(Flatten(m), raw)
  {
    if m.Then? {
      var s, t, tail := m.text, m.template, Flatten(m.rest);
      FreeText(m.rest, templates, raws, raw);
      NothingAcross(s, t, tail, raw);
    }
  }

  lemma NothingAcross(s: string, t: string, tail: string, raw: string)
    requires raw != "" && BraceFree(raw) && !Occurs(s, raw) && !Occurs(t, raw) && !Occurs(tail, raw)
    requires t != "" && t[0] == '{' && t[|t| - 1] == '}'
    ensures !Occurs(s + (t + tail), raw)
  {
    var u := s + (t + tail);
    forall i | 0 <= i <= |u|
      ensures !StartsWith(u[i..], raw)
    {
      if i <= |s| {
        assert u[i..] == s[i..] + (t + tail);
        MatchStaysInside(s[i..], t + tail, raw, false, false);
      } else if i < |s| + |t| {
        assert u[i..] == t[i - |s|..] + tail;
        NoMatchInTemplate(t, i - |s|, tail, raw);
      } else {
        assert u[i..] == tail[i - |s| - |t|..];
      }
    }
  }

  /** Values of fewer than four characters are left alone. */
  lemma {:induction false} ShortValuesStay(text: string, pairs: seq<(string, string)>)
    requires forall i :: 0 <= i < |pairs| ==> |pairs[i].0| < 4
    ensures ReplaceAll(text, pairs) == text
    decreases |pairs|
  {
    if pairs != [] {
      ShortValuesStay(text, pairs[1..]);
    }
  }

  /** Text that does not end with a digit is replaced by itself, and what follows by itself. */
  lemma {:induction false} NumberSplit(a: string, raw: string, tail: string, template: string, before: bool)
    requires AllDigits(raw) && (a != "" ==> !IsDigit(a[|a| - 1]))
    ensures Replace(a + tail, raw, template, true, before) ==
      Replace(a, raw, template, true, before) + Replace(tail, raw, template, true, before && a == "")
    decreases |a|
  {
    if a == "" {
      assert a + tail == tail;
    } else {
      NumberStaysInside(a, raw, tail, before);
      if Matches(a, raw, true, before) {
        NumberSplit(a[|raw|..], raw, tail, template, true);
        SplitMatched(a, raw, tail, template, before);
      } else {
        NumberSplit(a[1..], raw, tail, template, IsDigit(a[0]));
        SplitKept(a, raw, tail, template, before);
      }
    }
  }

  lemma SplitMatched(a: string, raw: string, tail: string, template: string, before: bool)
    requires a != "" && AllDigits(raw) && |raw| < |a| && Matches(a, raw, true, before)
    requires Matches(a + tail, raw, true, before)
    requires Replace(a[|raw|..] + tail, raw, template, true, true) ==
      Replace(a[|raw|..], raw, template, true, true) + Replace(tail, raw, template, true, false)
    ensures Replace(a + tail, raw, template, true, before) ==
      Replace(a, raw, template, true, before) + Replace(tail, raw, template, true, false)
  {
    ReplaceStep(a, raw, template, true, before);
    ReplaceStep(a + tail, raw, template, true, before);
    assert (a + tail)[|raw|..] == a[|raw|..] + tail && IsDigit(raw[|raw| - 1]);
    Reassociate(template, Replace(a[|raw|..], raw, template, true, true), Replace(tail, raw, template, true, false));
  }

  lemma SplitKept(a: string, raw: string, tail: string, template: string, before: bool)
    requires a != "" && !IsDigit(a[|a| - 1]) && !Matches(a, raw, true, before)
    requires !Matches(a + tail, raw, true, before)
    requires Replace(a[1..] + tail, raw, template, true, IsDigit(a[0])) ==
      Replace(a[1..], raw, template, true, IsDigit(a[0])) +
      Replace(tail, raw, template, true, IsDigit(a[0]) && a[1..] == "")
    ensures Replace(a + tail, raw, template, true, before) ==
      Replace(a, raw, template, true, before) + Replace(tail, raw, template, true, false)
  {
    ReplaceStep(a, raw, template, true, before);
    ReplaceStep(a + tail, raw, template, true, before);
    assert (a + tail)[1..] == a[1..] + tail && (a + tail)[0] == a[0];
    assert a[1..] == "" ==> a[|a| - 1] == a[0];
    Reassociate([a[0]], Replace(a[1..], raw, template, true, IsDigit(a[0])),
                Replace(tail, raw, template, true, false));
  }

  /** Behind a digit a run of digits is kept. */
  lemma {:induction false} RunIsKept(run: string, raw: string, b: string, template: string)
    requires AllDigits(raw) && (forall i :: 0 <= i < |run| ==> IsDigit(run[i])) && NoDigitAt(b, 0)
    ensures Replace(run + b, raw, template, true, true) == run + Replace(b, raw, template, true, true)
    decreases |run|
  {
    if run == "" {
      assert run + b == b;
    } else {
      ReplaceStep(run + b, raw, template, true, true);
      assert (run + b)[1..] == run[1..] + b && (run + b)[0] == run[0];
      RunIsKept(run[1..], raw, b, template);
      assert run == [run[0]] + run[1..];
    }
  }

  /** A number of digits between other characters is replaced exactly when it is the whole value. */
  lemma NumbersReplacedWhole(a: string, run: string, b: string, raw: string, template: string)
    requires AllDigits(raw) && AllDigits(run) && NoDigitAt(b, 0) && (a != "" ==> !IsDigit(a[|a| - 1]))
    ensures Replace(a + (run + b), raw, template, true, false) ==
      Replace(a, raw, template, true, false) +
      ((if run == raw then template else run) + Replace(b, raw, template, true, true))
  {
    NumberSplit(a, raw, run + b, template, false);
    NumberAtFront(run, b, raw, template);
  }

  lemma NumberAtFront(run: string, b: string, raw: string, template: string)
    requires AllDigits(raw) && AllDigits(run) && NoDigitAt(b, 0)
    ensures Replace(run + b, raw, template, true, false) ==
      (if run == raw then template else run) + Replace(b, raw, template, true, true)
  {
    FirstOfRun(run, raw, b);
    ReplaceStep(run + b, raw, template, true, false);
    if run == raw {
      assert (run + b)[|raw|..] == b && IsDigit(raw[|raw| - 1]);
    } else {
      assert (run + b)[1..] == run[1..] + b && (run + b)[0] == run[0];
      RunIsKept(run[1..], raw, b, template);
      Reassociate([run[0]], run[1..], Replace(b, raw, template, true, true));
      assert run == [run[0]] + run[1..];
    }
  }

  lemma FirstOfRun(run: string, raw: string, b: string)
    requires AllDigits(raw) && AllDigits(run) && NoDigitAt(b, 0)
    ensures Matches(run + b, raw, true, false) <==> run == raw
  {
    var u := run + b;
    assert u[..|run|] == run;
    if Matches(u, raw, true, false) {
      if b != "" {
        DigitsStop(u, raw, |run|);
      }
      assert forall i :: 0 <= i < |run| ==> IsDigit(u[i]);
      assert |raw| == |run|;
    } else if run == raw {
      assert NoDigitAt(u, |raw|);
    }
  }

  /** A number cannot run across the end of a text that does not end with a digit. */
  lemma NumberStaysInside(a: string, raw: string, tail: string, before: bool)
    requires AllDigits(raw) && a != "" && !IsDigit(a[|a| - 1])
    ensures Matches(a + tail, raw, true, before) <==> Matches(a, raw, true, before)
    ensures Matches(a, raw, true, before) ==> |raw| < |a|
  {
    var u := a + tail;
    assert u[|a| - 1] == a[|a| - 1];
    if StartsWith(u, raw) {
      DigitsStop(u, raw, |a| - 1);
      assert u[..|raw|] == a[..|raw|];
    }
    if StartsWith(a, raw) {
      DigitsStop(a, raw, |a| - 1);
      assert u[..|raw|] == a[..|raw|];
    }
  }

  lemma DigitsStop(u: string, raw: string, n: nat)
    requires AllDigits(raw) && n < |u| && !IsDigit(u[n]) && StartsWith(u, raw)
    ensures |raw| <= n
  {
    assert forall i :: 0 <= i < |raw| ==> u[..|raw|][i] == u[i] && IsDigit(u[i]);
  }

  // ----- the round trip -----

  /** Every pair resolves to its raw value, which is free of braces. */
  ghost predicate GoodPairs(pairs: seq<(string, string)>, raws: set<string>, templates: set<string>,
                            values: map<string, string>) {
    forall i :: 0 <= i < |pairs| ==>
      var (raw, template) := pairs[i];
      && raw in raws && raw != "" && BraceFree(raw)
      && template in templates && template in values && values[template] == raw
  }

  /** Long enough to be replaced wherever it stands. */
  predicate Replaceable(raw: string) {
    |raw| >= 4 && !AllDigits(raw)
  }

  lemma MarkingFrees(m: Marked, raw: string, template: string)
    requires raw != ""
    ensures var r := MarkAll(m, raw, template, AllDigits(raw));
      && (forall other :: other != "" && Free(m, other) ==> Free(r, other))
      && (Replaceable(raw) ==> Free(r, raw))
  {
    forall other | other != "" && Free(m, other)
      ensures Free(MarkAll(m, raw, template, AllDigits(raw)), other)
    {
      MarkAllKeepsFree(m, raw, template, AllDigits(raw), other);
    }
    if Replaceable(raw) {
      MarkAllFree(m, raw, template);
    }
  }

  lemma {:induction false} ReplaceAllMeans(m: Marked, pairs: seq<(string, string)>, raws: set<string>,
                                           templates: set<string>, values: map<string, string>, original: string)
    returns (r: Marked)
    requires Good(m, templates) && Means(m, values, original) && GoodPairs(pairs, raws, templates, values)
    requires forall t :: t in templates ==> Sealed(t, raws)
    ensures ReplaceAll(Flatten(m), pairs) == Flatten(r) && Good(r, templates) && Means(r, values, original)
    ensures forall other :: other != "" && Free(m, other) ==> Free(r, other)
    ensures forall i :: 0 <= i < |pairs| && Replaceable(pairs[i].0) ==> Free(r, pairs[i].0)
    decreases |pairs|
  {
    if pairs == [] {
      r := m;
    } else {
      var (raw, template) := pairs[0];
      if |raw| < 4 {
        r := ReplaceAllMeans(m, pairs[1..], raws, templates, values, original);
      } else {
        ReplaceIsMarkAll(m, templates, raws, raw, template, AllDigits(raw));
        MarkAllMeans(m, templates, raw, template, AllDigits(raw), values, original);
        var marked := MarkAll(m, raw, template, AllDigits(raw));
        MarkingFrees(m, raw, template);
        r := ReplaceAllMeans(marked, pairs[1..], raws, templates, values, original);
      }
    }
  }

  /**
   * Resolving undoes replacing on text without braces, whatever the order of the pairs, when raw
   * values hold no brace, occur in no template, and templates are ones the resolver recognises. No
   * value of four or more characters that is not a number is left in the replaced text.
   */
  lemma ResolveUndoesReplaceAll(text: string, pairs: seq<(string, string)>, raws: set<string>, templates: set<string>,
                                values: map<string, string>)
    requires BraceFree(text) && GoodPairs(pairs, raws, templates, values)
    requires forall t :: t in templates ==> Sealed(t, raws)
    requires forall t :: t in templates ==> Recognised(t)
    ensures Resolve(ReplaceAll(text, pairs), values) == Some(text)
    ensures forall i :: 0 <= i < |pairs| && Replaceable(pairs[i].0) ==> !Occurs(ReplaceAll(text, pairs), pairs[i].0)
  {
    var m := ReplaceAllMeans(Plain(text), pairs, raws, templates, values, text);
    ResolveMarked(m, templates, values, text);
    forall i | 0 <= i < |pairs| && Replaceable(pairs[i].0)
      ensures !Occurs(ReplaceAll(text, pairs), pairs[i].0)
    {
      FreeText(m, templates, raws, pairs[i].0);
    }
  }
}
