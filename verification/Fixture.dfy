/** `canonicalJson`: the one-pass printer whose text decides whether two recordings are equal. */
module Fixture {
  import opened Text
  import opened Sorting
  import opened Json
  import opened Canonical

  function CanonicalJson(v: Value): string
    decreases v, 1
  {
    match v
    case Arr(items) => "[" + Join(CanonicalTexts(items), ",") + "]"
    case Obj(entries) =>
      var es := SortPairs(entries);
      "{" + Join(seq(|es|, i requires 0 <= i < |es| => CanonicalMember(es[i])), ",") + "}"
    case _ => Print(v)
  }

  function CanonicalTexts(items: seq<Value>): seq<string>
    decreases items, 0
  {
    seq(|items|, i requires 0 <= i < |items| => CanonicalJson(items[i]))
  }

  function CanonicalMember(e: (string, Value)): string
    decreases e, 2
  {
    Quote(e.0) + ":" + CanonicalJson(e.1)
  }

  /** Sorting while printing prints the canonical form. */
  lemma {:induction false} PrintsCanonicalForm(v: Value, key: Key)
    ensures CanonicalJson(v) == Print(Canonicalize(v, key, {}))
    decreases v, 1
  {
    match v {
      case Arr(items) =>
        PrintsCanonicalItems(items);
      case Obj(entries) =>
        var es := SortPairs(entries);
        var ces := Canonicalize(v, key, {}).entries;
        var texts := seq(|es|, i requires 0 <= i < |es| => CanonicalMember(es[i]));
        forall i | 0 <= i < |es|
          ensures texts[i] == PrintEntries(ces)[i]
        {
          assert es[i] in entries;
          PrintsCanonicalForm(es[i].1, Some(es[i].0));
          assert ces[i] == CanonicalEntry(es[i], {});
          assert PrintEntries(ces)[i] == PrintEntry(ces[i]);
        }
        assert texts == PrintEntries(ces);
      case _ =>
    }
  }

  lemma {:induction false} PrintsCanonicalItems(items: seq<Value>)
    ensures CanonicalTexts(items) == PrintItems(CanonicalItems(items, {}))
    decreases items, 0
  {
    forall i | 0 <= i < |items|
      ensures CanonicalTexts(items)[i] == PrintItems(CanonicalItems(items, {}))[i]
    {
      PrintsCanonicalForm(items[i], None);
    }
  }

  /** Equal texts exactly for values that differ at most in object key order. */
  lemma CanonicalJsonDecidesEquality(a: Value, b: Value)
    requires WellFormed(a) && WellFormed(b)
    ensures CanonicalJson(a) == CanonicalJson(b) <==> Same(a, b)
  {
    PrintsCanonicalForm(a, None);
    PrintsCanonicalForm(b, None);
    CanonicalWellFormed(a, None, {});
    CanonicalWellFormed(b, None, {});
    PrintInjective(Canonicalize(a, None, {}), Canonicalize(b, None, {}));
    CanonicalIffEquivalent(a, b, None, {});
  }
}
