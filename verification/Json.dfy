/**
 * JSON values and the text `JSON.stringify` prints for them. Objects keep the order of their
 * entries; numbers are the tokens the printer emits.
 */
module Json {
  import opened Text
  import opened Sorting

  datatype Value =
    | Null
    | Bool(b: bool)
    | Num(token: string)
    | Str(text: string)
    | Arr(items: seq<Value>)
    | Obj(entries: seq<(string, Value)>)

  predicate NumberChar(c: char) {
    '0' <= c <= '9' || c == '-' || c == '+' || c == '.' || c == 'e'
  }

  /** The shape `String(number)` has for a finite number: it opens with a digit or a minus sign. */
  predicate NumberToken(t: string) {
    && t != ""
    && ('0' <= t[0] <= '9' || t[0] == '-')
    && forall i :: 0 <= i < |t| ==> NumberChar(t[i])
  }

  /** Object keys are distinct and number tokens are number tokens, at every depth. */
  predicate WellFormed(v: Value) {
    match v
    case Num(t) => NumberToken(t)
    case Arr(items) => forall i :: 0 <= i < |items| ==> WellFormed(items[i])
    case Obj(entries) =>
      && DistinctKeys(entries)
      && forall i :: 0 <= i < |entries| ==> WellFormed(entries[i].1)
    case _ => true
  }

  function HexDigit(n: nat): char
    requires n < 16
  {
    "0123456789abcdef"[n]
  }

  /** One character inside a JSON string literal. */
  function Escape(c: char): (r: string)
    ensures r != "" && r[0] != '"'
  {
    if c == '"' then "\\\""
    else if c == '\\' then "\\\\"
    else if c == '\U{8}' then "\\b"
    else if c == '\U{c}' then "\\f"
    else if c == '\n' then "\\n"
    else if c == '\r' then "\\r"
    else if c == '\t' then "\\t"
    else if c < ' ' then "\\u00" + [HexDigit(c as nat / 16), HexDigit(c as nat % 16)]
    else [c]
  }

  function EscapeAll(text: string): string {
    if text == "" then "" else Escape(text[0]) + EscapeAll(text[1..])
  }

  /** `JSON.stringify` of a string. */
  function Quote(text: string): string {
    "\"" + EscapeAll(text) + "\""
  }

  /** `JSON.stringify`: entries in the order they stand. */
  function Print(v: Value): string
    decreases v, 1
  {
    match v
    case Null => "null"
    case Bool(b) => if b then "true" else "false"
    case Num(t) => t
    case Str(s) => Quote(s)
    case Arr(items) => "[" + Join(PrintItems(items), ",") + "]"
    case Obj(entries) => "{" + Join(PrintEntries(entries), ",") + "}"
  }

  function PrintItems(items: seq<Value>): (r: seq<string>)
    ensures |r| == |items|
    decreases items, 0
  {
    seq(|items|, i requires 0 <= i < |items| => Print(items[i]))
  }

  function PrintEntries(entries: seq<(string, Value)>): (r: seq<string>)
    ensures |r| == |entries|
    decreases entries, 0
  {
    seq(|entries|, i requires 0 <= i < |entries| => PrintEntry(entries[i]))
  }

  function PrintEntry(e: (string, Value)): string
    decreases e, 2
  {
    Quote(e.0) + ":" + Print(e.1)
  }

  // ----- the printed text determines the value -----

  /** What may follow a printed value inside a larger text. */
  predicate Stops(rest: string) {
    rest == "" || rest[0] in {',', ']', '}'}
  }

  function HexValue(c: char): nat {
    if '0' <= c <= '9' then c as nat - '0' as nat
    else if 'a' <= c <= 'f' then c as nat - 'a' as nat + 10
    else 0
  }

  /** Reads the character an escaped text opens with. */
  function Unescape(u: string): char
    requires u != ""
  {
    if u[0] != '\\' || |u| < 2 then u[0]
    else if u[1] == 'b' then '\U{8}'
    else if u[1] == 'f' then '\U{c}'
    else if u[1] == 'n' then '\n'
    else if u[1] == 'r' then '\r'
    else if u[1] == 't' then '\t'
    else if u[1] == 'u' && |u| >= 6 then (HexValue(u[4]) * 16 + HexValue(u[5])) as char
    else u[1]
  }

  lemma UnescapeEscape(c: char, s: string)
    ensures Unescape(Escape(c) + s) == c
  {
  }

  lemma EscapeDecodes(c: char, d: char, s: string, t: string)
    requires Escape(c) + s == Escape(d) + t
    ensures c == d && s == t
  {
    UnescapeEscape(c, s);
    UnescapeEscape(d, t);
    Cancel(Escape(c), s, Escape(d), t);
  }

  /** An escaped text closed by a quote opens with that quote only when it is empty. */
  lemma EscapeAllOpens(x: string, s: string)
    ensures var u := EscapeAll(x) + "\"" + s;
      if x == "" then u == "\"" + s
      else u == Escape(x[0]) + (EscapeAll(x[1..]) + "\"" + s) && u[0] != '"'
  {
  }

  lemma {:induction false} EscapeAllDecodes(x: string, y: string, s: string, t: string)
    requires EscapeAll(x) + "\"" + s == EscapeAll(y) + "\"" + t
    ensures x == y && s == t
    decreases |x| + |y|
  {
    EscapeAllOpens(x, s);
    EscapeAllOpens(y, t);
    if x == "" {
      Cancel("\"", s, "\"", t);
    } else {
      EscapeDecodes(x[0], y[0], EscapeAll(x[1..]) + "\"" + s, EscapeAll(y[1..]) + "\"" + t);
      EscapeAllDecodes(x[1..], y[1..], s, t);
      assert x == [x[0]] + x[1..] && y == [y[0]] + y[1..];
    }
  }

  /** Strips a shared opening and closing character. */
  lemma Unwrap(open: char, x: string, y: string, close: char, s: string, t: string)
    requires [open] + x + [close] + s == [open] + y + [close] + t
    ensures x + [close] + s == y + [close] + t
  {
    assert [open] + x + [close] + s == [open] + (x + [close] + s);
    assert [open] + y + [close] + t == [open] + (y + [close] + t);
    Cancel([open], x + [close] + s, [open], y + [close] + t);
  }

  lemma QuoteDecodes(x: string, y: string, s: string, t: string)
    requires Quote(x) + s == Quote(y) + t
    ensures x == y && s == t
  {
    Unwrap('"', EscapeAll(x), EscapeAll(y), '"', s, t);
    EscapeAllDecodes(x, y, s, t);
  }

  lemma {:induction false} NumberDecodes(x: string, y: string, s: string, t: string)
    requires NumberToken(x) && NumberToken(y) && Stops(s) && Stops(t)
    requires x + s == y + t
    ensures x == y && s == t
  {
    var u := x + s;
    assert forall i :: 0 <= i < |y| ==> u[i] == y[i] && NumberChar(u[i]);
    assert forall i :: 0 <= i < |x| ==> u[i] == x[i] && NumberChar(u[i]);
    assert |x| < |u| ==> u[|x|] == s[0] && !NumberChar(u[|x|]);
    assert |y| < |u| ==> u[|y|] == t[0] && !NumberChar(u[|y|]);
    Cancel(x, s, y, t);
  }

  /** The first character tells the kind of value. */
  function Kind(c: char): nat {
    if c == 'n' then 0
    else if c == 't' || c == 'f' then 1
    else if c == '"' then 3
    else if c == '[' then 4
    else if c == '{' then 5
    else if c in {',', ']', '}'} then 6
    else 2
  }

  function KindOf(v: Value): nat {
    match v
    case Null => 0
    case Bool(_) => 1
    case Num(_) => 2
    case Str(_) => 3
    case Arr(_) => 4
    case Obj(_) => 5
  }

  lemma FirstCharacter(v: Value)
    requires WellFormed(v)
    ensures Print(v) != "" && Kind(Print(v)[0]) == KindOf(v)
  {
  }

  /**
   * Unique decodability: a printed value followed by a delimiter is the print of one value only,
   * at any nesting depth.
   */
  lemma {:induction false} PrintDecodes(a: Value, b: Value, s: string, t: string)
    requires WellFormed(a) && WellFormed(b) && Stops(s) && Stops(t)
    requires Print(a) + s == Print(b) + t
    ensures a == b && s == t
    decreases a, 1
  {
    FirstCharacter(a);
    FirstCharacter(b);
    assert Print(a)[0] == (Print(a) + s)[0] == (Print(b) + t)[0] == Print(b)[0];
    match a {
      case Null =>
        Cancel(Print(a), s, Print(b), t);
      case Bool(x) =>
        Cancel(Print(a), s, Print(b), t);
      case Num(x) =>
        NumberDecodes(x, b.token, s, t);
      case Str(x) =>
        QuoteDecodes(x, b.text, s, t);
      case Arr(items) =>
        Unwrap('[', Join(PrintItems(items), ","), Join(PrintItems(b.items), ","), ']', s, t);
        ItemsDecode(items, b.items, s, t);
      case Obj(entries) =>
        Unwrap('{', Join(PrintEntries(entries), ","), Join(PrintEntries(b.entries), ","), '}', s, t);
        EntriesDecode(entries, b.entries, s, t);
    }
  }

  /** The text after the first element of a joined list. */
  function Rest(texts: seq<string>, close: string): string
    requires texts != []
  {
    if |texts| == 1 then close else "," + Join(texts[1..], ",") + close
  }

  lemma JoinOpens(texts: seq<string>, close: char, s: string)
    requires texts != [] && texts[0] != ""
    ensures var u := Join(texts, ",") + [close] + s;
      u == texts[0] + Rest(texts, [close] + s) && u[0] == texts[0][0]
  {
    if |texts| > 1 {
      var j := Join(texts[1..], ",");
      Reassociate(texts[0] + "," + j, [close], s);
      assert texts[0] + "," + j + ([close] + s) == texts[0] + ("," + j + ([close] + s));
    } else {
      Reassociate(texts[0], [close], s);
    }
  }

  lemma RestDecodes(xs: seq<string>, ys: seq<string>, close: char, s: string, t: string)
    requires xs != [] && ys != [] && close in {']', '}'}
    requires Rest(xs, [close] + s) == Rest(ys, [close] + t)
    ensures |xs| == 1 <==> |ys| == 1
    ensures |xs| == 1 ==> s == t
    ensures |xs| > 1 ==> Join(xs[1..], ",") + [close] + s == Join(ys[1..], ",") + [close] + t
  {
    assert Rest(xs, [close] + s)[0] == Rest(ys, [close] + t)[0];
    if |xs| == 1 {
      Cancel([close], s, [close], t);
    } else {
      var x, y := Join(xs[1..], ","), Join(ys[1..], ",");
      assert "," + x + ([close] + s) == "," + x + [close] + s;
      assert "," + y + ([close] + t) == "," + y + [close] + t;
      Unwrap(',', x, y, close, s, t);
    }
  }

  lemma PrefixCharacter(p: string, s: string)
    requires p != ""
    ensures (p + s)[0] == p[0]
  {
  }

  lemma FirstIsNotBracket(v: Value)
    requires WellFormed(v)
    ensures Print(v) != "" && Print(v)[0] != ']'
  {
    FirstCharacter(v);
  }

  lemma ItemsOpen(xs: seq<Value>, s: string)
    requires forall i :: 0 <= i < |xs| ==> WellFormed(xs[i])
    ensures xs == [] ==> Join(PrintItems(xs), ",") + "]" + s == "]" + s
    ensures xs != [] ==> Join(PrintItems(xs), ",") + "]" + s == Print(xs[0]) + Rest(PrintItems(xs), "]" + s)
    ensures xs != [] ==> Print(xs[0]) != "" && Print(xs[0])[0] != ']'
  {
    if xs != [] {
      FirstIsNotBracket(xs[0]);
      var texts := PrintItems(xs);
      assert texts[0] == Print(xs[0]);
      JoinOpens(texts, ']', s);
    } else {
      assert PrintItems(xs) == [];
    }
  }

  lemma {:induction false} ItemsDecode(xs: seq<Value>, ys: seq<Value>, s: string, t: string)
    requires forall i :: 0 <= i < |xs| ==> WellFormed(xs[i])
    requires forall i :: 0 <= i < |ys| ==> WellFormed(ys[i])
    requires Join(PrintItems(xs), ",") + "]" + s == Join(PrintItems(ys), ",") + "]" + t
    ensures xs == ys && s == t
    decreases xs, 0
  {
    ItemsOpen(xs, s);
    ItemsOpen(ys, t);
    if xs != [] {
      PrefixCharacter(Print(xs[0]), Rest(PrintItems(xs), "]" + s));
    }
    if ys != [] {
      PrefixCharacter(Print(ys[0]), Rest(PrintItems(ys), "]" + t));
    }
    if xs == [] {
      Cancel("]", s, "]", t);
    } else {
      PrintDecodes(xs[0], ys[0], Rest(PrintItems(xs), "]" + s), Rest(PrintItems(ys), "]" + t));
      RestDecodes(PrintItems(xs), PrintItems(ys), ']', s, t);
      assert xs == [xs[0]] + xs[1..] && ys == [ys[0]] + ys[1..];
      if |xs| > 1 {
        assert PrintItems(xs)[1..] == PrintItems(xs[1..]);
        assert PrintItems(ys)[1..] == PrintItems(ys[1..]);
        ItemsDecode(xs[1..], ys[1..], s, t);
      }
    }
  }

  lemma {:induction false} EntryDecodes(x: (string, Value), y: (string, Value), s: string, t: string)
    requires WellFormed(x.1) && WellFormed(y.1) && Stops(s) && Stops(t)
    requires PrintEntry(x) + s == PrintEntry(y) + t
    ensures x == y && s == t
    decreases x, 2
  {
    EntrySplits(x, s);
    EntrySplits(y, t);
    QuoteDecodes(x.0, y.0, ":" + (Print(x.1) + s), ":" + (Print(y.1) + t));
    Cancel(":", Print(x.1) + s, ":", Print(y.1) + t);
    PrintDecodes(x.1, y.1, s, t);
  }

  lemma EntrySplits(x: (string, Value), s: string)
    ensures PrintEntry(x) + s == Quote(x.0) + (":" + (Print(x.1) + s))
  {
  }

  lemma EntriesOpen(xs: seq<(string, Value)>, s: string)
    ensures var u := Join(PrintEntries(xs), ",") + "}" + s;
      if xs == [] then u == "}" + s
      else u == PrintEntry(xs[0]) + Rest(PrintEntries(xs), "}" + s) && u[0] != '}'
  {
    if xs != [] {
      JoinOpens(PrintEntries(xs), '}', s);
    }
  }

  lemma {:induction false} EntriesDecode(xs: seq<(string, Value)>, ys: seq<(string, Value)>, s: string, t: string)
    requires forall i :: 0 <= i < |xs| ==> WellFormed(xs[i].1)
    requires forall i :: 0 <= i < |ys| ==> WellFormed(ys[i].1)
    requires Join(PrintEntries(xs), ",") + "}" + s == Join(PrintEntries(ys), ",") + "}" + t
    ensures xs == ys && s == t
    decreases xs, 0
  {
    EntriesOpen(xs, s);
    EntriesOpen(ys, t);
    if xs == [] {
      Cancel("}", s, "}", t);
    } else {
      EntryDecodes(xs[0], ys[0], Rest(PrintEntries(xs), "}" + s), Rest(PrintEntries(ys), "}" + t));
      RestDecodes(PrintEntries(xs), PrintEntries(ys), '}', s, t);
      assert xs == [xs[0]] + xs[1..] && ys == [ys[0]] + ys[1..];
      if |xs| > 1 {
        assert PrintEntries(xs)[1..] == PrintEntries(xs[1..]);
        assert PrintEntries(ys)[1..] == PrintEntries(ys[1..]);
        EntriesDecode(xs[1..], ys[1..], s, t);
      }
    }
  }

  /** `JSON.stringify` is injective. */
  lemma PrintInjective(a: Value, b: Value)
    requires WellFormed(a) && WellFormed(b)
    ensures Print(a) == Print(b) <==> a == b
  {
    if Print(a) == Print(b) {
      assert Print(a) + "" == Print(a) && Print(b) + "" == Print(b);
      PrintDecodes(a, b, "", "");
    }
  }

  // ----- size, for recursion over sorted entries -----

  function Size(v: Value): nat
    decreases v, 1
  {
    match v
    case Arr(items) => 1 + SizeItems(items)
    case Obj(entries) => 1 + SizeEntries(entries)
    case _ => 1
  }

  function SizeItems(items: seq<Value>): nat
    decreases items, 0
  {
    if items == [] then 0 else Size(items[0]) + SizeItems(items[1..])
  }

  function SizeEntries(entries: seq<(string, Value)>): nat
    decreases entries, 0
  {
    if entries == [] then 0 else SizeEntry(entries[0]) + SizeEntries(entries[1..])
  }

  function SizeEntry(e: (string, Value)): nat
    decreases e, 2
  {
    Size(e.1)
  }

  lemma {:induction false} SizeInsert(p: (string, Value), s: seq<(string, Value)>)
    ensures SizeEntries(Insert(p, s)) == SizeEntry(p) + SizeEntries(s)
    decreases |s|
  {
    if s == [] || !Less(s[0].0, p.0) {
      assert ([p] + s)[1..] == s;
    } else {
      SizeInsert(p, s[1..]);
      assert ([s[0]] + Insert(p, s[1..]))[1..] == Insert(p, s[1..]);
    }
  }

  lemma {:induction false} SizeSorted(s: seq<(string, Value)>)
    ensures SizeEntries(SortPairs(s)) == SizeEntries(s)
    decreases |s|
  {
    if s != [] {
      SizeSorted(s[1..]);
      SizeInsert(s[0], SortPairs(s[1..]));
    }
  }

  lemma {:induction false} SizeOfItem(items: seq<Value>, i: nat)
    requires i < |items|
    ensures Size(items[i]) <= SizeItems(items)
  {
    if i > 0 {
      SizeOfItem(items[1..], i - 1);
    }
  }

  lemma {:induction false} SizeOfEntry(entries: seq<(string, Value)>, i: nat)
    requires i < |entries|
    ensures Size(entries[i].1) <= SizeEntries(entries)
  {
    if i > 0 {
      SizeOfEntry(entries[1..], i - 1);
    }
  }
}
