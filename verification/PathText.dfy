/** Outlines as SVG path text: the printer with two decimals and the tokenising parser. */
module PathText {
  import opened Text
  import opened Curves
  import opened CurveFit
  import opened Reals
  import opened Fillets

  // ----- printing -----

  /** A coordinate in hundredths, ties to even. */
  function Hundredths(x: real): int {
    var y := x * 100.0;
    var low := y.Floor;
    var over := y - low as real;
    if over < 0.5 || (over == 0.5 && low % 2 == 0) then low else low + 1
  }

  /** The nearest number of hundredths, and of two equally near ones the even one. */
  lemma HundredthsRound(x: real, n: int)
    ensures -0.5 < x * 100.0 - n as real < 0.5 ==> Hundredths(x) == n
    ensures x * 100.0 == n as real + 0.5 ==> Hundredths(x) == if n % 2 == 0 then n else n + 1
  {
  }

  function Magnitude(n: int): nat {
    if n < 0 then -n else n
  }

  function TwoDigits(n: nat): (r: string)
    requires n < 100
    ensures |r| == 2 && IsDigit(r[0]) && IsDigit(r[1])
  {
    [Digit(n / 10), Digit(n % 10)]
  }

  /** The number without its sign. */
  function Unsigned(m: nat): string {
    Decimal(m / 100) + "." + TwoDigits(m % 100)
  }

  /** `f'{x:.2f}'`: a negative coordinate keeps its sign even when it rounds to zero. */
  function NumberText(x: real): string {
    (if x < 0.0 then "-" else "") + Unsigned(Magnitude(Hundredths(x)))
  }

  function PairText(p: Point): string {
    NumberText(p.x) + " " + NumberText(p.y)
  }

  function SegmentText(c: Cubic): string {
    " C" + PairText(c.p1) + " " + PairText(c.p2) + " " + PairText(c.p3)
  }

  function SegmentsText(chain: seq<Cubic>): string {
    if chain == [] then "" else SegmentText(chain[0]) + SegmentsText(chain[1..])
  }

  function ToD(chain: seq<Cubic>): string
    requires chain != []
  {
    "M" + PairText(chain[0].p0) + SegmentsText(chain) + " Z"
  }

  method WritePath(chain: seq<Cubic>) returns (d: string)
    requires chain != []
    ensures d == ToD(chain)
  {
    d := "M" + PairText(chain[0].p0);
    for k := 0 to |chain|
      invariant d + SegmentsText(chain[k..]) == "M" + PairText(chain[0].p0) + SegmentsText(chain)
    {
      assert chain[k..][0] == chain[k] && chain[k..][1..] == chain[k + 1..];
      Reassociate(d, SegmentText(chain[k]), SegmentsText(chain[k + 1..]));
      d := d + SegmentText(chain[k]);
    }
    assert d + "" == d;
    d := d + " Z";
  }

  // ----- tokens -----

  predicate IsCommand(c: char) {
    c in "MCLZ"
  }

  function ExponentLength(s: string): (n: nat)
    ensures n <= |s|
  {
    if s == "" || s[0] != 'e' then 0
    else
      var sign := if |s| > 1 && s[1] == '-' then 1 else 0;
      var digits := DigitRun(s[1 + sign..]);
      if digits > 0 then 1 + sign + digits else 0
  }

  /** The digits of a number that starts here, with an optional point before the last group. */
  function MantissaLength(s: string): (n: nat)
    ensures n <= |s|
  {
    var whole := DigitRun(s);
    var rest := s[whole..];
    if rest != "" && rest[0] == '.' && DigitRun(rest[1..]) > 0 then whole + 1 + DigitRun(rest[1..])
    else whole
  }

  /** The length of the number at the start of the text, or 0. */
  function NumberLength(s: string): (n: nat)
    ensures n <= |s|
  {
    var sign := if s != "" && s[0] == '-' then 1 else 0;
    var m := MantissaLength(s[sign..]);
    if m == 0 then 0 else sign + m + ExponentLength(s[sign + m..])
  }

  /** Commands and numbers in order; every other character separates. */
  function Tokens(s: string): seq<string>
    decreases |s|
  {
    if s == "" then []
    else if IsCommand(s[0]) then [[s[0]]] + Tokens(s[1..])
    else
      var n := NumberLength(s);
      if n > 0 then [s[..n]] + Tokens(s[n..]) else Tokens(s[1..])
  }

  // ----- numbers -----

  function Natural(s: string): nat {
    if s == "" then 0
    else
      var c := s[|s| - 1];
      10 * Natural(s[..|s| - 1]) + if IsDigit(c) then c as nat - '0' as nat else 0
  }

  function Power10(k: nat): (r: real)
    ensures r >= 1.0
  {
    if k == 0 then 1.0 else 10.0 * Power10(k - 1)
  }

  function Exponent(s: string): real {
    if s == "" || s[0] != 'e' then 1.0
    else if |s| > 1 && s[1] == '-' then 1.0 / Power10(Natural(s[2..]))
    else Power10(Natural(s[1..]))
  }

  function UnsignedValue(s: string): real {
    var whole := DigitRun(s);
    var rest := s[whole..];
    if rest != "" && rest[0] == '.' then
      var digits := DigitRun(rest[1..]);
      var n := Natural(s[..whole] + rest[1..1 + digits]);
      n as real / Power10(digits) * Exponent(rest[1 + digits..])
    else Natural(s[..whole]) as real * Exponent(rest)
  }

  /** The value of a number token. */
  function Float(s: string): real {
    if s != "" && s[0] == '-' then -UnsignedValue(s[1..]) else UnsignedValue(s)
  }

  // ----- parsing -----

  datatype Outcome = Parsed(segs: seq<Cubic>) | Failed | Hangs

  /** What the parser remembers between commands. */
  datatype Pen = Pen(cur: Option<Point>, start: Option<Point>, cmd: Option<char>, segs: seq<Cubic>)

  const NEW_PEN := Pen(None, None, None, [])

  predicate IsCommandToken(t: string) {
    |t| == 1 && IsCommand(t[0])
  }

  /** The next `k` coordinate pairs, if that many numbers follow. */
  predicate HasPairs(toks: seq<string>, k: nat) {
    2 * k <= |toks| && forall j :: 0 <= j < 2 * k ==> !IsCommandToken(toks[j])
  }

  function PairAt(toks: seq<string>, k: nat): Point
    requires 2 * k + 1 < |toks|
  {
    Point(Float(toks[2 * k]), Float(toks[2 * k + 1]))
  }

  function Line(a: Point, b: Point): Cubic {
    var d := Minus(b, a);
    Cubic(a, Plus(a, Times(d, 1.0 / 3.0)), Plus(a, Times(d, 2.0 / 3.0)), b)
  }

  function Closing(length: Point -> real, cur: Point, start: Point): seq<Cubic> {
    if length(Minus(cur, start)) > 0.000001 then [Line(cur, start)] else []
  }

  /** One turn of the parser's loop: how far it gets and what it then remembers, or how it ends. */
  datatype Turn = Go(pen: Pen, used: nat) | Stop(outcome: Outcome)

  function Step(length: Point -> real, toks: seq<string>, pen: Pen): (r: Turn)
    requires toks != []
    ensures r.Go? ==> 0 < r.used <= |toks|
    ensures r.Stop? ==> !r.outcome.Parsed?
  {
    var letter := IsCommandToken(toks[0]);
    var cmd := if letter then Some(toks[0][0]) else pen.cmd;
    var skip := if letter then 1 else 0;
    Obey(length, toks[skip..], pen, cmd, skip)
  }

  /** Carries out a command whose numbers come first in `rest`, after `skip` tokens. */
  function Obey(length: Point -> real, rest: seq<string>, pen: Pen, cmd: Option<char>, skip: nat): (r: Turn)
    ensures r.Go? ==> skip <= r.used <= skip + |rest| && r.used > 0
    ensures r.Stop? ==> !r.outcome.Parsed?
  {
    if cmd == Some('M') then
      if !HasPairs(rest, 1) then Stop(Failed)
      else
        var p := PairAt(rest, 0);
        Go(Pen(Some(p), Some(p), Some('L'), pen.segs), skip + 2)
    else if cmd == Some('C') then
      if !HasPairs(rest, 3) || pen.cur.None? then Stop(Failed)
      else
        var c := Cubic(pen.cur.value, PairAt(rest, 0), PairAt(rest, 1), PairAt(rest, 2));
        Go(pen.(cur := Some(c.p3), cmd := cmd, segs := pen.segs + [c]), skip + 6)
    else if cmd == Some('L') then
      if !HasPairs(rest, 1) || pen.cur.None? then Stop(Failed)
      else
        var p := PairAt(rest, 0);
        Go(pen.(cur := Some(p), cmd := cmd, segs := pen.segs + [Line(pen.cur.value, p)]), skip + 2)
    else if skip == 0 then Stop(Hangs)
    else if pen.cur.None? || pen.start.None? then Stop(Failed)
    else
      var more := Closing(length, pen.cur.value, pen.start.value);
      Go(pen.(cur := pen.start, cmd := cmd, segs := pen.segs + more), skip)
  }

  /** The meaning of a token list: what the parser's loop makes of it. */
  function Run(length: Point -> real, toks: seq<string>, pen: Pen): Outcome
    decreases |toks|
  {
    if toks == [] then Parsed(pen.segs)
    else
      match Step(length, toks, pen)
      case Go(next, used) => Run(length, toks[used..], next)
      case Stop(outcome) => outcome
  }

  function Moved(c: Cubic, off: Point): Cubic {
    Cubic(Plus(c.p0, off), Plus(c.p1, off), Plus(c.p2, off), Plus(c.p3, off))
  }

  function AllMoved(segs: seq<Cubic>, off: Point): (r: seq<Cubic>)
    ensures |r| == |segs|
  {
    seq(|segs|, i requires 0 <= i < |segs| => Moved(segs[i], off))
  }

  function Offset(r: Outcome, off: Point): Outcome {
    if r.Parsed? then Parsed(AllMoved(r.segs, off)) else r
  }

  lemma RunGoes(length: Point -> real, toks: seq<string>, pen: Pen, next: Pen, used: nat)
    requires toks != [] && Step(length, toks, pen) == Go(next, used)
    ensures Run(length, toks, pen) == Run(length, toks[used..], next)
  {
  }

  /** One turn of the loop leaves the meaning of the rest as it was, or ends it. */
  method TakeTurn(length: Point -> real, toks: seq<string>, pen: Pen) returns (turn: Turn)
    requires toks != []
    ensures turn.Go? ==> 0 < turn.used <= |toks|
    ensures turn.Go? ==> Run(length, toks, pen) == Run(length, toks[turn.used..], turn.pen)
    ensures turn.Stop? ==> !turn.outcome.Parsed? && Run(length, toks, pen) == turn.outcome
  {
    turn := Step(length, toks, pen);
    if turn.Go? {
      RunGoes(length, toks, pen, turn.pen, turn.used);
    }
  }

  method RunTokens(length: Point -> real, toks: seq<string>) returns (r: Outcome)
    ensures r == Run(length, toks, NEW_PEN)
  {
    var rest, pen := toks, NEW_PEN;
    while rest != []
      invariant Run(length, rest, pen) == Run(length, toks, NEW_PEN)
      decreases |rest|
    {
      var turn := TakeTurn(length, rest, pen);
      if turn.Stop? {
        return turn.outcome;
      }
      rest, pen := rest[turn.used..], turn.pen;
    }
    r := Parsed(pen.segs);
  }

  /** The parser. `Hangs` stands for the loop that no longer advances: a number where none is read. */
  method ParseCubics(length: Point -> real, d: string, off: Point) returns (r: Outcome)
    ensures r == Offset(Run(length, Tokens(d), NEW_PEN), off)
  {
    var toks := Tokens(d);
    r := RunTokens(length, toks);
    if r.Parsed? {
      r := Parsed(AllMoved(r.segs, off));
    }
  }

  // ----- the translation -----

  lemma BlendShifts(a: real, b: real, c: real, d: real, o: real, t: real)
    ensures Blend(a + o, b + o, c + o, d + o, t) == Blend(a, b, c, d, t) + o
  {
    BlendOfOne(o, t);
    BlendAdds(a, b, c, d, o, t);
  }

  lemma BlendOfOne(o: real, t: real)
    ensures Blend(o, o, o, o, t) == o
  {
  }

  lemma BlendAdds(a: real, b: real, c: real, d: real, o: real, t: real)
    ensures Blend(a + o, b + o, c + o, d + o, t) == Blend(a, b, c, d, t) + Blend(o, o, o, o, t)
  {
  }

  /** A moved segment traces the moved curve. */
  lemma MovedTraces(c: Cubic, off: Point, t: real)
    ensures At(Moved(c, off), t) == Plus(At(c, t), off)
  {
    BlendShifts(c.p0.x, c.p1.x, c.p2.x, c.p3.x, off.x, t);
    BlendShifts(c.p0.y, c.p1.y, c.p2.y, c.p3.y, off.y, t);
  }

  // ----- lines -----

  /** The segment runs from `p` to `q` in a straight line and at constant speed. */
  ghost predicate Straight(seg: Cubic, p: Point, q: Point) {
    forall t :: At(seg, t) == Plus(p, Times(Minus(q, p), t))
  }

  lemma Thirds(p: real, q: real, t: real)
    ensures Blend(p, p + (q - p) * (1.0 / 3.0), p + (q - p) * (2.0 / 3.0), q, t) == p + (q - p) * t
  {
    var d := q - p;
    assert q == p + d;
    ThirdsFrom(p, d, t);
  }

  lemma ThirdsFrom(p: real, d: real, t: real)
    ensures Blend(p, p + d * (1.0 / 3.0), p + d * (2.0 / 3.0), p + d, t) == p + d * t
  {
  }

  lemma LineIsStraight(p: Point, q: Point)
    ensures Straight(Line(p, q), p, q)
  {
    forall t
      ensures At(Line(p, q), t) == Plus(p, Times(Minus(q, p), t))
    {
      Thirds(p.x, q.x, t);
      Thirds(p.y, q.y, t);
    }
  }

  /** Two numbers after `L`, or after a move or another line, add the straight segment to that point. */
  lemma LineReads(length: Point -> real, x: string, y: string, rest: seq<string>, pen: Pen, p: Point, letter: bool)
    returns (seg: Cubic)
    requires !IsCommandToken(x) && !IsCommandToken(y) && pen.cur == Some(p) && (letter || pen.cmd == Some('L'))
    ensures var q, toks := Point(Float(x), Float(y)), (if letter then ["L"] else []) + [x, y] + rest;
      && Straight(seg, p, q)
      && Run(length, toks, pen) ==
           Run(length, rest, pen.(cur := Some(q), cmd := Some('L'), segs := pen.segs + [seg]))
  {
    var q, toks := Point(Float(x), Float(y)), (if letter then ["L"] else []) + [x, y] + rest;
    var skip := if letter then 1 else 0;
    seg := Line(p, q);
    LineIsStraight(p, q);
    assert IsCommandToken("L");
    assert toks[0] == (if letter then "L" else x) && toks[skip..] == [x, y] + rest;
    assert toks[skip + 2..] == rest;
    assert HasPairs([x, y] + rest, 1) && PairAt([x, y] + rest, 0) == q;
  }

  /** `Z` returns to the start of the path, along a straight segment unless it is already there. */
  lemma ClosingReads(length: Point -> real, rest: seq<string>, pen: Pen, p: Point, start: Point)
    returns (more: seq<Cubic>)
    requires pen.cur == Some(p) && pen.start == Some(start)
    ensures Run(length, ["Z"] + rest, pen) ==
      Run(length, rest, pen.(cur := Some(start), cmd := Some('Z'), segs := pen.segs + more))
    ensures if length(Minus(p, start)) > 0.000001 then |more| == 1 && Straight(more[0], p, start) else more == []
  {
    var toks := ["Z"] + rest;
    more := Closing(length, p, start);
    LineIsStraight(p, start);
    assert IsCommandToken("Z") && toks[0] == "Z" && toks[1..] == rest;
  }

  // ----- a printed number reads back as its hundredths -----

  lemma NaturalAppend(s: string, c: char)
    requires IsDigit(c)
    ensures Natural(s + [c]) == 10 * Natural(s) + (c as nat - '0' as nat)
  {
    assert (s + [c])[..|s|] == s;
  }

  lemma DigitValue(n: nat)
    requires n < 10
    ensures IsDigit(Digit(n)) && Digit(n) as nat - '0' as nat == n
  {
  }

  lemma {:induction false} NaturalOfDecimal(n: nat)
    ensures Natural(Decimal(n)) == n
  {
    if n < 10 {
      DigitValue(n);
      NaturalAppend("", Digit(n));
      assert "" + [Digit(n)] == [Digit(n)];
    } else {
      NaturalOfDecimal(n / 10);
      DigitValue(n % 10);
      NaturalAppend(Decimal(n / 10), Digit(n % 10));
    }
  }

  lemma NaturalOfUnsigned(m: nat)
    ensures Natural(Decimal(m / 100) + TwoDigits(m % 100)) == m
  {
    var s, r := Decimal(m / 100), m % 100;
    NaturalOfDecimal(m / 100);
    DigitValue(r / 10);
    DigitValue(r % 10);
    NaturalAppend(s, Digit(r / 10));
    NaturalAppend(s + [Digit(r / 10)], Digit(r % 10));
    assert s + TwoDigits(r) == s + [Digit(r / 10)] + [Digit(r % 10)];
  }

  /** The parts of a printed number, with any text after it. */
  lemma UnsignedParts(m: nat, tail: string)
    requires tail == "" || !IsDigit(tail[0])
    ensures var s, w := Unsigned(m) + tail, Decimal(m / 100);
      && DigitRun(s) == |w| && s[..|w|] == w && |s| > |w| && s[|w|] == '.'
      && DigitRun(s[|w|..][1..]) == 2 && s[|w|..][1..3] == TwoDigits(m % 100) && s[|w|..][3..] == tail
      && |Unsigned(m)| == |w| + 3
  {
    var w, z := Decimal(m / 100), TwoDigits(m % 100);
    var s := Unsigned(m) + tail;
    assert s == w + ("." + z + tail);
    DigitRunOf(w, "." + z + tail);
    assert s[|w|..] == "." + z + tail;
    assert s[|w|..][1..] == z + tail;
    DigitRunOf(z, tail);
  }

  lemma UnsignedReadsBack(m: nat)
    ensures UnsignedValue(Unsigned(m)) == m as real / 100.0
  {
    var s := Unsigned(m);
    assert s + "" == s;
    UnsignedParts(m, "");
    NaturalOfUnsigned(m);
    var w := Decimal(m / 100);
    assert s[|w|..][1 + 2..] == "";
    HundredIsPower();
    assert UnsignedValue(s) == m as real / Power10(2) * 1.0;
  }

  lemma HundredIsPower()
    ensures Power10(2) == 100.0
  {
    assert Power10(1) == 10.0;
  }

  function Rounded(x: real): real {
    Hundredths(x) as real / 100.0
  }

  lemma NumberReadsBack(x: real)
    ensures Float(NumberText(x)) == Rounded(x)
  {
    var n := Hundredths(x);
    var u := Unsigned(Magnitude(n));
    UnsignedReadsBack(Magnitude(n));
    if x < 0.0 {
      assert n <= 0;
      assert ("-" + u)[1..] == u;
      assert -(Magnitude(n) as real / 100.0) == n as real / 100.0;
    } else {
      assert n >= 0;
      assert "" + u == u;
    }
  }

  // ----- the tokens of a printed outline -----

  /** Text that ends the number before it. */
  predicate Separates(tail: string) {
    tail == "" || tail[0] == ' '
  }

  lemma UnsignedLength(m: nat, tail: string)
    requires Separates(tail)
    ensures MantissaLength(Unsigned(m) + tail) == |Unsigned(m)|
  {
    UnsignedParts(m, tail);
  }

  lemma PositiveLength(u: string, tail: string)
    requires u != "" && u[0] != '-' && MantissaLength(u + tail) == |u| && Separates(tail)
    ensures NumberLength(u + tail) == |u|
  {
    assert (u + tail)[0..] == u + tail && (u + tail)[|u|..] == tail;
  }

  lemma NegativeLength(u: string, tail: string)
    requires u != "" && MantissaLength(u + tail) == |u| && Separates(tail)
    ensures NumberLength("-" + u + tail) == 1 + |u|
  {
    var s := "-" + u + tail;
    assert s[1..] == u + tail && s[1 + |u|..] == tail;
  }

  lemma UnsignedStarts(m: nat)
    ensures |Unsigned(m)| > 3 && IsDigit(Unsigned(m)[0])
  {
    var w := Decimal(m / 100);
    assert Unsigned(m)[0] == w[0];
  }

  lemma NumberTokenLength(x: real, tail: string)
    requires Separates(tail)
    ensures NumberLength(NumberText(x) + tail) == |NumberText(x)| > 1 && !IsCommand(NumberText(x)[0])
  {
    var m := Magnitude(Hundredths(x));
    UnsignedLength(m, tail);
    UnsignedStarts(m);
    var u := Unsigned(m);
    if x < 0.0 {
      NegativeLength(u, tail);
    } else {
      assert "" + u == u;
      PositiveLength(u, tail);
    }
  }

  lemma NumberTokens(x: real, tail: string)
    requires Separates(tail)
    ensures Tokens(NumberText(x) + tail) == [NumberText(x)] + Tokens(tail)
  {
    NumberTokenLength(x, tail);
    var t := NumberText(x);
    assert (t + tail)[..|t|] == t && (t + tail)[|t|..] == tail;
  }

  lemma SpaceTokens(s: string)
    ensures Tokens(" " + s) == Tokens(s)
  {
    assert (" " + s)[1..] == s && (" " + s)[0..] == " " + s;
  }

  lemma CommandTokens(c: char, s: string)
    requires IsCommand(c)
    ensures Tokens([c] + s) == [[c]] + Tokens(s)
  {
    assert ([c] + s)[1..] == s;
  }

  function PairTokens(p: Point): (r: seq<string>)
    ensures |r| == 2
  {
    [NumberText(p.x), NumberText(p.y)]
  }

  lemma TokensOfPair(p: Point, tail: string)
    requires Separates(tail)
    ensures Tokens(PairText(p) + tail) == PairTokens(p) + Tokens(tail)
  {
    var x, y := NumberText(p.x), NumberText(p.y);
    assert PairText(p) + tail == x + (" " + (y + tail));
    NumberTokens(p.x, " " + (y + tail));
    SpaceTokens(y + tail);
    NumberTokens(p.y, tail);
  }

  lemma SpacedTokens(text: string, tail: string)
    ensures Tokens(" " + text + tail) == Tokens(text + tail)
  {
    assert " " + text + tail == " " + (text + tail);
    SpaceTokens(text + tail);
  }

  lemma TokensOfSpacedPair(p: Point, tail: string)
    requires Separates(tail)
    ensures Tokens(" " + PairText(p) + tail) == PairTokens(p) + Tokens(tail)
  {
    SpacedTokens(PairText(p), tail);
    TokensOfPair(p, tail);
  }

  function SegmentTokens(c: Cubic): (r: seq<string>)
    ensures |r| == 7
  {
    ["C"] + (PairTokens(c.p1) + (PairTokens(c.p2) + PairTokens(c.p3)))
  }

  lemma SegmentShape(c: Cubic, tail: string)
    ensures SegmentText(c) + tail
         == " " + ("C" + (PairText(c.p1) + (" " + PairText(c.p2) + (" " + PairText(c.p3) + tail))))
  {
    var a, b, d := PairText(c.p1), PairText(c.p2), PairText(c.p3);
    assert " C" == " " + "C";
    Nest(" ", "C", a, " ", b, " ", d, tail);
  }

  lemma Nest(s: string, k: string, a: string, t: string, b: string, u: string, d: string, tail: string)
    ensures s + k + a + t + b + u + d + tail == s + (k + (a + (t + b + (u + d + tail))))
  {
  }

  lemma TokensOfSegment(c: Cubic, tail: string)
    requires Separates(tail)
    ensures Tokens(SegmentText(c) + tail) == SegmentTokens(c) + Tokens(tail)
  {
    var third := " " + PairText(c.p3) + tail;
    var second := " " + PairText(c.p2) + third;
    SegmentShape(c, tail);
    SpaceTokens("C" + (PairText(c.p1) + second));
    CommandTokens('C', PairText(c.p1) + second);
    TokensOfPair(c.p1, second);
    TokensOfSpacedPair(c.p2, third);
    TokensOfSpacedPair(c.p3, tail);
    Regroup(["C"], PairTokens(c.p1), PairTokens(c.p2), PairTokens(c.p3), Tokens(tail));
  }

  lemma Regroup(k: seq<string>, a: seq<string>, b: seq<string>, d: seq<string>, rest: seq<string>)
    ensures k + (a + (b + (d + rest))) == k + (a + (b + d)) + rest
  {
  }

  function SegmentsTokens(chain: seq<Cubic>): seq<string> {
    if chain == [] then [] else SegmentTokens(chain[0]) + SegmentsTokens(chain[1..])
  }

  lemma {:induction false} TokensOfSegments(chain: seq<Cubic>)
    ensures Tokens(SegmentsText(chain) + " Z") == SegmentsTokens(chain) + ["Z"]
    ensures Separates(SegmentsText(chain) + " Z")
    decreases |chain|
  {
    if chain == [] {
      assert "" + " Z" == " " + ("Z" + "");
      SpaceTokens("Z" + "");
      CommandTokens('Z', "");
    } else {
      var rest := SegmentsText(chain[1..]) + " Z";
      assert SegmentsText(chain) + " Z" == SegmentText(chain[0]) + rest;
      TokensOfSegments(chain[1..]);
      TokensOfSegment(chain[0], rest);
    }
  }

  lemma TokensOfPath(chain: seq<Cubic>)
    requires chain != []
    ensures Tokens(ToD(chain)) == ["M"] + (PairTokens(chain[0].p0) + (SegmentsTokens(chain) + ["Z"]))
  {
    var p, segments := PairText(chain[0].p0), SegmentsText(chain);
    PathShape("M", p, segments, " Z");
    TokensOfSegments(chain);
    CommandTokens('M', p + (segments + " Z"));
    TokensOfPair(chain[0].p0, segments + " Z");
  }

  lemma PathShape(m: string, p: string, segments: string, z: string)
    ensures m + p + segments + z == m + (p + (segments + z))
  {
  }

  // ----- the round trip -----

  function RoundedPoint(p: Point): Point {
    Point(Rounded(p.x), Rounded(p.y))
  }

  function RoundedCubic(c: Cubic): Cubic {
    Cubic(RoundedPoint(c.p0), RoundedPoint(c.p1), RoundedPoint(c.p2), RoundedPoint(c.p3))
  }

  function RoundedChain(chain: seq<Cubic>): (r: seq<Cubic>)
    ensures |r| == |chain|
  {
    seq(|chain|, i requires 0 <= i < |chain| => RoundedCubic(chain[i]))
  }

  lemma TokenReads(x: real)
    ensures !IsCommandToken(NumberText(x)) && Float(NumberText(x)) == Rounded(x)
  {
    NumberReadsBack(x);
    NumberTokenLength(x, "");
  }

  lemma PairReads(p: Point, rest: seq<string>)
    ensures HasPairs(PairTokens(p) + rest, 1) && PairAt(PairTokens(p) + rest, 0) == RoundedPoint(p)
    ensures (PairTokens(p) + rest)[2..] == rest
  {
    TokenReads(p.x);
    TokenReads(p.y);
  }

  /** Where the six numbers of a segment stand. */
  lemma SegmentLayout(c: Cubic, rest: seq<string>)
    ensures
      var toks := (SegmentTokens(c) + rest)[1..];
      && |toks| == 6 + |rest| && toks[6..] == rest
      && toks[0] == NumberText(c.p1.x) && toks[1] == NumberText(c.p1.y) && toks[2] == NumberText(c.p2.x)
      && toks[3] == NumberText(c.p2.y) && toks[4] == NumberText(c.p3.x) && toks[5] == NumberText(c.p3.y)
  {
  }

  lemma SegmentReads(c: Cubic, rest: seq<string>)
    ensures
      var toks := (SegmentTokens(c) + rest)[1..];
      && HasPairs(toks, 3) && toks[6..] == rest
      && PairAt(toks, 0) == RoundedPoint(c.p1) && PairAt(toks, 1) == RoundedPoint(c.p2)
      && PairAt(toks, 2) == RoundedPoint(c.p3)
  {
    SegmentLayout(c, rest);
    TokenReads(c.p1.x);
    TokenReads(c.p1.y);
    TokenReads(c.p2.x);
    TokenReads(c.p2.y);
    TokenReads(c.p3.x);
    TokenReads(c.p3.y);
    SixReads((SegmentTokens(c) + rest)[1..]);
  }

  lemma SixReads(toks: seq<string>)
    requires |toks| >= 6 && !IsCommandToken(toks[0]) && !IsCommandToken(toks[1]) && !IsCommandToken(toks[2])
    requires !IsCommandToken(toks[3]) && !IsCommandToken(toks[4]) && !IsCommandToken(toks[5])
    ensures HasPairs(toks, 3)
  {
  }

  /** One printed segment extends the parsed chain by its rounded image. */
  lemma RunSegment(length: Point -> real, c: Cubic, rest: seq<string>, pen: Pen)
    requires pen.cur == Some(RoundedPoint(c.p0))
    ensures Run(length, SegmentTokens(c) + rest, pen)
         == Run(length, rest, pen.(cur := Some(RoundedPoint(c.p3)), cmd := Some('C'),
                                  segs := pen.segs + [RoundedCubic(c)]))
  {
    SegmentReads(c, rest);
    var toks := SegmentTokens(c) + rest;
    assert toks[0] == "C" && IsCommandToken(toks[0]);
  }

  function EndAfter(chain: seq<Cubic>, cur: Point): Point {
    if chain == [] then cur else RoundedPoint(End(chain))
  }

  lemma SegmentsSplit(chain: seq<Cubic>)
    requires chain != []
    ensures SegmentsTokens(chain) + ["Z"] == SegmentTokens(chain[0]) + (SegmentsTokens(chain[1..]) + ["Z"])
  {
  }

  lemma RoundedSplit(chain: seq<Cubic>, before: seq<Cubic>)
    requires chain != []
    ensures before + [RoundedCubic(chain[0])] + RoundedChain(chain[1..]) == before + RoundedChain(chain)
    ensures EndAfter(chain, RoundedPoint(chain[0].p0)) == EndAfter(chain[1..], RoundedPoint(chain[0].p3))
  {
  }

  lemma {:induction false} RunSegments(length: Point -> real, chain: seq<Cubic>, pen: Pen)
    requires Connected(chain) && pen.cur.Some? && pen.start.Some?
    requires chain != [] ==> pen.cur == Some(RoundedPoint(chain[0].p0))
    ensures Run(length, SegmentsTokens(chain) + ["Z"], pen)
         == Parsed(pen.segs + RoundedChain(chain) + Closing(length, EndAfter(chain, pen.cur.value), pen.start.value))
    decreases |chain|
  {
    if chain == [] {
      assert [] + ["Z"] == ["Z"] && ["Z"][1..] == [];
      assert pen.segs + RoundedChain([]) == pen.segs;
      RunClose(length, pen);
    } else {
      var c, others := chain[0], chain[1..];
      var next := pen.(cur := Some(RoundedPoint(c.p3)), cmd := Some('C'), segs := pen.segs + [RoundedCubic(c)]);
      SegmentsSplit(chain);
      RunSegment(length, c, SegmentsTokens(others) + ["Z"], pen);
      assert others != [] ==> c.p3 == others[0].p0;
      RunSegments(length, others, next);
      RoundedSplit(chain, pen.segs);
    }
  }

  lemma RunClose(length: Point -> real, pen: Pen)
    requires pen.cur.Some? && pen.start.Some?
    ensures Run(length, ["Z"], pen) == Parsed(pen.segs + Closing(length, pen.cur.value, pen.start.value))
  {
    assert ["Z"][1..] == [] && IsCommandToken("Z");
  }

  lemma RunMove(length: Point -> real, p: Point, rest: seq<string>)
    ensures Run(length, ["M"] + (PairTokens(p) + rest), NEW_PEN)
         == Run(length, rest, Pen(Some(RoundedPoint(p)), Some(RoundedPoint(p)), Some('L'), []))
  {
    var toks := ["M"] + (PairTokens(p) + rest);
    assert toks[0] == "M" && IsCommandToken(toks[0]) && toks[1..] == PairTokens(p) + rest;
    PairReads(p, rest);
  }

  /** Parsing the printed text of a connected chain gives the rounded chain and what closes it. */
  lemma PathReadsBack(length: Point -> real, chain: seq<Cubic>)
    requires chain != [] && Connected(chain)
    ensures Run(length, Tokens(ToD(chain)), NEW_PEN)
         == Parsed(RoundedChain(chain) + Closing(length, RoundedPoint(End(chain)), RoundedPoint(Start(chain))))
  {
    TokensOfPath(chain);
    var p := RoundedPoint(chain[0].p0);
    RunMove(length, chain[0].p0, SegmentsTokens(chain) + ["Z"]);
    RunSegments(length, chain, Pen(Some(p), Some(p), Some('L'), []));
    assert [] + RoundedChain(chain) == RoundedChain(chain);
  }

  /** Rounding moves a coordinate by at most half a hundredth. */
  lemma RoundedNear(x: real)
    ensures -0.005 <= Rounded(x) - x <= 0.005
  {
    var y := x * 100.0;
    assert y.Floor as real <= y < y.Floor as real + 1.0;
  }

  lemma HundredthsKept(n: int)
    ensures OnGrid(n as real / 100.0)
  {
    var y := n as real / 100.0 * 100.0;
    assert y == n as real && y.Floor == n;
  }

  predicate OnGrid(x: real) {
    Rounded(x) == x
  }

  predicate PointOnGrid(p: Point) {
    OnGrid(p.x) && OnGrid(p.y)
  }

  /** Every coordinate is one that two decimals print exactly. */
  predicate PrintedExactly(chain: seq<Cubic>) {
    forall i :: 0 <= i < |chain| ==>
      PointOnGrid(chain[i].p0) && PointOnGrid(chain[i].p1) && PointOnGrid(chain[i].p2) && PointOnGrid(chain[i].p3)
  }

  lemma ExactChainKept(chain: seq<Cubic>)
    requires PrintedExactly(chain)
    ensures RoundedChain(chain) == chain
  {
  }

  lemma GridGap(x: real, y: real)
    requires Rounded(x) != Rounded(y)
    ensures Rounded(x) - Rounded(y) >= 0.01 || Rounded(y) - Rounded(x) >= 0.01
  {
    var m, n := Hundredths(x), Hundredths(y);
    assert m != n;
    assert m as real - n as real >= 1.0 || n as real - m as real >= 1.0;
  }

  lemma LongSide(length: Point -> real, v: Point)
    requires IsLength(length) && (v.x >= 0.01 || v.x <= -0.01 || v.y >= 0.01 || v.y <= -0.01)
    ensures length(v) > 0.000001
  {
    var l := length(v);
    assert l >= 0.0 && l * l == Inner(v, v);
    var x, y := v.x * v.x, v.y * v.y;
    assert x >= 0.0 && y >= 0.0;
    assert v.x >= 0.01 || v.x <= -0.01 ==> x >= 0.0001;
    assert v.y >= 0.01 || v.y <= -0.01 ==> y >= 0.0001;
    SmallSquare(l);
  }

  lemma SmallSquare(l: real)
    requires l >= 0.0
    ensures l <= 0.000001 ==> l * l < 0.0001
  {
    if l <= 0.000001 {
      ProductPositive(0.01 - l, 0.01 + l, 0.0001 - l * l);
    }
  }

  lemma ClosingIff(length: Point -> real, p: Point, q: Point)
    requires IsLength(length)
    ensures Closing(length, RoundedPoint(p), RoundedPoint(q)) == [] <==> RoundedPoint(p) == RoundedPoint(q)
  {
    var v := Minus(RoundedPoint(p), RoundedPoint(q));
    if RoundedPoint(p) == RoundedPoint(q) {
      LengthPositive(length, v);
    } else {
      if Rounded(p.x) != Rounded(q.x) {
        GridGap(p.x, q.x);
      } else {
        GridGap(p.y, q.y);
      }
      LongSide(length, v);
    }
  }

  /** A connected chain comes back with no added segment exactly when its printed ends meet. */
  lemma NothingAddedIff(length: Point -> real, chain: seq<Cubic>)
    requires IsLength(length) && chain != [] && Connected(chain)
    ensures Run(length, Tokens(ToD(chain)), NEW_PEN) == Parsed(RoundedChain(chain))
       <==> RoundedPoint(End(chain)) == RoundedPoint(Start(chain))
  {
    PathReadsBack(length, chain);
    ClosingIff(length, End(chain), Start(chain));
    var r, more := RoundedChain(chain), Closing(length, RoundedPoint(End(chain)), RoundedPoint(Start(chain)));
    assert |r + more| == |r| + |more|;
    assert r + [] == r;
  }

  /** A closed chain at printed precision comes back unchanged. */
  lemma ClosedPathRoundTrip(length: Point -> real, chain: seq<Cubic>)
    requires IsLength(length) && ClosedChain(chain) && PrintedExactly(chain)
    ensures Run(length, Tokens(ToD(chain)), NEW_PEN) == Parsed(chain)
  {
    NothingAddedIff(length, chain);
    ExactChainKept(chain);
  }
}
