/** Strings as the harness uses them: JavaScript's ordering, decimal numerals and substring search. */
module Text {

  datatype Option<+T> = None | Some(value: T)

  /** JavaScript's `<` on strings: lexicographic by character. */
  predicate Less(a: string, b: string) {
    if b == "" then false
    else if a == "" then true
    else a[0] < b[0] || (a[0] == b[0] && Less(a[1..], b[1..]))
  }

  /** `a` is a proper prefix of `b`, or has the smaller character at the first place where they differ. */
  ghost predicate Precedes(a: string, b: string) {
    exists k :: 0 <= k <= |a| && k < |b| && a[..k] == b[..k] && (k == |a| || a[k] < b[k])
  }

  lemma {:induction false} LessIff(a: string, b: string)
    ensures Less(a, b) <==> Precedes(a, b)
    decreases |a|
  {
    if b != "" {
      if a == "" {
        assert a[..0] == b[..0];
      } else {
        LessIff(a[1..], b[1..]);
        if Less(a, b) {
          LessPrecedes(a, b);
        }
        if k :| 0 <= k <= |a| && k < |b| && a[..k] == b[..k] && (k == |a| || a[k] < b[k]) {
          PrecedesLess(a, b, k);
        }
      }
    }
  }

  lemma LessPrecedes(a: string, b: string)
    requires a != "" && b != "" && Less(a, b) && (Less(a[1..], b[1..]) <==> Precedes(a[1..], b[1..]))
    ensures Precedes(a, b)
  {
    if a[0] < b[0] {
      assert a[..0] == b[..0];
    } else {
      var s, t := a[1..], b[1..];
      var k :| 0 <= k <= |s| && k < |t| && s[..k] == t[..k] && (k == |s| || s[k] < t[k]);
      assert a[..k + 1] == [a[0]] + s[..k] && b[..k + 1] == [b[0]] + t[..k];
    }
  }

  lemma PrecedesLess(a: string, b: string, k: nat)
    requires a != "" && b != "" && (Less(a[1..], b[1..]) <==> Precedes(a[1..], b[1..]))
    requires k <= |a| && k < |b| && a[..k] == b[..k] && (k == |a| || a[k] < b[k])
    ensures Less(a, b)
  {
    if k > 0 {
      var s, t := a[1..], b[1..];
      assert a[0] == a[..k][0] == b[..k][0] == b[0];
      assert s[..k - 1] == a[..k][1..] && t[..k - 1] == b[..k][1..];
      assert 0 <= k - 1 <= |s| && s[..k - 1] == t[..k - 1];
    }
  }

  lemma {:induction false} LessIsStrict(a: string, b: string)
    ensures !(Less(a, b) && Less(b, a))
    ensures Less(a, b) ==> a != b
  {
    if a != "" && b != "" {
      LessIsStrict(a[1..], b[1..]);
    }
  }

  lemma {:induction false} LessIsTotal(a: string, b: string)
    ensures Less(a, b) || a == b || Less(b, a)
  {
    if a != "" && b != "" && a[0] == b[0] {
      LessIsTotal(a[1..], b[1..]);
      assert a == [a[0]] + a[1..] && b == [b[0]] + b[1..];
    }
  }

  lemma {:induction false} LessIsTransitive(a: string, b: string, c: string)
    requires Less(a, b) && Less(b, c)
    ensures Less(a, c)
  {
    if a != "" && a[0] == b[0] == c[0] {
      LessIsTransitive(a[1..], b[1..], c[1..]);
    }
  }

  predicate StartsWith(text: string, part: string) {
    |part| <= |text| && text[..|part|] == part
  }

  /** `text.includes(part)`. */
  predicate Occurs(text: string, part: string) {
    exists i :: 0 <= i <= |text| && StartsWith(text[i..], part)
  }

  /** A finished part of a split text; empty parts are dropped. */
  function Flush(part: string): seq<string> {
    if part == "" then [] else [part]
  }

  /** `texts.join(separator)`. */
  function Join(texts: seq<string>, separator: string): string {
    if |texts| == 0 then ""
    else if |texts| == 1 then texts[0]
    else texts[0] + separator + Join(texts[1..], separator)
  }

  lemma Cancel(p: string, s: string, q: string, t: string)
    requires p + s == q + t && |p| == |q|
    ensures p == q && s == t
  {
    assert p == (p + s)[..|p|] && q == (q + t)[..|q|];
    assert s == (p + s)[|p|..] && t == (q + t)[|q|..];
  }

  lemma Reassociate(p: string, q: string, r: string)
    ensures (p + q) + r == p + (q + r)
  {
  }

  /** Splitting at the first `c` is unambiguous. */
  lemma SplitFirst(a: string, s: string, b: string, t: string, c: char)
    requires c !in a && c !in b
    requires a + [c] + s == b + [c] + t
    ensures a == b && s == t
  {
    var u := a + [c] + s;
    assert u[|a|] == c && u == b + [c] + t && u[|b|] == c;
    assert forall i :: 0 <= i < |a| ==> u[i] == a[i] && a[i] in a;
    assert forall i :: 0 <= i < |b| ==> u[i] == b[i] && b[i] in b;
    Reassociate(a, [c], s);
    Reassociate(b, [c], t);
    Cancel(a, [c] + s, b, [c] + t);
    Cancel([c], s, [c], t);
  }

  /** Splitting at the last `c` is unambiguous. */
  lemma SplitLast(s: string, a: string, t: string, b: string, c: char)
    requires c !in a && c !in b
    requires s + [c] + a == t + [c] + b
    ensures s == t && a == b
  {
    var u := s + [c] + a;
    assert u[|s|] == c && u == t + [c] + b && u[|t|] == c;
    assert forall i :: |s| < i < |u| ==> u[i] == a[i - |s| - 1] && u[i] in a;
    assert forall i :: |t| < i < |u| ==> u[i] == b[i - |t| - 1] && u[i] in b;
    Cancel(s + [c], a, t + [c], b);
    Cancel(s, [c], t, [c]);
  }

  // ----- numerals -----

  predicate IsDigit(c: char) {
    '0' <= c <= '9'
  }

  /** How many digits the text starts with. */
  function DigitRun(s: string): (n: nat)
    ensures n <= |s|
  {
    if s != "" && IsDigit(s[0]) then 1 + DigitRun(s[1..]) else 0
  }

  lemma {:induction false} DigitRunOf(s: string, rest: string)
    requires (forall i :: 0 <= i < |s| ==> IsDigit(s[i])) && (rest == "" || !IsDigit(rest[0]))
    ensures DigitRun(s + rest) == |s|
    decreases |s|
  {
    if s == "" {
      assert s + rest == rest;
    } else {
      assert (s + rest)[0] == s[0] && (s + rest)[1..] == s[1..] + rest;
      DigitRunOf(s[1..], rest);
    }
  }

  function Digit(n: nat): char
    requires n < 10
  {
    "0123456789"[n]
  }

  /** `String(n)`. */
  function Decimal(n: nat): (r: string)
    ensures r != ""
    ensures forall i :: 0 <= i < |r| ==> IsDigit(r[i])
    ensures n > 0 ==> r[0] != '0'
    ensures n >= 10 <==> |r| > 1
  {
    if n < 10 then [Digit(n)] else Decimal(n / 10) + [Digit(n % 10)]
  }

  lemma {:induction false} DecimalInjective(m: nat, n: nat)
    ensures Decimal(m) == Decimal(n) ==> m == n
  {
    if Decimal(m) == Decimal(n) && m >= 10 {
      Cancel(Decimal(m / 10), [Digit(m % 10)], Decimal(n / 10), [Digit(n % 10)]);
      DecimalInjective(m / 10, n / 10);
    }
  }

  function Zeros(n: nat): (r: string)
    ensures |r| == n && forall i :: 0 <= i < n ==> r[i] == '0'
  {
    if n == 0 then "" else "0" + Zeros(n - 1)
  }

  /** `String(n).padStart(width, "0")`. */
  function Padded(n: nat, width: nat): (r: string)
    ensures r != "" && forall i :: 0 <= i < |r| ==> IsDigit(r[i])
  {
    var d := Decimal(n);
    if |d| >= width then d else Zeros(width - |d|) + d
  }

  lemma PaddedInjective(m: nat, n: nat, width: nat)
    requires Padded(m, width) == Padded(n, width)
    ensures m == n
  {
    PaddedEnds(m, width);
    PaddedEnds(n, width);
    NoLonger(m, n, width);
    NoLonger(n, m, width);
    DecimalInjective(m, n);
  }

  lemma PaddedEnds(n: nat, width: nat)
    ensures var d, p := Decimal(n), Padded(n, width);
      && |p| == (if |d| >= width then |d| else width)
      && p[|p| - |d|..] == d && forall i :: 0 <= i < |p| - |d| ==> p[i] == '0'
  {
  }

  /** Padding cannot stand in for a leading digit. */
  lemma NoLonger(m: nat, n: nat, width: nat)
    requires Padded(m, width) == Padded(n, width)
    ensures |Decimal(n)| <= |Decimal(m)|
  {
    PaddedEnds(m, width);
    PaddedEnds(n, width);
    var p, e := Padded(n, width), Decimal(n);
    assert p[|p| - |e|] == p[|p| - |e|..][0] == e[0];
  }
}
