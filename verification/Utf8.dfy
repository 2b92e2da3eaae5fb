/** UTF-8 as the observation reader meets it: encoding, and decoding of a byte prefix. */
module Utf8 {
  type Byte = b: int | 0 <= b < 256

  function EncodeChar(c: char): (r: seq<Byte>)
    ensures 1 <= |r| <= 4
    ensures |r| == 1 <==> c as int < 0x80
    ensures |r| == 1 ==> r[0] == c as int
    ensures |r| > 1 ==> forall i :: 0 <= i < |r| ==> r[i] >= 0x80
  {
    var n := c as int;
    if n < 0x80 then [n]
    else if n < 0x800 then [0xC0 + n / 64, 0x80 + n % 64]
    else if n < 0x10000 then [0xE0 + n / 64 / 64, 0x80 + n / 64 % 64, 0x80 + n % 64]
    else [0xF0 + n / 64 / 64 / 64, 0x80 + n / 64 / 64 % 64, 0x80 + n / 64 % 64, 0x80 + n % 64]
  }

  /** One to four bytes by code point, the leading byte marked with the count and six bits in each other one. */
  lemma EncodedForm(c: char)
    ensures var n, r := c as int, EncodeChar(c);
      && |r| == (if n < 0x80 then 1 else if n < 0x800 then 2 else if n < 0x10000 then 3 else 4)
      && (forall i :: 1 <= i < |r| ==> 0x80 <= r[i] < 0xC0)
      && (|r| == 2 ==> 0xC0 <= r[0] < 0xE0 && n == (r[0] as int - 0xC0) * 64 + (r[1] as int - 0x80))
      && (|r| == 3 ==> 0xE0 <= r[0] < 0xF0)
      && (|r| == 3 ==> n == ((r[0] as int - 0xE0) * 64 + (r[1] as int - 0x80)) * 64 + (r[2] as int - 0x80))
      && (|r| == 4 ==> 0xF0 <= r[0] < 0xF8)
      && (|r| == 4 ==> n == (((r[0] as int - 0xF0) * 64 + (r[1] as int - 0x80)) * 64 + (r[2] as int - 0x80)) * 64
                            + (r[3] as int - 0x80))
  {
  }

  function Encode(s: string): seq<Byte> {
    if s == "" then [] else EncodeChar(s[0]) + Encode(s[1..])
  }

  predicate Continues(b: Byte) {
    0x80 <= b < 0xC0
  }

  predicate Scalar(n: int) {
    0 <= n < 0xD800 || 0xE000 <= n < 0x11_0000
  }

  /** The length of the well-formed sequence the bytes open with, or 0. */
  function SequenceLength(b: seq<Byte>): (n: nat)
    ensures n <= |b| && n <= 4
    ensures n > 0 ==> Scalar(SequenceValue(b, n)) && (n == 1 <==> b[0] < 0x80)
    ensures n > 1 ==> SequenceValue(b, n) >= 0x80
  {
    if b == [] then 0
    else if b[0] < 0x80 then 1
    else if 0xC2 <= b[0] < 0xE0 && |b| >= 2 && Continues(b[1]) then 2
    else if 0xE0 <= b[0] < 0xF0 && |b| >= 3 && Continues(b[1]) && Continues(b[2])
            && SequenceValue(b, 3) >= 0x800 && Scalar(SequenceValue(b, 3)) then 3
    else if 0xF0 <= b[0] < 0xF5 && |b| >= 4 && Continues(b[1]) && Continues(b[2]) && Continues(b[3])
            && 0x10000 <= SequenceValue(b, 4) < 0x11_0000 then 4
    else 0
  }

  function SequenceValue(b: seq<Byte>, n: nat): int
    requires 1 <= n <= |b|
  {
    if n == 1 then b[0]
    else if n == 2 then Bits(b[0], 0xC0) * 64 + Bits(b[1], 0x80)
    else if n == 3 then (Bits(b[0], 0xE0) * 64 + Bits(b[1], 0x80)) * 64 + Bits(b[2], 0x80)
    else if n == 4 then ((Bits(b[0], 0xF0) * 64 + Bits(b[1], 0x80)) * 64 + Bits(b[2], 0x80)) * 64 + Bits(b[3], 0x80)
    else 0
  }

  /** The payload of a byte under its marker. */
  function Bits(b: int, marker: int): int {
    b - marker
  }

  const REPLACEMENT: char := '\U{FFFD}'

  /** Decoding that replaces each byte of a malformed or cut sequence. */
  function Decode(b: seq<Byte>): string
    decreases |b|
  {
    if b == [] then ""
    else
      var n := SequenceLength(b);
      if n == 0 then [REPLACEMENT] + Decode(b[1..])
      else [SequenceValue(b, n) as char] + Decode(b[n..])
  }

  lemma SequenceOfChar(c: char, rest: seq<Byte>)
    ensures var b := EncodeChar(c) + rest;
      SequenceLength(b) == |EncodeChar(c)| && SequenceValue(b, |EncodeChar(c)|) == c as int
  {
    var n, e := c as int, EncodeChar(c);
    var b := e + rest;
    assert forall i :: 0 <= i < |e| ==> b[i] == e[i];
    if n < 0x800 {
      assert n == n / 64 * 64 + n % 64;
    } else if n < 0x10000 {
      ThreeParts(n);
    } else {
      FourParts(n);
    }
  }

  lemma ThreeParts(n: int)
    ensures n == (n / 64 / 64 * 64 + n / 64 % 64) * 64 + n % 64
  {
    var a := n / 64;
    assert n == a * 64 + n % 64 && a == a / 64 * 64 + a % 64;
  }

  lemma FourParts(n: int)
    ensures n == ((n / 64 / 64 / 64 * 64 + n / 64 / 64 % 64) * 64 + n / 64 % 64) * 64 + n % 64
  {
    var a := n / 64;
    var b := a / 64;
    assert n == a * 64 + n % 64 && a == b * 64 + a % 64 && b == b / 64 * 64 + b % 64;
  }

  lemma DecodeChar(c: char, rest: seq<Byte>)
    ensures Decode(EncodeChar(c) + rest) == [c] + Decode(rest)
  {
    SequenceOfChar(c, rest);
    assert (EncodeChar(c) + rest)[|EncodeChar(c)|..] == rest;
  }

  lemma Prepend(s: string, r: string)
    requires s != ""
    ensures [s[0]] + (s[1..] + r) == s + r
  {
  }

  /** Whole characters decode to themselves, whatever follows. */
  lemma {:induction false} DecodeEncoded(s: string, rest: seq<Byte>)
    ensures Decode(Encode(s) + rest) == s + Decode(rest)
    decreases |s|
  {
    if s == "" {
      assert Encode(s) + rest == rest;
    } else {
      var t := Encode(s[1..]) + rest;
      assert Encode(s) + rest == EncodeChar(s[0]) + t;
      DecodeChar(s[0], t);
      DecodeEncoded(s[1..], rest);
      Prepend(s, Decode(rest));
    }
  }

  /** Bytes of a cut character never decode to a newline. */
  lemma {:induction false} CutHasNoNewline(b: seq<Byte>)
    requires forall i :: 0 <= i < |b| ==> b[i] >= 0x80
    ensures '\n' !in Decode(b)
    decreases |b|
  {
    if b != [] {
      var n := SequenceLength(b);
      if n == 0 {
        CutHasNoNewline(b[1..]);
      } else {
        CutHasNoNewline(b[n..]);
      }
    }
  }

  lemma {:induction false} EncodeConcat(s: string, t: string)
    ensures Encode(s + t) == Encode(s) + Encode(t)
    decreases |s|
  {
    if s == "" {
      assert s + t == t;
    } else {
      assert (s + t)[1..] == s[1..] + t;
      EncodeConcat(s[1..], t);
    }
  }

  /** A byte prefix of an encoded text is some whole characters and the start of the next one. */
  lemma {:induction false} PrefixIsWholeAndCut(s: string, n: nat) returns (m: nat, cut: seq<Byte>)
    requires n <= |Encode(s)|
    ensures m <= |s| && Encode(s)[..n] == Encode(s[..m]) + cut
    ensures forall i :: 0 <= i < |cut| ==> cut[i] >= 0x80
    ensures m < |s| ==> n < |Encode(s[..m + 1])|
    decreases |s|
  {
    if s == "" {
      m, cut := 0, [];
    } else {
      var e := EncodeChar(s[0]);
      if n < |e| {
        m, cut := 0, e[..n];
        assert Encode(s)[..n] == e[..n];
        assert Encode(s[..0]) == [];
        assert s[..1][1..] == "" && Encode(s[..1]) == e + Encode("");
      } else {
        var k;
        k, cut := PrefixIsWholeAndCut(s[1..], n - |e|);
        m := k + 1;
        assert s[..m][1..] == s[1..][..k] && s[..m][0] == s[0];
        assert Encode(s)[..n] == e + Encode(s[1..])[..n - |e|];
        assert e + (Encode(s[1..][..k]) + cut) == e + Encode(s[1..][..k]) + cut;
        if m < |s| {
          assert s[..m + 1][1..] == s[1..][..k + 1] && s[..m + 1][0] == s[0];
        }
      }
    }
  }
}
