/**
 * The linear congruential generator shared by the import and recovery gates, with JavaScript's
 * 32-bit arithmetic written out, and its full period.
 */
module Generator {

  const MODULUS: int := 0x1_0000_0000
  const MULTIPLIER: int := 1664525
  const INCREMENT: int := 1013904223

  /** The signed 32-bit value of a number. */
  function ToInt32(x: int): int {
    var r := x % MODULUS;
    if r >= 0x8000_0000 then r - MODULUS else r
  }

  /** `Math.imul`. */
  function Imul(a: int, b: int): int {
    ToInt32(ToInt32(a) * ToInt32(b))
  }

  /** `x >>> 0`. */
  function ToUint32(x: int): int {
    x % MODULUS
  }

  /** `state = (Math.imul(state, 1664525) + 1013904223) >>> 0`. */
  function Step(state: int): int {
    ToUint32(Imul(state, MULTIPLIER) + INCREMENT)
  }

  lemma Wraps(x: int) returns (k: int)
    ensures ToInt32(x) == x + MODULUS * k
  {
    k := -(x / MODULUS) - if x % MODULUS >= 0x8000_0000 then 1 else 0;
  }

  /** Signed wrap-around does not disturb the residue: the step is the textbook one. */
  lemma StepIsAffine(s: int)
    ensures Step(s) == (MULTIPLIER * s + INCREMENT) % MODULUS
    ensures Step(s) == (1664525 * s + 1013904223) % 4294967296
    ensures 0 <= Step(s) < MODULUS
  {
    var i := Wraps(s);
    var j := Wraps(MULTIPLIER);
    var l := Wraps(ToInt32(s) * ToInt32(MULTIPLIER));
    assert ToInt32(MULTIPLIER) == MULTIPLIER;
    assert ToInt32(s) * MULTIPLIER == MULTIPLIER * s + MODULUS * (i * MULTIPLIER);
    var k := i * MULTIPLIER + l;
    assert Imul(s, MULTIPLIER) + INCREMENT == MULTIPLIER * s + INCREMENT + MODULUS * k;
    ShiftByModulus(MULTIPLIER * s + INCREMENT, k);
  }

  lemma ShiftByModulus(x: int, k: int)
    ensures (x + MODULUS * k) % MODULUS == x % MODULUS
  {
  }

  function Iterate(s: int, k: nat): int {
    if k == 0 then s else Step(Iterate(s, k - 1))
  }

  /** The same orbit without reduction. */
  function Unreduced(a: int, c: int, s: int, k: nat): int {
    if k == 0 then s else a * Unreduced(a, c, s, k - 1) + c
  }

  lemma {:induction false} IterateReduces(s: int, k: nat)
    requires 0 <= s < MODULUS
    ensures Iterate(s, k) == Unreduced(MULTIPLIER, INCREMENT, s, k) % MODULUS
  {
    if k > 0 {
      IterateReduces(s, k - 1);
      var u := Unreduced(MULTIPLIER, INCREMENT, s, k - 1);
      StepIsAffine(Iterate(s, k - 1));
      var q := u / MODULUS;
      assert u == MODULUS * q + u % MODULUS;
      assert MULTIPLIER * u + INCREMENT == MULTIPLIER * (u % MODULUS) + INCREMENT + MODULUS * (MULTIPLIER * q);
      ShiftByModulus(MULTIPLIER * (u % MODULUS) + INCREMENT, MULTIPLIER * q);
    }
  }

  /** 1 + a + ... + a^(k-1). */
  function Geometric(a: int, k: nat): int {
    if k == 0 then 0 else a * Geometric(a, k - 1) + 1
  }

  function Power(a: int, k: nat): int {
    if k == 0 then 1 else a * Power(a, k - 1)
  }

  lemma DisplaceOnce(a: int, c: int, s: int, g: int, q: int)
    requires q == (a - 1) * s + c
    ensures a * (s + g * q) + c == s + (a * g + 1) * q
  {
    assert a * (g * q) == (a * g) * q;
  }

  /** The displacement after `k` steps is a geometric sum times an odd number. */
  lemma {:induction false} Displacement(a: int, c: int, s: int, k: nat)
    ensures Unreduced(a, c, s, k) == s + Geometric(a, k) * ((a - 1) * s + c)
  {
    if k > 0 {
      Displacement(a, c, s, k - 1);
      DisplaceOnce(a, c, s, Geometric(a, k - 1), (a - 1) * s + c);
    }
  }

  lemma {:induction false} GeometricSum(a: int, i: nat, j: nat)
    ensures Geometric(a, i + j) == Geometric(a, i) * Power(a, j) + Geometric(a, j)
    decreases j
  {
    if j > 0 {
      GeometricSum(a, i, j - 1);
      var g, p, h := Geometric(a, i), Power(a, j - 1), Geometric(a, j - 1);
      assert i + j - 1 == i + (j - 1);
      Distribute(a, g, p, h);
    }
  }

  lemma Distribute(a: int, g: int, p: int, h: int)
    ensures a * (g * p + h) + 1 == g * (a * p) + (a * h + 1)
  {
    assert a * (g * p) == g * (a * p);
  }

  // ----- divisibility by powers of two -----

  predicate Divisible(n: nat, x: int) {
    n == 0 || (x % 2 == 0 && Divisible(n - 1, x / 2))
  }

  lemma {:induction false} OddFactor(n: nat, x: int, q: int)
    requires q % 2 == 1
    ensures Divisible(n, x * q) <==> Divisible(n, x)
    decreases n
  {
    if n > 0 {
      OddTimes(x, q);
      if x % 2 == 0 {
        var y := x / 2;
        assert x * q == 2 * (y * q);
        OddFactor(n - 1, y, q);
      }
    }
  }

  lemma OddTimes(x: int, q: int)
    requires q % 2 == 1
    ensures (x * q) % 2 == x % 2
  {
    var p := q / 2;
    assert x * q == x + 2 * (x * p);
  }

  lemma {:induction false} PowerIsOneModFour(a: int, k: nat)
    requires a % 4 == 1
    ensures Power(a, k) % 4 == 1
  {
    if k > 0 {
      PowerIsOneModFour(a, k - 1);
      var p, m := Power(a, k - 1), a / 4;
      assert a * p == p + 4 * (m * p);
    }
  }

  lemma {:induction false} GeometricParity(a: int, k: nat)
    requires a % 2 == 1
    ensures Geometric(a, k) % 2 == k % 2
  {
    if k > 0 {
      GeometricParity(a, k - 1);
      OddTimes(Geometric(a, k - 1), a);
      assert Geometric(a, k - 1) * a == a * Geometric(a, k - 1);
    }
  }

  function HalfOf(p: int): (odd: int)
    requires p % 4 == 1
    ensures odd % 2 == 1 && p == 2 * odd - 1
  {
    2 * (p / 4) + 1
  }

  /** Doubling the length doubles the sum, up to an odd factor. */
  lemma GeometricDoubles(a: int, j: nat) returns (odd: int)
    requires a % 4 == 1
    ensures odd % 2 == 1 && Geometric(a, 2 * j) == 2 * (Geometric(a, j) * odd)
  {
    GeometricSum(a, j, j);
    PowerIsOneModFour(a, j);
    odd := HalfOf(Power(a, j));
    DoubleFactor(Geometric(a, j), Power(a, j), odd);
    assert j + j == 2 * j;
  }

  lemma DoubleFactor(g: int, p: int, odd: int)
    requires p == 2 * odd - 1
    ensures g * p + g == 2 * (g * odd)
  {
  }

  /** For a multiplier that is one modulo four, the sum holds exactly the twos that `k` holds. */
  lemma {:induction false} GeometricDivisible(a: int, n: nat, k: nat)
    requires a % 4 == 1
    ensures Divisible(n, Geometric(a, k)) <==> Divisible(n, k)
    decreases n
  {
    if n > 0 {
      GeometricParity(a, k);
      if k % 2 == 0 {
        var j := k / 2;
        var odd := GeometricDoubles(a, j);
        assert Geometric(a, k) / 2 == Geometric(a, j) * odd;
        OddFactor(n - 1, Geometric(a, j), odd);
        GeometricDivisible(a, n - 1, j);
      }
    }
  }

  function PowerOfTwo(n: nat): (p: int)
    ensures p > 0
  {
    if n == 0 then 1 else 2 * PowerOfTwo(n - 1)
  }

  lemma {:induction false} DivisibleIsRemainder(n: nat, x: int)
    ensures Divisible(n, x) <==> x % PowerOfTwo(n) == 0
    decreases n
  {
    if n > 0 {
      var p := PowerOfTwo(n - 1);
      DivisibleIsRemainder(n - 1, x / 2);
      HalveRemainder(x, p);
    }
  }

  lemma HalveRemainder(x: int, p: int)
    requires p > 0
    ensures x % (2 * p) == 0 <==> x % 2 == 0 && (x / 2) % p == 0
  {
    if x % (2 * p) == 0 {
      var m := x / (2 * p);
      assert x == 2 * p * m == 2 * (p * m);
      assert x / 2 == p * m;
      RemainderZero(p, m);
    }
    if x % 2 == 0 && (x / 2) % p == 0 {
      var m := (x / 2) / p;
      assert x == 2 * (p * m) == (2 * p) * m;
      RemainderZero(2 * p, m);
    }
  }

  lemma RemainderZero(p: int, m: int)
    requires p > 0
    ensures (p * m) % p == 0
  {
    var x := p * m;
    var q, r := x / p, x % p;
    assert x == p * q + r && 0 <= r < p;
    assert p * (m - q) == r;
    SmallMultiple(p, m - q);
  }

  lemma SmallMultiple(p: int, d: int)
    requires p > 0 && 0 <= p * d < p
    ensures d == 0
  {
    assert d >= 1 ==> p * d >= p;
    assert d <= -1 ==> p * d <= -p;
  }

  lemma ModulusIsPower()
    ensures PowerOfTwo(32) == MODULUS
  {
    assert PowerOfTwo(8) == 256;
    assert PowerOfTwo(16) == 65536;
    assert PowerOfTwo(24) == 16777216;
  }

  /** Full period: from every state, the orbit returns exactly at the multiples of 2^32. */
  lemma ReturnsIff(s: int, k: nat)
    requires 0 <= s < MODULUS
    ensures Iterate(s, k) == s <==> k % MODULUS == 0
  {
    ReturnsIffDivisible(s, k);
    GeometricDivisible(MULTIPLIER, 32, k);
    RemainderDivisible(k);
  }

  lemma ReturnsIffDivisible(s: int, k: nat)
    requires 0 <= s < MODULUS
    ensures Iterate(s, k) == s <==> Divisible(32, Geometric(MULTIPLIER, k))
  {
    var g, q := Geometric(MULTIPLIER, k), Drift(s);
    IterateDisplaced(s, k);
    SameResidue(s, g * q);
    RemainderDivisible(g * q);
    DriftIsOdd(s);
    OddFactor(32, g, q);
  }

  /** How far one step moves a state, before reduction. */
  function Drift(s: int): int {
    (MULTIPLIER - 1) * s + INCREMENT
  }

  lemma DriftIsOdd(s: int)
    ensures Drift(s) % 2 == 1
  {
  }

  lemma RemainderDivisible(x: int)
    ensures x % MODULUS == 0 <==> Divisible(32, x)
  {
    ModulusIsPower();
    DivisibleIsRemainder(32, x);
  }

  lemma IterateDisplaced(s: int, k: nat)
    requires 0 <= s < MODULUS
    ensures Iterate(s, k) == (s + Geometric(MULTIPLIER, k) * Drift(s)) % MODULUS
  {
    IterateReduces(s, k);
    Displacement(MULTIPLIER, INCREMENT, s, k);
  }

  lemma SameResidue(s: int, d: int)
    requires 0 <= s < MODULUS
    ensures (s + d) % MODULUS == s <==> d % MODULUS == 0
  {
  }

  lemma {:induction false} IterateComposes(s: int, i: nat, j: nat)
    ensures Iterate(s, i + j) == Iterate(Iterate(s, i), j)
    decreases j
  {
    if j > 0 {
      IterateComposes(s, i, j - 1);
      assert Iterate(s, i + j) == Step(Iterate(s, i + (j - 1)));
    }
  }

  lemma IterateInRange(s: int, k: nat)
    requires 0 <= s < MODULUS
    ensures 0 <= Iterate(s, k) < MODULUS
  {
    if k > 0 {
      StepIsAffine(Iterate(s, k - 1));
    }
  }

  lemma NotBackSoon(t: int, d: nat)
    requires 0 <= t < MODULUS && 0 < d < MODULUS
    ensures Iterate(t, d) != t
  {
    ReturnsIff(t, d);
  }

  /** No state repeats within 2^32 consecutive steps. */
  lemma NoEarlyRepeat(s: int, i: nat, j: nat)
    requires 0 <= s < MODULUS && i < j < i + MODULUS
    ensures Iterate(s, i) != Iterate(s, j)
  {
    IterateInRange(s, i);
    IterateComposes(s, i, j - i);
    NotBackSoon(Iterate(s, i), j - i);
  }
}
