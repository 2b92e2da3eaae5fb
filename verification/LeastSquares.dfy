/**
 * Least squares from the normal equations: coefficients that satisfy them leave the smallest
 * residual sum of squares of all coefficients, whatever the basis values are.
 */
module LeastSquares {
  import opened LinearSystem

  /** One basis vector per sample, all of one width. */
  ghost predicate Bases(phis: seq<Vector>, n: nat) {
    forall k :: 0 <= k < |phis| ==> |phis[k]| == n
  }

  /** Row `r` of the normal matrix over the first `m` samples. */
  function NormalRow(phis: seq<Vector>, r: nat, m: nat, n: nat): (row: Vector)
    requires Bases(phis, n) && m <= |phis| && r < n
    ensures |row| == n
  {
    if m == 0 then seq(n, _ => 0.0)
    else Reduced(NormalRow(phis, r, m - 1, n), -phis[m - 1][r], phis[m - 1])
  }

  function NormalValue(phis: seq<Vector>, ys: Vector, r: nat, m: nat, n: nat): real
    requires Bases(phis, n) && m <= |phis| && |ys| == |phis| && r < n
  {
    if m == 0 then 0.0 else NormalValue(phis, ys, r, m - 1, n) + phis[m - 1][r] * ys[m - 1]
  }

  /** The coefficients satisfy every normal equation. */
  ghost predicate NormalEquations(phis: seq<Vector>, ys: Vector, c: Vector, n: nat) {
    && Bases(phis, n) && |ys| == |phis| && |c| == n
    && forall r :: 0 <= r < n ==> Dot(NormalRow(phis, r, |phis|, n), c, n) == NormalValue(phis, ys, r, |phis|, n)
  }

  function Residual(phi: Vector, y: real, c: Vector, n: nat): real
    requires |phi| == n && |c| == n
  {
    y - Dot(phi, c, n)
  }

  function Squared(x: real): (r: real)
    ensures r >= 0.0
  {
    x * x
  }

  /** The sum of squared residuals over the first `m` samples. */
  function SquareSum(phis: seq<Vector>, ys: Vector, c: Vector, m: nat, n: nat): (s: real)
    requires Bases(phis, n) && m <= |phis| && |ys| == |phis| && |c| == n
    ensures s >= 0.0
  {
    if m == 0 then 0.0
    else SquareSum(phis, ys, c, m - 1, n) + Squared(Residual(phis[m - 1], ys[m - 1], c, n))
  }

  /** Residuals against one basis function. */
  function Overlap(phis: seq<Vector>, ys: Vector, c: Vector, r: nat, m: nat, n: nat): real
    requires Bases(phis, n) && m <= |phis| && |ys| == |phis| && |c| == n && r < n
  {
    if m == 0 then 0.0
    else Overlap(phis, ys, c, r, m - 1, n) + Residual(phis[m - 1], ys[m - 1], c, n) * phis[m - 1][r]
  }

  lemma {:induction false} DotZeros(x: Vector, n: nat, k: nat)
    requires k <= n && k <= |x|
    ensures Dot(seq(n, _ => 0.0), x, k) == 0.0
  {
    if k > 0 {
      DotZeros(x, n, k - 1);
    }
  }

  lemma DefectStep(o: real, v: real, w: real, y: real, d: real, p: real)
    requires o == v - w
    ensures o + (y - d) * p == v + p * y - (w + p * d)
  {
  }

  lemma NegatedFactor(x: real, p: real, d: real, z: real)
    requires z == x - (-p) * d
    ensures z == x + p * d
  {
  }

  lemma NormalRowGrows(phis: seq<Vector>, c: Vector, r: nat, m: nat, n: nat)
    requires Bases(phis, n) && 0 < m <= |phis| && |c| == n && r < n
    ensures Dot(NormalRow(phis, r, m, n), c, n)
         == Dot(NormalRow(phis, r, m - 1, n), c, n) + phis[m - 1][r] * Dot(phis[m - 1], c, n)
  {
    var row, phi := NormalRow(phis, r, m - 1, n), phis[m - 1];
    DotReduced(row, -phi[r], phi, c, n);
    NegatedFactor(Dot(row, c, n), phi[r], Dot(phi, c, n), Dot(NormalRow(phis, r, m, n), c, n));
  }

  lemma {:induction false} OverlapIsDefect(phis: seq<Vector>, ys: Vector, c: Vector, r: nat, m: nat, n: nat)
    requires Bases(phis, n) && m <= |phis| && |ys| == |phis| && |c| == n && r < n
    ensures Overlap(phis, ys, c, r, m, n) == NormalValue(phis, ys, r, m, n) - Dot(NormalRow(phis, r, m, n), c, n)
  {
    if m == 0 {
      DotZeros(c, n, n);
    } else {
      OverlapIsDefect(phis, ys, c, r, m - 1, n);
      NormalRowGrows(phis, c, r, m, n);
      DefectStep(Overlap(phis, ys, c, r, m - 1, n), NormalValue(phis, ys, r, m - 1, n),
                 Dot(NormalRow(phis, r, m - 1, n), c, n), ys[m - 1], Dot(phis[m - 1], c, n), phis[m - 1][r]);
    }
  }

  /** Residuals against the first `w` terms of a direction `d`. */
  function Cross(phis: seq<Vector>, ys: Vector, c: Vector, d: Vector, w: nat, m: nat, n: nat): real
    requires Bases(phis, n) && m <= |phis| && |ys| == |phis| && |c| == n && |d| == n && w <= n
  {
    if m == 0 then 0.0
    else Cross(phis, ys, c, d, w, m - 1, n) + Residual(phis[m - 1], ys[m - 1], c, n) * Dot(phis[m - 1], d, w)
  }

  lemma CrossTerm(e: real, a: real, p: real, q: real, o: real)
    ensures e * (a + p * q) == e * a + q * (e * p) && q * (o + e * p) == q * o + q * (e * p)
  {
  }

  lemma {:induction false} CrossSplits(phis: seq<Vector>, ys: Vector, c: Vector, d: Vector, w: nat, m: nat, n: nat)
    requires Bases(phis, n) && m <= |phis| && |ys| == |phis| && |c| == n && |d| == n && 0 < w <= n
    ensures Cross(phis, ys, c, d, w, m, n)
         == Cross(phis, ys, c, d, w - 1, m, n) + d[w - 1] * Overlap(phis, ys, c, w - 1, m, n)
  {
    if m > 0 {
      CrossSplits(phis, ys, c, d, w, m - 1, n);
      var phi := phis[m - 1];
      CrossTerm(Residual(phi, ys[m - 1], c, n), Dot(phi, d, w - 1), phi[w - 1], d[w - 1],
                Overlap(phis, ys, c, w - 1, m - 1, n));
    } else {
      assert d[w - 1] * 0.0 == 0.0;
    }
  }

  lemma {:induction false} CrossZeroWide(phis: seq<Vector>, ys: Vector, c: Vector, d: Vector, m: nat, n: nat)
    requires Bases(phis, n) && m <= |phis| && |ys| == |phis| && |c| == n && |d| == n
    ensures Cross(phis, ys, c, d, 0, m, n) == 0.0
  {
    if m > 0 {
      CrossZeroWide(phis, ys, c, d, m - 1, n);
      assert Residual(phis[m - 1], ys[m - 1], c, n) * 0.0 == 0.0;
    }
  }

  /** The residuals of a solution are orthogonal to every direction. */
  lemma {:induction false} CrossVanishes(phis: seq<Vector>, ys: Vector, c: Vector, d: Vector, w: nat, n: nat)
    requires NormalEquations(phis, ys, c, n) && |d| == n && w <= n
    ensures Cross(phis, ys, c, d, w, |phis|, n) == 0.0
  {
    if w == 0 {
      CrossZeroWide(phis, ys, c, d, |phis|, n);
    } else {
      CrossVanishes(phis, ys, c, d, w - 1, n);
      CrossSplits(phis, ys, c, d, w, |phis|, n);
      OverlapIsDefect(phis, ys, c, w - 1, |phis|, n);
      assert d[w - 1] * 0.0 == 0.0;
    }
  }

  function Difference(a: Vector, b: Vector): (r: Vector)
    requires |a| == |b|
    ensures |r| == |a|
  {
    seq(|a|, i requires 0 <= i < |a| => a[i] - b[i])
  }

  lemma {:induction false} DotDifference(phi: Vector, a: Vector, b: Vector, n: nat)
    requires n <= |phi| && |a| == |b| && n <= |a|
    ensures Dot(phi, Difference(a, b), n) == Dot(phi, a, n) - Dot(phi, b, n)
  {
    if n > 0 {
      DotDifference(phi, a, b, n - 1);
      var p, x, y := phi[n - 1], a[n - 1], b[n - 1];
      assert p * (x - y) == p * x - p * y;
    }
  }

  lemma SquareMoves(e: real, step: real, f: real)
    requires f == e - step
    ensures Squared(f) >= Squared(e) - 2.0 * (e * step)
  {
    assert f * f == e * e - 2.0 * (e * step) + Squared(step);
  }

  lemma ResidualMoves(phi: Vector, y: real, c: Vector, other: Vector, n: nat)
    requires |phi| == n && |c| == n && |other| == n
    ensures Residual(phi, y, other, n) == Residual(phi, y, c, n) - Dot(phi, Difference(other, c), n)
  {
    DotDifference(phi, other, c, n);
  }

  /** One sample's part of the change from `c` to `other`, and its cross term. */
  function Gain(phi: Vector, y: real, c: Vector, other: Vector, n: nat): real
    requires |phi| == n && |c| == n && |other| == n
  {
    Squared(Residual(phi, y, other, n)) - Squared(Residual(phi, y, c, n))
  }

  function CrossPart(phi: Vector, y: real, c: Vector, d: Vector, n: nat): real
    requires |phi| == n && |c| == n && |d| == n
  {
    Residual(phi, y, c, n) * Dot(phi, d, n)
  }

  lemma GainBounded(phi: Vector, y: real, c: Vector, other: Vector, n: nat)
    requires |phi| == n && |c| == n && |other| == n
    ensures Gain(phi, y, c, other, n) >= -2.0 * CrossPart(phi, y, c, Difference(other, c), n)
  {
    ResidualMoves(phi, y, c, other, n);
    SquareMoves(Residual(phi, y, c, n), Dot(phi, Difference(other, c), n), Residual(phi, y, other, n));
  }

  lemma SumsGrow(phis: seq<Vector>, ys: Vector, c: Vector, other: Vector, d: Vector, m: nat, n: nat)
    requires Bases(phis, n) && 0 < m <= |phis| && |ys| == |phis| && |c| == n && |other| == n && |d| == n
    ensures SquareSum(phis, ys, other, m, n) - SquareSum(phis, ys, c, m, n)
         == SquareSum(phis, ys, other, m - 1, n) - SquareSum(phis, ys, c, m - 1, n) +
           Gain(phis[m - 1], ys[m - 1], c, other, n)
    ensures Cross(phis, ys, c, d, n, m, n) == Cross(phis, ys, c, d, n, m - 1, n) +
      CrossPart(phis[m - 1], ys[m - 1], c, d, n)
  {
  }

  /** Moving from `c` to `other` adds a square and twice the cross term. */
  lemma {:induction false} SquareSumMoves(phis: seq<Vector>, ys: Vector, c: Vector, other: Vector, m: nat, n: nat)
    requires Bases(phis, n) && m <= |phis| && |ys| == |phis| && |c| == n && |other| == n
    ensures SquareSum(phis, ys, other, m, n)
         >= SquareSum(phis, ys, c, m, n) - 2.0 * Cross(phis, ys, c, Difference(other, c), n, m, n)
  {
    if m > 0 {
      SquareSumMoves(phis, ys, c, other, m - 1, n);
      SumsGrow(phis, ys, c, other, Difference(other, c), m, n);
      GainBounded(phis[m - 1], ys[m - 1], c, other, n);
    }
  }

  /** Coefficients that satisfy the normal equations minimise the residual sum of squares. */
  lemma NormalEquationsMinimise(phis: seq<Vector>, ys: Vector, c: Vector, other: Vector, n: nat)
    requires NormalEquations(phis, ys, c, n) && |other| == n
    ensures SquareSum(phis, ys, c, |phis|, n) <= SquareSum(phis, ys, other, |phis|, n)
  {
    SquareSumMoves(phis, ys, c, other, |phis|, n);
    CrossVanishes(phis, ys, c, Difference(other, c), n, n);
  }
}
