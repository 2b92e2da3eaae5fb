/**
 * Fitting a trend plus one harmonic to resident-memory samples, and the joint search for the period
 * that explains several runs best. Sine, cosine and pi are arbitrary: only the algebra matters.
 */
module Harmonic {
  import opened Text
  import opened LinearSystem
  import opened LeastSquares
  import opened Reals
  import opened Statistics
  import opened TheilSen

  datatype Trigonometry = Trigonometry(pi: real, sin: real -> real, cos: real -> real)

  const WIDTH: nat := 4

  function Times(samples: seq<Sample>): (r: seq<real>)
    ensures |r| == |samples|
  {
    seq(|samples|, i requires 0 <= i < |samples| => samples[i].elapsed)
  }

  function Readings(samples: seq<Sample>): (r: Vector)
    ensures |r| == |samples|
  {
    seq(|samples|, i requires 0 <= i < |samples| => samples[i].rss)
  }

  function Center(samples: seq<Sample>): real {
    var m := Median(Times(samples));
    if m.Some? then m.value else 0.0
  }

  function Basis(sample: Sample, center: real, frequency: real, trig: Trigonometry): (r: Vector)
    ensures |r| == WIDTH && r[0] == 1.0
  {
    BasisAt(sample.elapsed - center, frequency, trig)
  }

  function BasisAt(elapsed: real, frequency: real, trig: Trigonometry): (r: Vector)
    ensures |r| == WIDTH && r[0] == 1.0
  {
    [1.0, elapsed, trig.sin(frequency * elapsed), trig.cos(frequency * elapsed)]
  }

  function Frequency(period: real, trig: Trigonometry): real
    requires period > 0.0
  {
    2.0 * trig.pi / period
  }

  /** One basis vector per sample, for a given center and frequency. */
  function DesignAt(samples: seq<Sample>, center: real, frequency: real, trig: Trigonometry): (r: seq<Vector>)
    ensures |r| == |samples| && Bases(r, WIDTH)
    ensures forall i :: 0 <= i < |r| ==> r[i] == Basis(samples[i], center, frequency, trig)
  {
    seq(|samples|, i requires 0 <= i < |samples| => Basis(samples[i], center, frequency, trig))
  }

  function Design(samples: seq<Sample>, period: real, trig: Trigonometry): (r: seq<Vector>)
    requires period > 0.0
    ensures |r| == |samples| && Bases(r, WIDTH)
  {
    DesignAt(samples, Center(samples), Frequency(period, trig), trig)
  }

  function Sum(ys: Vector, m: nat): real
    requires m <= |ys|
  {
    if m == 0 then 0.0 else Sum(ys, m - 1) + ys[m - 1]
  }

  function Mean(ys: Vector): real
    requires ys != []
  {
    Sum(ys, |ys|) / |ys| as real
  }

  /** Squared deviations from a fixed level. */
  function Deviation(ys: Vector, level: real, m: nat): (s: real)
    requires m <= |ys|
    ensures s >= 0.0
  {
    if m == 0 then 0.0
    else Deviation(ys, level, m - 1) + Squared(ys[m - 1] - level)
  }

  datatype HarmonicFit = HarmonicFit(
    coefficients: Vector,
    rSquared: real,
    trendBytesPerHour: real,
    score: real)

  /**
   * What a fit is: the only coefficients satisfying the normal equations, hence with the smallest
   * residual sum of squares of all four-coefficient fits, and a score that is the share of the total
   * variation left unexplained.
   */
  ghost predicate IsFit(samples: seq<Sample>, period: real, trig: Trigonometry, fit: HarmonicFit) {
    && |samples| >= 4 && period > 0.0 && |fit.coefficients| == WIDTH
    && var phis, ys := Design(samples, period, trig), Readings(samples);
    && (forall c :: NormalEquations(phis, ys, c, WIDTH) <==> c == fit.coefficients)
    && (forall other: Vector :: |other| == WIDTH ==>
         SquareSum(phis, ys, fit.coefficients, |ys|, WIDTH) <= SquareSum(phis, ys, other, |ys|, WIDTH))
    && var residual, total := SquareSum(phis, ys, fit.coefficients, |ys|, WIDTH), Deviation(ys, Mean(ys), |ys|);
    && residual <= total
    && fit.score == (if total == 0.0 then 0.0 else residual / total)
    && 0.0 <= fit.score <= 1.0
    && fit.rSquared == 1.0 - fit.score && 0.0 <= fit.rSquared <= 1.0
    && fit.trendBytesPerHour == fit.coefficients[1] * 3600.0
  }

  /** When a fit is refused: too few samples, no period, or an elimination that is stuck. */
  ghost predicate Refused(samples: seq<Sample>, period: real, trig: Trigonometry) {
    || |samples| < 4
    || period <= 0.0
    || Refuses(NormalSystem(Design(samples, period, trig), Readings(samples)), WIDTH)
  }

  function NormalMatrix(phis: seq<Vector>, m: nat): (r: seq<Vector>)
    requires Bases(phis, WIDTH) && m <= |phis|
  {
    seq(WIDTH, r requires 0 <= r < WIDTH => NormalRow(phis, r, m, WIDTH))
  }

  function NormalValues(phis: seq<Vector>, ys: Vector, m: nat): (r: Vector)
    requires Bases(phis, WIDTH) && m <= |phis| && |ys| == |phis|
  {
    seq(WIDTH, r requires 0 <= r < WIDTH => NormalValue(phis, ys, r, m, WIDTH))
  }

  function NormalSystem(phis: seq<Vector>, ys: Vector): (r: seq<Vector>)
    requires Bases(phis, WIDTH) && |ys| == |phis|
    ensures Shaped(r, WIDTH)
  {
    Augmented(NormalMatrix(phis, |phis|), NormalValues(phis, ys, |phis|))
  }

  lemma {:induction false} DotPrefix(row: Vector, v: real, x: Vector, n: nat)
    requires n <= |row| && n <= |x|
    ensures Dot(row + [v], x, n) == Dot(row, x, n)
  {
    if n > 0 {
      DotPrefix(row, v, x, n - 1);
    }
  }

  /** Solving the normal system is satisfying the normal equations. */
  lemma SystemIsNormalEquations(phis: seq<Vector>, ys: Vector, c: Vector)
    requires Bases(phis, WIDTH) && |ys| == |phis|
    ensures Solves(NormalSystem(phis, ys), c, WIDTH) <==> NormalEquations(phis, ys, c, WIDTH)
  {
    if |c| == WIDTH {
      var rows := NormalSystem(phis, ys);
      forall r | 0 <= r < WIDTH
        ensures Holds(rows[r], c, WIDTH) <==>
                Dot(NormalRow(phis, r, |phis|, WIDTH), c, WIDTH) == NormalValue(phis, ys, r, |phis|, WIDTH)
      {
        DotPrefix(NormalRow(phis, r, |phis|, WIDTH), NormalValue(phis, ys, r, |phis|, WIDTH), c, WIDTH);
      }
    }
  }

  /** The constant fit leaves exactly the deviations from its level. */
  lemma {:induction false} ConstantFit(phis: seq<Vector>, ys: Vector, level: real, m: nat)
    requires Bases(phis, WIDTH) && |ys| == |phis| && m <= |ys|
    requires forall k :: 0 <= k < |phis| ==> phis[k][0] == 1.0
    ensures SquareSum(phis, ys, [level, 0.0, 0.0, 0.0], m, WIDTH) == Deviation(ys, level, m)
  {
    if m > 0 {
      ConstantFit(phis, ys, level, m - 1);
      ConstantPrediction(phis[m - 1], level);
    }
  }

  lemma ConstantPrediction(phi: Vector, level: real)
    requires |phi| == WIDTH && phi[0] == 1.0
    ensures Dot(phi, [level, 0.0, 0.0, 0.0], WIDTH) == level
  {
    var c := [level, 0.0, 0.0, 0.0];
    assert Dot(phi, c, 1) == Dot(phi, c, 0) + phi[0] * c[0];
    assert Dot(phi, c, 2) == Dot(phi, c, 1) + phi[1] * c[1];
    assert Dot(phi, c, 3) == Dot(phi, c, 2) + phi[2] * c[2];
    assert Dot(phi, c, 4) == Dot(phi, c, 3) + phi[3] * c[3];
  }

  lemma RatioInUnit(residual: real, total: real)
    requires 0.0 <= residual <= total && total != 0.0
    ensures 0.0 <= residual / total <= 1.0
  {
    var q := residual / total;
    assert q * total == residual;
  }

  /** The inner loop: adds the products of one basis value to its row of the matrix. */
  method AccumulateRow(row: Vector, factor: real, basis: Vector) returns (r: Vector)
    requires |row| == |basis| == WIDTH
    ensures r == Reduced(row, -factor, basis)
  {
    r := row;
    for column := 0 to WIDTH
      invariant |r| == WIDTH
      invariant forall k :: 0 <= k < column ==> r[k] == row[k] - (-factor) * basis[k]
      invariant forall k :: column <= k < WIDTH ==> r[k] == row[k]
    {
      NegatedProduct(factor, basis[column]);
      r := r[column := r[column] + factor * basis[column]];
    }
    assert forall k :: 0 <= k < WIDTH ==> r[k] == Reduced(row, -factor, basis)[k];
  }

  lemma NegatedProduct(x: real, y: real)
    ensures x * y == -((-x) * y)
  {
  }

  /** Every row and value has gained the products of one sample. */
  ghost predicate Added(matrix: seq<Vector>, values: Vector, basis: Vector, rss: real,
                        newMatrix: seq<Vector>, newValues: Vector) {
    && |matrix| == |newMatrix| == WIDTH && |values| == |newValues| == WIDTH && |basis| == WIDTH
    && (forall r :: 0 <= r < WIDTH ==> |matrix[r]| == WIDTH && newMatrix[r] == Reduced(matrix[r], -basis[r], basis))
    && (forall r :: 0 <= r < WIDTH ==> newValues[r] == values[r] + basis[r] * rss)
  }

  /** Adds one sample to the normal matrix and its right-hand side. */
  method Accumulate(matrix: seq<Vector>, values: Vector, basis: Vector, rss: real)
    returns (newMatrix: seq<Vector>, newValues: Vector)
    requires |matrix| == WIDTH && |values| == WIDTH && |basis| == WIDTH
    requires forall r :: 0 <= r < WIDTH ==> |matrix[r]| == WIDTH
    ensures Added(matrix, values, basis, rss, newMatrix, newValues)
  {
    newMatrix, newValues := matrix, values;
    for row := 0 to WIDTH
      invariant |newMatrix| == WIDTH && |newValues| == WIDTH
      invariant forall r :: 0 <= r < row ==> newMatrix[r] == Reduced(matrix[r], -basis[r], basis)
      invariant forall r :: row <= r < WIDTH ==> newMatrix[r] == matrix[r] && newValues[r] == values[r]
      invariant forall r :: 0 <= r < row ==> newValues[r] == values[r] + basis[r] * rss
    {
      newValues := newValues[row := newValues[row] + basis[row] * rss];
      var sums := AccumulateRow(newMatrix[row], basis[row], basis);
      newMatrix := newMatrix[row := sums];
    }
  }

  /** The normal equations of the first `i` samples. */
  ghost predicate Accumulated(phis: seq<Vector>, ys: Vector, i: nat, matrix: seq<Vector>, values: Vector) {
    && Bases(phis, WIDTH) && |ys| == |phis| && i <= |phis|
    && matrix == NormalMatrix(phis, i) && values == NormalValues(phis, ys, i)
  }

  method BuildNormalEquations(samples: seq<Sample>, center: real, frequency: real, trig: Trigonometry)
    returns (matrix: seq<Vector>, values: Vector)
    ensures var phis, ys := DesignAt(samples, center, frequency, trig), Readings(samples);
      matrix == NormalMatrix(phis, |phis|) && values == NormalValues(phis, ys, |phis|)
  {
    ghost var phis, ys := DesignAt(samples, center, frequency, trig), Readings(samples);
    matrix := seq(WIDTH, _ => seq(WIDTH, _ => 0.0));
    values := seq(WIDTH, _ => 0.0);
    NormalStart(phis, ys, matrix, values);
    for i := 0 to |samples|
      invariant Accumulated(phis, ys, i, matrix, values)
    {
      var basis := Basis(samples[i], center, frequency, trig);
      assert basis == phis[i] && samples[i].rss == ys[i];
      ghost var rows, sums := matrix, values;
      matrix, values := Accumulate(matrix, values, basis, samples[i].rss);
      NormalStep(phis, ys, i, rows, sums, matrix, values);
    }
  }

  lemma NormalStart(phis: seq<Vector>, ys: Vector, matrix: seq<Vector>, values: Vector)
    requires Bases(phis, WIDTH) && |ys| == |phis| && |matrix| == WIDTH && |values| == WIDTH
    requires forall r :: 0 <= r < WIDTH ==> matrix[r] == seq(WIDTH, _ => 0.0) && values[r] == 0.0
    ensures Accumulated(phis, ys, 0, matrix, values)
  {
    forall r | 0 <= r < WIDTH
      ensures matrix[r] == NormalRow(phis, r, 0, WIDTH)
    {
      assert matrix[r] == seq(WIDTH, _ => 0.0);
    }
  }

  lemma NormalStep(phis: seq<Vector>, ys: Vector, i: nat, rows: seq<Vector>, sums: Vector,
                   matrix: seq<Vector>, values: Vector)
    requires i < |phis| && Accumulated(phis, ys, i, rows, sums) && Added(rows, sums, phis[i], ys[i], matrix, values)
    ensures Accumulated(phis, ys, i + 1, matrix, values)
  {
    forall r | 0 <= r < WIDTH
      ensures matrix[r] == NormalRow(phis, r, i + 1, WIDTH) && values[r] == NormalValue(phis, ys, r, i + 1, WIDTH)
    {
    }
  }

  /** The residual and total sums of squares, sample by sample. */
  method SumSquares(samples: seq<Sample>, center: real, frequency: real, trig: Trigonometry, c: Vector, mean: real)
    returns (residualSquares: real, totalSquares: real)
    requires |c| == WIDTH
    ensures residualSquares ==
      SquareSum(DesignAt(samples, center, frequency, trig), Readings(samples), c, |samples|, WIDTH)
    ensures totalSquares == Deviation(Readings(samples), mean, |samples|)
  {
    ghost var phis, ys := DesignAt(samples, center, frequency, trig), Readings(samples);
    residualSquares, totalSquares := 0.0, 0.0;
    for i := 0 to |samples|
      invariant residualSquares == SquareSum(phis, ys, c, i, WIDTH)
      invariant totalSquares == Deviation(ys, mean, i)
    {
      var basis := Basis(samples[i], center, frequency, trig);
      assert basis == phis[i] && samples[i].rss == ys[i];
      PredictionIsDot(basis, c);
      var residual := samples[i].rss - (c[0] + c[1] * basis[1] + c[2] * basis[2] + c[3] * basis[3]);
      assert residual == Residual(phis[i], ys[i], c, WIDTH);
      SumsStep(phis, ys, c, mean, i);
      residualSquares := residualSquares + Squared(residual);
      totalSquares := totalSquares + Squared(samples[i].rss - mean);
    }
  }

  lemma SumsStep(phis: seq<Vector>, ys: Vector, c: Vector, mean: real, i: nat)
    requires Bases(phis, WIDTH) && |ys| == |phis| && |c| == WIDTH && i < |ys|
    ensures SquareSum(phis, ys, c, i + 1, WIDTH) == SquareSum(phis, ys, c, i, WIDTH) +
      Squared(Residual(phis[i], ys[i], c, WIDTH))
    ensures Deviation(ys, mean, i + 1) == Deviation(ys, mean, i) + Squared(ys[i] - mean)
  {
  }

  lemma PredictionIsDot(phi: Vector, c: Vector)
    requires |phi| == WIDTH && |c| == WIDTH && phi[0] == 1.0
    ensures Dot(phi, c, WIDTH) == c[0] + c[1] * phi[1] + c[2] * phi[2] + c[3] * phi[3]
  {
    assert Dot(phi, c, 1) == Dot(phi, c, 0) + phi[0] * c[0];
    assert Dot(phi, c, 2) == Dot(phi, c, 1) + phi[1] * c[1];
    assert Dot(phi, c, 3) == Dot(phi, c, 2) + phi[2] * c[2];
    assert Dot(phi, c, 4) == Dot(phi, c, 3) + phi[3] * c[3];
  }

  method AverageReading(samples: seq<Sample>) returns (mean: real)
    requires samples != []
    ensures mean == Mean(Readings(samples))
  {
    var total := 0.0;
    for i := 0 to |samples|
      invariant total == Sum(Readings(samples), i)
    {
      total := total + samples[i].rss;
    }
    mean := total / |samples| as real;
  }

  /** The unique solution of the normal system minimises, so it explains at least what the mean does. */
  lemma SolutionFits(samples: seq<Sample>, period: real, trig: Trigonometry, c: Vector)
    requires samples != [] && period > 0.0
    requires var phis, ys := Design(samples, period, trig), Readings(samples);
      forall x :: Solves(NormalSystem(phis, ys), x, WIDTH) <==> x == c
    ensures var phis, ys := Design(samples, period, trig), Readings(samples);
      && |c| == WIDTH
      && (forall x :: NormalEquations(phis, ys, x, WIDTH) <==> x == c)
      && (forall other: Vector :: |other| == WIDTH ==>
           SquareSum(phis, ys, c, |ys|, WIDTH) <= SquareSum(phis, ys, other, |ys|, WIDTH))
      && SquareSum(phis, ys, c, |ys|, WIDTH) <= Deviation(ys, Mean(ys), |ys|)
  {
    var phis, ys := Design(samples, period, trig), Readings(samples);
    SolutionMinimises(phis, ys, c);
    ConstantFit(phis, ys, Mean(ys), |ys|);
    assert |[Mean(ys), 0.0, 0.0, 0.0]| == WIDTH;
  }

  lemma SolutionMinimises(phis: seq<Vector>, ys: Vector, c: Vector)
    requires Bases(phis, WIDTH) && |ys| == |phis|
    requires forall x :: Solves(NormalSystem(phis, ys), x, WIDTH) <==> x == c
    ensures |c| == WIDTH
    ensures forall x :: NormalEquations(phis, ys, x, WIDTH) <==> x == c
    ensures forall other: Vector :: |other| == WIDTH ==>
      SquareSum(phis, ys, c, |ys|, WIDTH) <= SquareSum(phis, ys, other, |ys|, WIDTH)
  {
    assert Solves(NormalSystem(phis, ys), c, WIDTH);
    forall x
      ensures NormalEquations(phis, ys, x, WIDTH) <==> x == c
    {
      SystemIsNormalEquations(phis, ys, x);
    }
    assert NormalEquations(phis, ys, c, WIDTH);
    forall other: Vector | |other| == WIDTH
      ensures SquareSum(phis, ys, c, |ys|, WIDTH) <= SquareSum(phis, ys, other, |ys|, WIDTH)
    {
      NormalEquationsMinimise(phis, ys, c, other, WIDTH);
    }
  }

  // ----- a signal is recovered -----

  /** The reading of a trend plus one wave of the period, `e` seconds from the median time. */
  function Wave(a: real, b: real, c: real, d: real, period: real, trig: Trigonometry, e: real): real
    requires period > 0.0
  {
    a + b * e + c * trig.sin(Angle(period, trig, e)) + d * trig.cos(Angle(period, trig, e))
  }

  function Angle(period: real, trig: Trigonometry, e: real): real
    requires period > 0.0
  {
    2.0 * trig.pi / period * e
  }

  /** Every reading lies on the wave. */
  ghost predicate OnWave(samples: seq<Sample>, period: real, trig: Trigonometry, a: real, b: real, c: real, d: real) {
    period > 0.0 && samples != [] &&
    forall i :: 0 <= i < |samples| ==>
      samples[i].rss == Wave(a, b, c, d, period, trig, samples[i].elapsed - MedianTime(samples))
  }

  function MedianTime(samples: seq<Sample>): real
    requires samples != []
  {
    Middle(Sort(seq(|samples|, i requires 0 <= i < |samples| => samples[i].elapsed)))
  }

  lemma CenterIsMedianTime(samples: seq<Sample>)
    requires samples != []
    ensures Center(samples) == MedianTime(samples)
  {
    assert Times(samples) == seq(|samples|, j requires 0 <= j < |samples| => samples[j].elapsed);
  }

  lemma WaveIsPrediction(e: real, frequency: real, period: real, trig: Trigonometry, x: Vector)
    requires |x| == WIDTH && period > 0.0 && frequency == 2.0 * trig.pi / period
    ensures Dot(BasisAt(e, frequency, trig), x, WIDTH) == Wave(x[0], x[1], x[2], x[3], period, trig, e)
  {
    var phi, angle := BasisAt(e, frequency, trig), frequency * e;
    PredictionIsDot(phi, x);
    SameFactor(frequency, 2.0 * trig.pi / period, e);
    assert angle == Angle(period, trig, e);
    assert phi[1] == e && phi[2] == trig.sin(angle) && phi[3] == trig.cos(angle);
  }

  lemma WaveHasNoResidual(samples: seq<Sample>, period: real, trig: Trigonometry, x: Vector, i: nat)
    requires |x| == WIDTH && OnWave(samples, period, trig, x[0], x[1], x[2], x[3]) && i < |samples|
    ensures Residual(Design(samples, period, trig)[i], Readings(samples)[i], x, WIDTH) == 0.0
  {
    CenterIsMedianTime(samples);
    WaveIsPrediction(samples[i].elapsed - Center(samples), Frequency(period, trig), period, trig, x);
  }

  lemma {:induction false} NoResidualsNoDefect(phis: seq<Vector>, ys: Vector, x: Vector, r: nat, m: nat)
    requires Bases(phis, WIDTH) && m <= |phis| && |ys| == |phis| && |x| == WIDTH && r < WIDTH
    requires forall i :: 0 <= i < |phis| ==> Residual(phis[i], ys[i], x, WIDTH) == 0.0
    ensures Overlap(phis, ys, x, r, m, WIDTH) == 0.0 && SquareSum(phis, ys, x, m, WIDTH) == 0.0
  {
    if m > 0 {
      NoResidualsNoDefect(phis, ys, x, r, m - 1);
      assert Residual(phis[m - 1], ys[m - 1], x, WIDTH) == 0.0;
    }
  }

  lemma WaveSolves(samples: seq<Sample>, period: real, trig: Trigonometry, x: Vector)
    requires |x| == WIDTH && OnWave(samples, period, trig, x[0], x[1], x[2], x[3])
    ensures var phis, ys := Design(samples, period, trig), Readings(samples);
      NormalEquations(phis, ys, x, WIDTH) && SquareSum(phis, ys, x, |ys|, WIDTH) == 0.0
  {
    var phis, ys := Design(samples, period, trig), Readings(samples);
    forall i | 0 <= i < |phis|
      ensures Residual(phis[i], ys[i], x, WIDTH) == 0.0
    {
      WaveHasNoResidual(samples, period, trig, x, i);
    }
    forall r | 0 <= r < WIDTH
      ensures Dot(NormalRow(phis, r, |phis|, WIDTH), x, WIDTH) == NormalValue(phis, ys, r, |phis|, WIDTH)
    {
      NoResidualsNoDefect(phis, ys, x, r, |phis|);
      OverlapIsDefect(phis, ys, x, r, |phis|, WIDTH);
    }
    NoResidualsNoDefect(phis, ys, x, 0, |ys|);
  }

  /** What a fit finds in the readings of a wave: its four coefficients, and nothing left unexplained. */
  ghost predicate Recovers(fit: HarmonicFit, a: real, b: real, c: real, d: real) {
    && fit.coefficients == [a, b, c, d] && fit.score == 0.0 && fit.rSquared == 1.0
    && fit.trendBytesPerHour == b * 3600.0
  }

  lemma SignalRecovered(samples: seq<Sample>, period: real, trig: Trigonometry, fit: HarmonicFit,
                        a: real, b: real, c: real, d: real)
    requires IsFit(samples, period, trig, fit) && OnWave(samples, period, trig, a, b, c, d)
    ensures Recovers(fit, a, b, c, d)
  {
    WaveSolves(samples, period, trig, [a, b, c, d]);
    assert fit.coefficients == [a, b, c, d];
  }

  lemma EverySignalRecovered(samples: seq<Sample>, period: real, trig: Trigonometry, fit: HarmonicFit)
    requires IsFit(samples, period, trig, fit)
    ensures forall a, b, c, d :: OnWave(samples, period, trig, a, b, c, d) ==> Recovers(fit, a, b, c, d)
  {
    forall a, b, c, d | OnWave(samples, period, trig, a, b, c, d)
      ensures Recovers(fit, a, b, c, d)
    {
      SignalRecovered(samples, period, trig, fit, a, b, c, d);
    }
  }

  // ----- the mean -----

  lemma ShiftedSquare(z: real, g: real)
    ensures (z + g) * (z + g) == z * z + 2.0 * (g * z) + g * g
  {
  }

  /** The readings' deviations from a level, summed with their signs and weighed by `g`. */
  function Drift(ys: Vector, level: real, g: real, m: nat): real
    requires m <= |ys|
  {
    if m == 0 then 0.0 else Drift(ys, level, g, m - 1) + Weighed(g, ys[m - 1] - level)
  }

  function Weighed(g: real, z: real): real {
    g * z
  }

  function Repeated(q: real, m: nat): real {
    if m == 0 then 0.0 else Repeated(q, m - 1) + q
  }

  lemma DriftStep(drift: real, g: real, sum: real, y: real, level: real, k: real)
    requires drift == g * (sum - k * level)
    ensures drift + Weighed(g, y - level) == g * (sum + y - (k + 1.0) * level)
  {
    OneMore(k, level);
  }

  lemma {:induction false} DriftIs(ys: Vector, level: real, g: real, m: nat)
    requires m <= |ys|
    ensures Drift(ys, level, g, m) == g * (Sum(ys, m) - m as real * level)
  {
    if m > 0 {
      DriftIs(ys, level, g, m - 1);
      DriftStep(Drift(ys, level, g, m - 1), g, Sum(ys, m - 1), ys[m - 1], level, (m - 1) as real);
      assert m as real == (m - 1) as real + 1.0;
    }
  }

  lemma {:induction false} RepeatedSign(q: real, m: nat)
    requires q >= 0.0
    ensures Repeated(q, m) >= 0.0 && (q > 0.0 && m > 0 ==> Repeated(q, m) > 0.0)
  {
    if m > 0 {
      RepeatedSign(q, m - 1);
    }
  }

  lemma StepsDiffer(u: real, z: real, g: real, before: real, after: real, meanBefore: real, meanAfter: real)
    requires g == u - z && after == before + Squared(u) && meanAfter == meanBefore + Squared(z)
    ensures after - before == meanAfter - meanBefore + 2.0 * Weighed(g, z) + Squared(g)
  {
    ShiftedSquare(z, g);
  }

  lemma TwoDeviations(ys: Vector, mean: real, level: real, g: real, m: nat)
    requires 0 < m <= |ys| && g == mean - level
    ensures Deviation(ys, level, m) - Deviation(ys, level, m - 1) ==
      Deviation(ys, mean, m) - Deviation(ys, mean, m - 1) + 2.0 * Weighed(g, ys[m - 1] - mean) + Squared(g)
  {
    StepsDiffer(ys[m - 1] - level, ys[m - 1] - mean, g, Deviation(ys, level, m - 1), Deviation(ys, level, m),
                Deviation(ys, mean, m - 1), Deviation(ys, mean, m));
  }

  /** The level moved by `g` from the mean adds twice the drift, and the square of `g` each time. */
  lemma {:induction false} DeviationShift(ys: Vector, mean: real, level: real, g: real, m: nat)
    requires m <= |ys| && g == mean - level
    ensures Deviation(ys, level, m) ==
      Deviation(ys, mean, m) + 2.0 * Drift(ys, mean, g, m) + Repeated(Squared(g), m)
  {
    if m > 0 {
      DeviationShift(ys, mean, level, g, m - 1);
      TwoDeviations(ys, mean, level, g, m);
    }
  }

  lemma NoDriftFromMean(ys: Vector, g: real)
    requires ys != []
    ensures Drift(ys, Mean(ys), g, |ys|) == 0.0
  {
    DriftIs(ys, Mean(ys), g, |ys|);
    assert |ys| as real * Mean(ys) == Sum(ys, |ys|);
    ZeroFactor(g, Sum(ys, |ys|) - |ys| as real * Mean(ys));
  }

  /** The mean is the one level from which the readings deviate least. */
  lemma MeanIsLeast(ys: Vector, level: real)
    requires ys != []
    ensures Deviation(ys, Mean(ys), |ys|) <= Deviation(ys, level, |ys|)
    ensures level != Mean(ys) ==> Deviation(ys, Mean(ys), |ys|) < Deviation(ys, level, |ys|)
  {
    var g := Mean(ys) - level;
    DeviationShift(ys, Mean(ys), level, g, |ys|);
    NoDriftFromMean(ys, g);
    SquarePositive(g, Squared(g));
    RepeatedSign(Squared(g), |ys|);
  }

  // ----- the fit -----

  /**
   * `fitHarmonic`. Readings that lie on a wave of the period are recovered exactly; every other fit is
   * the only optimal one.
   */
  method FitHarmonic(samples: seq<Sample>, period: real, trig: Trigonometry) returns (fit: Option<HarmonicFit>)
    ensures fit.Some? ==> IsFit(samples, period, trig, fit.value)
    ensures fit.Some? ==> forall a, b, c, d :: OnWave(samples, period, trig, a, b, c, d) ==>
      Recovers(fit.value, a, b, c, d)
    ensures fit.None? <==> Refused(samples, period, trig)
  {
    if |samples| < 4 || period <= 0.0 {
      return None;
    }
    var center := Center(samples);
    var frequency := Frequency(period, trig);
    var matrix, values := BuildNormalEquations(samples, center, frequency, trig);
    assert Augmented(matrix, values) == NormalSystem(Design(samples, period, trig), Readings(samples));
    var coefficients := SolveLinearSystem(matrix, values);
    if coefficients.None? {
      return None;
    }
    var c := coefficients.value;
    SolutionFits(samples, period, trig, c);
    var mean := AverageReading(samples);
    var residualSquares, totalSquares := SumSquares(samples, center, frequency, trig, c, mean);
    var score := if totalSquares == 0.0 then 0.0 else residualSquares / totalSquares;
    if totalSquares != 0.0 {
      RatioInUnit(residualSquares, totalSquares);
    }
    fit := Some(HarmonicFit(c, 1.0 - score, c[1] * 3600.0, score));
    EverySignalRecovered(samples, period, trig, fit.value);
  }

  // ----- the joint period -----

  datatype JointFit = JointFit(period: real, fits: seq<HarmonicFit>, score: real)

  function TotalScore(fits: seq<HarmonicFit>, m: nat): real
    requires m <= |fits|
  {
    if m == 0 then 0.0 else TotalScore(fits, m - 1) + fits[m - 1].score
  }

  ghost predicate IsJointFit(runs: seq<seq<Sample>>, trig: Trigonometry, joint: JointFit) {
    && |joint.fits| == |runs|
    && (forall i :: 0 <= i < |runs| ==> IsFit(runs[i], joint.period, trig, joint.fits[i]))
    && joint.score == TotalScore(joint.fits, |joint.fits|)
  }

  /** Each run adds a share between nothing and everything. */
  lemma {:induction false} TotalScoreRange(fits: seq<HarmonicFit>, m: nat)
    requires m <= |fits| && forall i :: 0 <= i < |fits| ==> 0.0 <= fits[i].score <= 1.0
    ensures 0.0 <= TotalScore(fits, m) <= m as real
  {
    if m > 0 {
      TotalScoreRange(fits, m - 1);
    }
  }

  ghost predicate SomeRunRefused(runs: seq<seq<Sample>>, period: real, trig: Trigonometry) {
    exists i :: 0 <= i < |runs| && Refused(runs[i], period, trig)
  }

  ghost predicate RefusedAt(runs: seq<seq<Sample>>, minimum: real, maximum: real, k: nat, trig: Trigonometry) {
    minimum + k as real <= maximum && SomeRunRefused(runs, minimum + k as real, trig)
  }

  lemma JointScoreRange(runs: seq<seq<Sample>>, trig: Trigonometry, joint: JointFit)
    requires IsJointFit(runs, trig, joint)
    ensures 0.0 <= joint.score <= |runs| as real
  {
    TotalScoreRange(joint.fits, |runs|);
  }

  method SumScores(fits: seq<HarmonicFit>) returns (score: real)
    ensures score == TotalScore(fits, |fits|)
  {
    score := 0.0;
    for i := 0 to |fits|
      invariant score == TotalScore(fits, i)
    {
      score := score + fits[i].score;
    }
  }

  ghost predicate FitsSoFar(runs: seq<seq<Sample>>, period: real, trig: Trigonometry, fits: seq<HarmonicFit>) {
    |fits| <= |runs|
    && forall k :: 0 <= k < |fits| ==> IsFit(runs[k], period, trig, fits[k]) && !Refused(runs[k], period, trig)
  }

  lemma FitsGrow(runs: seq<seq<Sample>>, period: real, trig: Trigonometry, fits: seq<HarmonicFit>, fit: HarmonicFit)
    requires FitsSoFar(runs, period, trig, fits) && |fits| < |runs|
    requires IsFit(runs[|fits|], period, trig, fit) && !Refused(runs[|fits|], period, trig)
    ensures FitsSoFar(runs, period, trig, fits + [fit])
  {
  }

  lemma RunRefused(runs: seq<seq<Sample>>, period: real, trig: Trigonometry, i: nat)
    requires i < |runs| && Refused(runs[i], period, trig)
    ensures SomeRunRefused(runs, period, trig)
  {
  }

  lemma FitsComplete(runs: seq<seq<Sample>>, period: real, trig: Trigonometry, fits: seq<HarmonicFit>, joint: JointFit)
    requires FitsSoFar(runs, period, trig, fits) && |fits| == |runs|
    requires joint == JointFit(period, fits, TotalScore(fits, |fits|))
    ensures IsJointFit(runs, trig, joint) && !SomeRunRefused(runs, period, trig)
    ensures 0.0 <= joint.score <= |runs| as real
  {
    JointScoreRange(runs, trig, joint);
  }

  method FitAll(runs: seq<seq<Sample>>, period: real, trig: Trigonometry) returns (joint: Option<JointFit>)
    ensures joint.Some? ==> joint.value.period == period && IsJointFit(runs, trig, joint.value)
    ensures joint.Some? ==> 0.0 <= joint.value.score <= |runs| as real
    ensures joint.None? <==> SomeRunRefused(runs, period, trig)
  {
    var fits: seq<HarmonicFit> := [];
    for i := 0 to |runs|
      invariant |fits| == i && FitsSoFar(runs, period, trig, fits)
    {
      var fit := FitHarmonic(runs[i], period, trig);
      if fit.None? {
        RunRefused(runs, period, trig, i);
        return None;
      }
      FitsGrow(runs, period, trig, fits, fit.value);
      fits := fits + [fit.value];
    }
    var score := SumScores(fits);
    joint := Some(JointFit(period, fits, score));
    FitsComplete(runs, period, trig, fits, joint.value);
  }

  /** The candidates tried so far: one joint fit for each whole second from the minimum on. */
  ghost predicate Candidates(runs: seq<seq<Sample>>, trig: Trigonometry, minimum: real, tried: seq<JointFit>) {
    forall k :: 0 <= k < |tried| ==> tried[k].period == minimum + k as real && IsJointFit(runs, trig, tried[k])
  }

  lemma CandidatesGrow(runs: seq<seq<Sample>>, trig: Trigonometry, minimum: real, tried: seq<JointFit>, next: JointFit)
    requires Candidates(runs, trig, minimum, tried)
    requires IsJointFit(runs, trig, next) && next.period == minimum + |tried| as real
    ensures Candidates(runs, trig, minimum, tried + [next])
  {
  }

  /** The first candidate of least score. */
  ghost predicate FirstLeast(best: JointFit, tried: seq<JointFit>) {
    exists k :: FirstLeastAt(best, tried, k)
  }

  ghost predicate FirstLeastAt(best: JointFit, tried: seq<JointFit>, k: nat) {
    && k < |tried| && best == tried[k]
    && (forall l :: 0 <= l < |tried| ==> tried[l].score >= best.score)
    && (forall l :: 0 <= l < k ==> tried[l].score > best.score)
  }

  lemma FirstLeastGrows(best: JointFit, tried: seq<JointFit>, next: JointFit)
    requires FirstLeast(best, tried)
    ensures FirstLeast(if next.score < best.score then next else best, tried + [next])
  {
    var k :| FirstLeastAt(best, tried, k);
    var all := tried + [next];
    if next.score < best.score {
      assert FirstLeastAt(next, all, |tried|);
    } else {
      assert FirstLeastAt(best, all, k);
    }
  }

  ghost predicate LeastSoFar(best: Option<JointFit>, tried: seq<JointFit>) {
    (best.None? <==> tried == []) && (best.Some? ==> FirstLeast(best.value, tried))
  }

  lemma LeastGrows(best: Option<JointFit>, tried: seq<JointFit>, next: JointFit)
    requires LeastSoFar(best, tried)
    ensures LeastSoFar(if best.None? || next.score < best.value.score then Some(next) else best, tried + [next])
  {
    if best.Some? {
      FirstLeastGrows(best.value, tried, next);
    } else {
      assert FirstLeastAt(next, tried + [next], 0);
    }
  }

  /** `tried` holds one joint fit for every whole second of the range and `best` is its first least. */
  ghost predicate SearchedRange(runs: seq<seq<Sample>>, trig: Trigonometry, minimum: real, maximum: real,
                                best: JointFit, tried: seq<JointFit>) {
    && Candidates(runs, trig, minimum, tried) && FirstLeast(best, tried)
    && minimum + (|tried| - 1) as real <= maximum < minimum + |tried| as real
  }

  ghost predicate BestOfRange(runs: seq<seq<Sample>>, trig: Trigonometry, minimum: real, maximum: real,
                              best: JointFit) {
    exists tried :: SearchedRange(runs, trig, minimum, maximum, best, tried)
  }

  lemma RefusedHere(runs: seq<seq<Sample>>, minimum: real, maximum: real, k: nat, period: real, trig: Trigonometry)
    requires period == minimum + k as real && period <= maximum && SomeRunRefused(runs, period, trig)
    ensures RefusedAt(runs, minimum, maximum, k, trig)
  {
  }

  ghost predicate NoneRefused(runs: seq<seq<Sample>>, minimum: real, maximum: real, n: nat, trig: Trigonometry) {
    forall k: nat :: k < n ==> !RefusedAt(runs, minimum, maximum, k, trig)
  }

  lemma NoneRefusedGrows(runs: seq<seq<Sample>>, minimum: real, maximum: real, n: nat, period: real, trig: Trigonometry)
    requires NoneRefused(runs, minimum, maximum, n, trig)
    requires period == minimum + n as real && !SomeRunRefused(runs, period, trig)
    ensures NoneRefused(runs, minimum, maximum, n + 1, trig)
  {
  }

  lemma NoneRefusedAll(runs: seq<seq<Sample>>, minimum: real, maximum: real, n: nat, trig: Trigonometry)
    requires NoneRefused(runs, minimum, maximum, n, trig) && maximum < minimum + n as real
    ensures forall k: nat :: !RefusedAt(runs, minimum, maximum, k, trig)
  {
  }

  /** Every run is a wave of the period, each with its own coefficients. */
  ghost predicate AllOnWaves(runs: seq<seq<Sample>>, period: real, trig: Trigonometry) {
    forall i :: 0 <= i < |runs| ==> exists a, b, c, d :: OnWave(runs[i], period, trig, a, b, c, d)
  }

  lemma {:induction false} NoScoreInTotal(fits: seq<HarmonicFit>, m: nat)
    requires m <= |fits| && forall i :: 0 <= i < |fits| ==> fits[i].score == 0.0
    ensures TotalScore(fits, m) == 0.0
  {
    if m > 0 {
      NoScoreInTotal(fits, m - 1);
    }
  }

  lemma WavesScoreNothing(runs: seq<seq<Sample>>, trig: Trigonometry, joint: JointFit)
    requires IsJointFit(runs, trig, joint) && AllOnWaves(runs, joint.period, trig)
    ensures joint.score == 0.0
  {
    forall i | 0 <= i < |runs|
      ensures joint.fits[i].score == 0.0
    {
      var a, b, c, d :| OnWave(runs[i], joint.period, trig, a, b, c, d);
      SignalRecovered(runs[i], joint.period, trig, joint.fits[i], a, b, c, d);
    }
    NoScoreInTotal(joint.fits, |joint.fits|);
  }

  /** Runs that are waves of one period in the range are explained completely, by that or a smaller period. */
  lemma PeriodRecovered(runs: seq<seq<Sample>>, trig: Trigonometry, minimum: real, maximum: real, best: JointFit,
                        k: nat)
    requires BestOfRange(runs, trig, minimum, maximum, best)
    requires minimum + k as real <= maximum && AllOnWaves(runs, minimum + k as real, trig)
    ensures best.score == 0.0 && best.period <= minimum + k as real
  {
    var tried: seq<JointFit> :| SearchedRange(runs, trig, minimum, maximum, best, tried);
    WavesScoreNothing(runs, trig, tried[k]);
    var j: nat :| FirstLeastAt(best, tried, j);
    JointScoreRange(runs, trig, best);
  }

  /**
   * The period of least joint score among the whole seconds of the range, the smallest such period
   * on ties; its score lies between 0 and the number of runs.
   */
  method FindJointHarmonicPeriod(runs: seq<seq<Sample>>, minimum: real, maximum: real, trig: Trigonometry)
    returns (best: Option<JointFit>)
    ensures best.Some? ==> BestOfRange(runs, trig, minimum, maximum, best.value)
    ensures best.Some? ==> 0.0 <= best.value.score <= |runs| as real
    ensures best.None? <==>
      || runs == [] || minimum > maximum
      || exists k: nat :: RefusedAt(runs, minimum, maximum, k, trig)
  {
    if |runs| == 0 || minimum > maximum {
      return None;
    }
    ghost var tried: seq<JointFit> := [];
    best := None;
    var period := minimum;
    while period <= maximum
      invariant period == minimum + |tried| as real
      invariant |tried| > 0 ==> minimum + (|tried| - 1) as real <= maximum
      invariant Candidates(runs, trig, minimum, tried) && LeastSoFar(best, tried)
      invariant NoneRefused(runs, minimum, maximum, |tried|, trig)
      invariant best.Some? ==> 0.0 <= best.value.score <= |runs| as real
      decreases maximum - period
    {
      var joint := FitAll(runs, period, trig);
      if joint.None? {
        RefusedHere(runs, minimum, maximum, |tried|, period, trig);
        return None;
      }
      NoneRefusedGrows(runs, minimum, maximum, |tried|, period, trig);
      CandidatesGrow(runs, trig, minimum, tried, joint.value);
      LeastGrows(best, tried, joint.value);
      if best.None? || joint.value.score < best.value.score {
        best := joint;
      }
      tried := tried + [joint.value];
      period := period + 1.0;
    }
    assert SearchedRange(runs, trig, minimum, maximum, best.value, tried);
    NoneRefusedAll(runs, minimum, maximum, |tried|, trig);
  }
}
