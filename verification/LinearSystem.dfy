/** Gauss-Jordan elimination with partial pivoting, over exact reals. */
module LinearSystem {
  import opened Reals
  import opened Text

  type Vector = seq<real>

  /** `Number.EPSILON`. */
  const EPSILON: real := 1.0 / 4503599627370496.0

  /** The first `n` products of a row with `x`. */
  function Dot(row: Vector, x: Vector, n: nat): real
    requires n <= |row| && n <= |x|
  {
    if n == 0 then 0.0 else Dot(row, x, n - 1) + row[n - 1] * x[n - 1]
  }

  /** Rows of `n` coefficients followed by the right-hand side. */
  ghost predicate Shaped(rows: seq<Vector>, n: nat) {
    |rows| == n && forall r :: 0 <= r < n ==> |rows[r]| == n + 1
  }

  predicate Holds(row: Vector, x: Vector, n: nat)
    requires |row| == n + 1 && |x| == n
  {
    Dot(row, x, n) == row[n]
  }

  ghost predicate Solves(rows: seq<Vector>, x: Vector, n: nat)
    requires Shaped(rows, n)
  {
    |x| == n && forall r :: 0 <= r < n ==> Holds(rows[r], x, n)
  }

  ghost predicate SameSolutions(a: seq<Vector>, b: seq<Vector>, n: nat) {
    && Shaped(a, n) && Shaped(b, n)
    && forall x :: Solves(a, x, n) <==> Solves(b, x, n)
  }

  function Scaled(row: Vector, d: real): (r: Vector)
    requires d != 0.0
    ensures |r| == |row|
  {
    seq(|row|, i requires 0 <= i < |row| => row[i] / d)
  }

  function Reduced(row: Vector, factor: real, pivot: Vector): (r: Vector)
    requires |row| == |pivot|
    ensures |r| == |row|
  {
    seq(|row|, i requires 0 <= i < |row| => row[i] - factor * pivot[i])
  }

  // ----- row operations keep the solutions -----

  lemma DivisionMoves(a: real, d: real, x: real)
    requires d != 0.0
    ensures (a / d) * x == (a * x) / d
  {
    var q := a / d;
    assert q * d == a;
    assert (q * x) * d == a * x;
  }

  lemma {:induction false} DotScaled(row: Vector, d: real, x: Vector, n: nat)
    requires d != 0.0 && n <= |row| && n <= |x|
    ensures Dot(Scaled(row, d), x, n) == Dot(row, x, n) / d
  {
    if n > 0 {
      DotScaled(row, d, x, n - 1);
      DivisionMoves(row[n - 1], d, x[n - 1]);
    }
  }

  lemma {:induction false} DotReduced(row: Vector, f: real, pivot: Vector, x: Vector, n: nat)
    requires |row| == |pivot| && n <= |row| && n <= |x|
    ensures Dot(Reduced(row, f, pivot), x, n) == Dot(row, x, n) - f * Dot(pivot, x, n)
  {
    if n > 0 {
      DotReduced(row, f, pivot, x, n - 1);
      var a, p, y := row[n - 1], pivot[n - 1], x[n - 1];
      assert (a - f * p) * y == a * y - f * (p * y);
      assert f * (Dot(pivot, x, n - 1) + p * y) == f * Dot(pivot, x, n - 1) + f * (p * y);
    }
  }

  lemma ScaledHolds(row: Vector, d: real, x: Vector, n: nat)
    requires d != 0.0 && |row| == n + 1 && |x| == n
    ensures Holds(Scaled(row, d), x, n) <==> Holds(row, x, n)
  {
    DotScaled(row, d, x, n);
    assert Dot(row, x, n) / d == row[n] / d ==> Dot(row, x, n) == row[n] by {
      if Dot(row, x, n) / d == row[n] / d {
        assert Dot(row, x, n) == (Dot(row, x, n) / d) * d == (row[n] / d) * d == row[n];
      }
    }
  }

  lemma ReducedHolds(row: Vector, f: real, pivot: Vector, x: Vector, n: nat)
    requires |row| == n + 1 && |pivot| == n + 1 && |x| == n && Holds(pivot, x, n)
    ensures Holds(Reduced(row, f, pivot), x, n) <==> Holds(row, x, n)
  {
    DotReduced(row, f, pivot, x, n);
  }

  lemma SwapKeeps(rows: seq<Vector>, i: nat, j: nat, n: nat)
    requires Shaped(rows, n) && i < n && j < n
    ensures SameSolutions(rows, rows[i := rows[j]][j := rows[i]], n)
  {
    var swapped := rows[i := rows[j]][j := rows[i]];
    forall x
      ensures Solves(rows, x, n) <==> Solves(swapped, x, n)
    {
      if Solves(swapped, x, n) {
        forall r | 0 <= r < n
          ensures Holds(rows[r], x, n)
        {
          var s := if r == i then j else if r == j then i else r;
          assert swapped[s] == rows[r];
        }
      }
    }
  }

  lemma ScaleKeeps(rows: seq<Vector>, c: nat, d: real, n: nat)
    requires Shaped(rows, n) && c < n && d != 0.0
    ensures SameSolutions(rows, rows[c := Scaled(rows[c], d)], n)
  {
    var scaled := rows[c := Scaled(rows[c], d)];
    forall x
      ensures Solves(rows, x, n) <==> Solves(scaled, x, n)
    {
      if |x| == n {
        ScaledHolds(rows[c], d, x, n);
        assert scaled[c] == Scaled(rows[c], d);
        assert forall r :: 0 <= r < n && r != c ==> scaled[r] == rows[r];
        if Solves(scaled, x, n) {
          assert Holds(scaled[c], x, n);
          assert forall r :: 0 <= r < n && r != c ==> Holds(scaled[r], x, n);
        }
      }
    }
  }

  lemma ReduceKeeps(rows: seq<Vector>, r: nat, c: nat, f: real, n: nat)
    requires Shaped(rows, n) && c < n && r < n && r != c
    ensures SameSolutions(rows, rows[r := Reduced(rows[r], f, rows[c])], n)
  {
    var reduced := rows[r := Reduced(rows[r], f, rows[c])];
    forall x
      ensures Solves(rows, x, n) <==> Solves(reduced, x, n)
    {
      if |x| == n {
        assert reduced[c] == rows[c];
        if Holds(rows[c], x, n) {
          ReducedHolds(rows[r], f, rows[c], x, n);
          assert reduced[r] == Reduced(rows[r], f, rows[c]);
          assert forall s :: 0 <= s < n && s != r ==> reduced[s] == rows[s];
          if Solves(reduced, x, n) {
            assert Holds(reduced[r], x, n);
            assert forall s :: 0 <= s < n && s != r ==> Holds(reduced[s], x, n);
          }
        }
      }
    }
  }

  lemma SameSolutionsTransitive(a: seq<Vector>, b: seq<Vector>, c: seq<Vector>, n: nat)
    requires SameSolutions(a, b, n) && SameSolutions(b, c, n)
    ensures SameSolutions(a, c, n)
  {
    forall x
      ensures Solves(a, x, n) <==> Solves(c, x, n)
    {
      assert Solves(a, x, n) <==> Solves(b, x, n);
    }
  }

  // ----- finished columns -----

  /** The first `c` columns are unit columns. */
  ghost predicate UnitColumns(rows: seq<Vector>, c: nat, n: nat)
    requires Shaped(rows, n) && c <= n
  {
    forall r, k :: 0 <= r < n && 0 <= k < c ==> rows[r][k] == if r == k then 1.0 else 0.0
  }

  lemma {:induction false} DotUnit(row: Vector, x: Vector, k: nat, n: nat)
    requires n <= |row| && n <= |x|
    requires forall i :: 0 <= i < n ==> row[i] == if i == k then 1.0 else 0.0
    ensures Dot(row, x, n) == if k < n then x[k] else 0.0
  {
    if n > 0 {
      DotUnit(row, x, k, n - 1);
    }
  }

  function LastColumn(rows: seq<Vector>, n: nat): (r: Vector)
    requires |rows| == n && forall r :: 0 <= r < n ==> |rows[r]| == n + 1
    ensures |r| == n
  {
    seq(n, i requires 0 <= i < n => rows[i][n])
  }

  /** A fully reduced system has its last column as the only solution. */
  lemma ReducedSystemSolved(rows: seq<Vector>, n: nat)
    requires Shaped(rows, n) && UnitColumns(rows, n, n)
    ensures forall x :: Solves(rows, x, n) <==> x == LastColumn(rows, n)
  {
    forall x | |x| == n
      ensures Solves(rows, x, n) <==> x == LastColumn(rows, n)
    {
      forall r | 0 <= r < n
        ensures Holds(rows[r], x, n) <==> x[r] == rows[r][n]
      {
        DotUnit(rows[r], x, r, n);
      }
      if Solves(rows, x, n) {
        assert forall r :: 0 <= r < n ==> Holds(rows[r], x, n);
      }
    }
  }

  // ----- the elimination -----

  /** The matrix with its right-hand side appended to each row. */
  function Augmented(matrix: seq<Vector>, values: Vector): (r: seq<Vector>)
    requires Square(matrix, values)
    ensures Shaped(r, |values|)
  {
    seq(|matrix|, i requires 0 <= i < |matrix| => matrix[i] + [values[i]])
  }

  predicate Square(matrix: seq<Vector>, values: Vector) {
    |matrix| == |values| && forall r :: 0 <= r < |matrix| ==> |matrix[r]| == |values|
  }

  /** The row of greatest magnitude in column `c` among rows `c` to `m`, the first one on ties. */
  function PivotRow(rows: seq<Vector>, c: nat, m: nat): (p: nat)
    requires c < m <= |rows| && forall r :: 0 <= r < |rows| ==> c < |rows[r]|
    ensures c <= p < m
    ensures forall r :: c <= r < m ==> Abs(rows[r][c]) <= Abs(rows[p][c])
    ensures forall r :: c <= r < p ==> Abs(rows[r][c]) < Abs(rows[p][c])
  {
    if m == c + 1 then c
    else
      var p := PivotRow(rows, c, m - 1);
      if Abs(rows[m - 1][c]) > Abs(rows[p][c]) then m - 1 else p
  }

  function Swapped(rows: seq<Vector>, c: nat, n: nat): (r: seq<Vector>)
    requires Shaped(rows, n) && c < n
    ensures Shaped(r, n)
  {
    var p := PivotRow(rows, c, n);
    rows[c := rows[p]][p := rows[c]]
  }

  /** The multiples of row `c` subtracted from the first `m` other rows. */
  function Cleared(rows: seq<Vector>, c: nat, m: nat, n: nat): (r: seq<Vector>)
    requires Shaped(rows, n) && c < n && m <= n
    ensures Shaped(r, n)
  {
    if m == 0 then rows
    else
      var s := Cleared(rows, c, m - 1, n);
      if m - 1 == c then s else s[m - 1 := Reduced(s[m - 1], s[m - 1][c], s[c])]
  }

  function Normalised(rows: seq<Vector>, c: nat, n: nat): (r: seq<Vector>)
    requires Shaped(rows, n) && c < n && rows[c][c] != 0.0
    ensures Shaped(r, n)
  {
    rows[c := Scaled(rows[c], rows[c][c])]
  }

  /** The system after elimination of the first `c` columns, unless a pivot was too small. */
  function Eliminated(start: seq<Vector>, c: nat, n: nat): (r: Option<seq<Vector>>)
    requires Shaped(start, n) && c <= n
    ensures r.Some? ==> Shaped(r.value, n)
    decreases c
  {
    if c == 0 then Some(start)
    else
      var before := Eliminated(start, c - 1, n);
      if before.None? then None
      else
        var rows := Swapped(before.value, c - 1, n);
        if Abs(rows[c - 1][c - 1]) < EPSILON then None else Some(Cleared(Normalised(rows, c - 1, n), c - 1, n, n))
  }

  /** Elimination reaches column `c` and finds every candidate for its pivot below the threshold. */
  ghost predicate Stuck(start: seq<Vector>, c: nat, n: nat)
    requires Shaped(start, n)
  {
    && c < n && Eliminated(start, c, n).Some?
    && forall r :: c <= r < n ==> Abs(Eliminated(start, c, n).value[r][c]) < EPSILON
  }

  ghost predicate Refuses(start: seq<Vector>, n: nat)
    requires Shaped(start, n)
  {
    exists c :: Stuck(start, c, n)
  }

  /** The next column is eliminated exactly when one of its candidates reaches the threshold. */
  lemma NextColumnIff(start: seq<Vector>, c: nat, n: nat)
    requires Shaped(start, n) && c < n && Eliminated(start, c, n).Some?
    ensures Eliminated(start, c + 1, n).None? <==> Stuck(start, c, n)
  {
    var before := Eliminated(start, c, n).value;
    var p := PivotRow(before, c, n);
    assert Swapped(before, c, n)[c] == before[p];
  }

  lemma {:induction false} EliminatedEarlier(start: seq<Vector>, c: nat, m: nat, n: nat)
    requires Shaped(start, n) && c <= m <= n && Eliminated(start, m, n).Some?
    ensures Eliminated(start, c, n).Some?
    decreases m
  {
    if c < m {
      EliminatedEarlier(start, c, m - 1, n);
    }
  }

  lemma {:induction false} RefusedSomewhere(start: seq<Vector>, m: nat, n: nat) returns (c: nat)
    requires Shaped(start, n) && m <= n && Eliminated(start, m, n).None?
    ensures Stuck(start, c, n)
    decreases m
  {
    if Eliminated(start, m - 1, n).None? {
      c := RefusedSomewhere(start, m - 1, n);
    } else {
      NextColumnIff(start, m - 1, n);
      c := m - 1;
    }
  }

  lemma NotStuck(start: seq<Vector>, c: nat, n: nat)
    requires Shaped(start, n) && c < n && Eliminated(start, n, n).Some?
    ensures !Stuck(start, c, n)
  {
    EliminatedEarlier(start, c, n, n);
    EliminatedEarlier(start, c + 1, n, n);
    NextColumnIff(start, c, n);
  }

  /** Elimination completes exactly when no column is stuck. */
  lemma CompletesIff(start: seq<Vector>, n: nat)
    requires Shaped(start, n)
    ensures Eliminated(start, n, n).None? <==> Refuses(start, n)
  {
    if Eliminated(start, n, n).None? {
      var c := RefusedSomewhere(start, n, n);
    } else if c :| Stuck(start, c, n) {
      NotStuck(start, c, n);
    }
  }

  method FindPivot(rows: array<Vector>, c: nat) returns (pivot: nat)
    requires Shaped(rows[..], rows.Length) && c < rows.Length
    ensures pivot == PivotRow(rows[..], c, rows.Length)
    ensures c <= pivot < rows.Length && forall r :: c <= r < rows.Length ==> Abs(rows[r][c]) <= Abs(rows[pivot][c])
  {
    assert forall r :: 0 <= r < rows.Length ==> rows[..][r] == rows[r];
    pivot := c;
    for row := c + 1 to rows.Length
      invariant pivot == PivotRow(rows[..], c, row)
    {
      if Abs(rows[row][c]) > Abs(rows[pivot][c]) {
        pivot := row;
      }
    }
  }

  /** Divides the pivot row from the pivot column on; the entries before it are already zero. */
  method ScalePivotRow(rows: array<Vector>, c: nat, divisor: real)
    requires Shaped(rows[..], rows.Length) && c < rows.Length && divisor != 0.0
    requires forall k :: 0 <= k < c ==> rows[c][k] == 0.0
    modifies rows
    ensures rows[..] == old(rows[..])[c := Scaled(old(rows[c]), divisor)]
  {
    var n := rows.Length;
    ghost var before := rows[..];
    ghost var was := rows[c];
    assert before[c] == was;
    for entry := c to n + 1
      invariant |rows[c]| == n + 1
      invariant forall k :: 0 <= k < entry ==> rows[c][k] == was[k] / divisor
      invariant forall k :: entry <= k <= n ==> rows[c][k] == was[k]
      invariant forall r :: 0 <= r < n && r != c ==> rows[r] == before[r]
    {
      rows[c] := rows[c][entry := rows[c][entry] / divisor];
    }
    assert rows[c] == Scaled(was, divisor);
    assert rows[..] == before[c := Scaled(was, divisor)];
  }

  /** Subtracts a multiple of the pivot row from one other row. */
  method ReduceRow(rows: array<Vector>, r: nat, c: nat, factor: real)
    requires Shaped(rows[..], rows.Length) && c < rows.Length && r < rows.Length && r != c
    requires forall k :: 0 <= k < c ==> rows[c][k] == 0.0
    modifies rows
    ensures rows[..] == old(rows[..])[r := Reduced(old(rows[r]), factor, old(rows[c]))]
  {
    var n := rows.Length;
    ghost var before := rows[..];
    ghost var was, pivot := rows[r], rows[c];
    assert before[r] == was && before[c] == pivot;
    for entry := c to n + 1
      invariant |rows[r]| == n + 1 && rows[c] == pivot
      invariant forall k :: 0 <= k < entry ==> rows[r][k] == was[k] - factor * pivot[k]
      invariant forall k :: entry <= k <= n ==> rows[r][k] == was[k]
      invariant forall s :: 0 <= s < n && s != r ==> rows[s] == before[s]
    {
      rows[r] := rows[r][entry := rows[r][entry] - factor * rows[c][entry]];
    }
    assert forall k :: 0 <= k <= n ==> rows[r][k] == Reduced(was, factor, pivot)[k];
    assert rows[r] == Reduced(was, factor, pivot);
    assert rows[..] == before[r := Reduced(was, factor, pivot)];
  }

  /** Column `c` is finished in the pivot row and in the first `done` rows. */
  ghost predicate Clearing(rows: seq<Vector>, c: nat, done: nat, n: nat)
    requires Shaped(rows, n) && c < n && done <= n
  {
    && UnitColumns(rows, c, n)
    && rows[c][c] == 1.0
    && forall r :: 0 <= r < done && r != c ==> rows[r][c] == 0.0
  }

  lemma ReduceClears(rows: seq<Vector>, r: nat, c: nat, n: nat)
    requires Shaped(rows, n) && r < n && c < n && r != c && Clearing(rows, c, r, n)
    ensures Shaped(rows[r := Reduced(rows[r], rows[r][c], rows[c])], n)
    ensures Clearing(rows[r := Reduced(rows[r], rows[r][c], rows[c])], c, r + 1, n)
  {
    var next := rows[r := Reduced(rows[r], rows[r][c], rows[c])];
    var f := rows[r][c];
    assert next[r][c] == f - f * 1.0;
    forall k | 0 <= k < c
      ensures next[r][k] == rows[r][k]
    {
      assert rows[c][k] == 0.0;
      assert next[r][k] == rows[r][k] - f * 0.0;
    }
  }

  /** Clears the pivot column from every other row. */
  method ClearColumn(rows: array<Vector>, c: nat)
    requires Shaped(rows[..], rows.Length) && c < rows.Length && Clearing(rows[..], c, 0, rows.Length)
    modifies rows
    ensures rows[..] == Cleared(old(rows[..]), c, rows.Length, rows.Length)
    ensures SameSolutions(old(rows[..]), rows[..], rows.Length)
    ensures UnitColumns(rows[..], c + 1, rows.Length)
  {
    var n := rows.Length;
    ghost var start := rows[..];
    for row := 0 to n
      invariant rows[..] == Cleared(start, c, row, n)
      invariant SameSolutions(start, rows[..], n)
      invariant Clearing(rows[..], c, row, n)
    {
      if row != c {
        ghost var before := rows[..];
        assert before[row] == rows[row] && before[c] == rows[c];
        var factor := rows[row][c];
        ReduceClears(before, row, c, n);
        ReduceKeeps(before, row, c, factor, n);
        ReduceRow(rows, row, c, factor);
        SameSolutionsTransitive(start, before, rows[..], n);
      }
    }
  }

  lemma ScaleStarts(rows: seq<Vector>, c: nat, n: nat)
    requires Shaped(rows, n) && c < n && UnitColumns(rows, c, n) && rows[c][c] != 0.0
    ensures Shaped(rows[c := Scaled(rows[c], rows[c][c])], n)
    ensures Clearing(rows[c := Scaled(rows[c], rows[c][c])], c, 0, n)
  {
    var d := rows[c][c];
    assert d / d == 1.0;
    forall k | 0 <= k < c
      ensures Scaled(rows[c], d)[k] == 0.0
    {
      assert rows[c][k] == 0.0;
      assert 0.0 / d == 0.0;
    }
  }

  lemma SwapKeepsUnits(rows: seq<Vector>, c: nat, p: nat, n: nat)
    requires Shaped(rows, n) && c <= p < n && UnitColumns(rows, c, n)
    ensures UnitColumns(rows[c := rows[p]][p := rows[c]], c, n)
  {
  }

  /** One column: pivot, swap, divide and clear; `ok` is false when the pivot is below the threshold. */
  method EliminateColumn(rows: array<Vector>, c: nat) returns (ok: bool)
    requires Shaped(rows[..], rows.Length) && c < rows.Length && UnitColumns(rows[..], c, rows.Length)
    modifies rows
    ensures ok <==> Abs(Swapped(old(rows[..]), c, rows.Length)[c][c]) >= EPSILON
    ensures ok ==> var n := rows.Length; rows[..] == Cleared(Normalised(Swapped(old(rows[..]), c, n), c, n), c, n, n)
    ensures ok ==> SameSolutions(old(rows[..]), rows[..], rows.Length) && UnitColumns(rows[..], c + 1, rows.Length)
  {
    var n := rows.Length;
    ghost var before := rows[..];
    var pivot := FindPivot(rows, c);
    rows[c], rows[pivot] := rows[pivot], rows[c];
    ghost var swapped := rows[..];
    assert swapped == Swapped(before, c, n);
    SwapKeeps(before, c, pivot, n);
    SwapKeepsUnits(before, c, pivot, n);
    var divisor := rows[c][c];
    if Abs(divisor) < EPSILON {
      return false;
    }
    ScaleStarts(swapped, c, n);
    ScaleKeeps(swapped, c, divisor, n);
    ScalePivotRow(rows, c, divisor);
    ghost var scaled := rows[..];
    assert scaled == Normalised(swapped, c, n);
    SameSolutionsTransitive(before, swapped, scaled, n);
    ClearColumn(rows, c);
    SameSolutionsTransitive(before, scaled, rows[..], n);
    ok := true;
  }

  /** The state of the elimination after `c` columns. */
  ghost predicate Reached(start: seq<Vector>, rows: seq<Vector>, c: nat, n: nat) {
    && SameSolutions(start, rows, n) && c <= n
    && Eliminated(start, c, n) == Some(rows) && UnitColumns(rows, c, n)
  }

  lemma ReachedNext(start: seq<Vector>, before: seq<Vector>, after: seq<Vector>, c: nat, n: nat)
    requires c < n && Reached(start, before, c, n) && Abs(Swapped(before, c, n)[c][c]) >= EPSILON
    requires after == Cleared(Normalised(Swapped(before, c, n), c, n), c, n, n)
    requires SameSolutions(before, after, n) && UnitColumns(after, c + 1, n)
    ensures Reached(start, after, c + 1, n)
  {
    SameSolutionsTransitive(start, before, after, n);
  }

  /**
   * `solveLinearSystem`. A returned vector solves the given system exactly and is its only
   * solution; the error is raised exactly when elimination is stuck at some column.
   */
  method SolveLinearSystem(matrix: seq<Vector>, values: Vector) returns (result: Option<Vector>)
    requires Square(matrix, values)
    ensures result.Some? ==> forall x :: Solves(Augmented(matrix, values), x, |values|) <==> x == result.value
    ensures result.Some? ==> Solves(Augmented(matrix, values), result.value, |values|)
    ensures result.None? <==> Refuses(Augmented(matrix, values), |values|)
  {
    var n := |values|;
    ghost var start := Augmented(matrix, values);
    CompletesIff(start, n);
    var rows := new Vector[n](i requires 0 <= i < n => matrix[i] + [values[i]]);
    assert rows[..] == start;
    for column := 0 to n
      invariant Reached(start, rows[..], column, n)
    {
      ghost var before := rows[..];
      var ok := EliminateColumn(rows, column);
      if !ok {
        NextColumnIff(start, column, n);
        return None;
      }
      ReachedNext(start, before, rows[..], column, n);
    }
    ReducedSystemSolved(rows[..], n);
    result := Some(LastColumn(rows[..], n));
  }

  /** The threshold is absolute: a regular system of one equation is refused exactly when its coefficient is small. */
  lemma SmallRegularSystemRefused(a: real, b: real)
    requires a != 0.0
    ensures Refuses(Augmented([[a]], [b]), 1) <==> Abs(a) < EPSILON
    ensures forall x :: Solves(Augmented([[a]], [b]), x, 1) <==> x == [b / a]
  {
    var rows := Augmented([[a]], [b]);
    assert [a] + [b] == [a, b];
    assert rows == [[a, b]];
    assert Stuck(rows, 0, 1) <==> Abs(rows[0][0]) < EPSILON;
    forall x: Vector | |x| == 1
      ensures Solves(rows, x, 1) <==> x == [b / a]
    {
      assert rows[0] == [a, b];
      assert Dot([a, b], x, 1) == Dot([a, b], x, 0) + a * x[0];
      assert Holds([a, b], x, 1) <==> a * x[0] == b;
      SolveOne(a, b, x[0]);
      assert x == [x[0]];
    }
  }

  lemma SolveOne(a: real, b: real, y: real)
    requires a != 0.0
    ensures a * y == b <==> y == b / a
  {
    var q := b / a;
    assert q * a == b;
    if a * y == b {
      assert a * (y - q) == 0.0;
    }
  }
}
