/**
 * Least-squares fitting of a chain of cubics to a polyline. The Euclidean length is a parameter
 * with its two defining facts.
 */
module CurveFit {
  import opened Curves
  import opened Reals

  ghost predicate IsLength(length: Point -> real) {
    forall v :: length(v) >= 0.0 && length(v) * length(v) == Inner(v, v)
  }

  lemma LengthPositive(length: Point -> real, v: Point)
    requires IsLength(length)
    ensures length(v) >= 0.0 && (length(v) > 0.0 <==> v != Point(0.0, 0.0))
  {
    var l := length(v);
    assert l >= 0.0 && l * l == Inner(v, v);
    SquarePositive(l, l * l);
    SquarePositive(v.x, v.x * v.x);
    SquarePositive(v.y, v.y * v.y);
    assert v == Point(v.x, v.y);
  }

  function Unit(length: Point -> real, v: Point): Point
    requires length(v) != 0.0
  {
    Point(v.x / length(v), v.y / length(v))
  }

  lemma UnitHasLengthOne(length: Point -> real, v: Point)
    requires IsLength(length) && length(v) != 0.0
    ensures Inner(Unit(length, v), Unit(length, v)) == 1.0
  {
    var l, x, y := length(v), v.x / length(v), v.y / length(v);
    var q := l * l;
    assert q == Inner(v, v);
    SquarePositive(l, q);
    UnitSquare(x, v.x, l, q);
    UnitSquare(y, v.y, l, q);
    OneFrom(x * x, y * y, q, v.x * v.x, v.y * v.y);
  }

  lemma UnitSquare(x: real, v: real, l: real, q: real)
    requires l != 0.0 && x == v / l && q == l * l
    ensures x * x * q == v * v
  {
    assert x * l == v;
    SquareOfProduct(x, l, v);
  }

  lemma SquareOfProduct(x: real, l: real, v: real)
    requires x * l == v
    ensures x * x * (l * l) == v * v
  {
  }

  lemma OneFrom(a: real, b: real, q: real, x: real, y: real)
    requires q > 0.0 && a * q == x && b * q == y && x + y == q
    ensures a + b == 1.0
  {
    SignOfProduct(a + b - 1.0, q);
    assert (a + b - 1.0) * q == a * q + b * q - q;
  }

  // ----- chord-length parameters -----

  /** No point repeats two places later, so every chord and every tangent has a direction. */
  predicate Directed(points: seq<Point>) {
    forall i :: 0 <= i < |points| - 2 ==> points[i] != points[i + 2]
  }

  function Travelled(length: Point -> real, points: seq<Point>, k: nat): real
    requires k < |points|
  {
    if k == 0 then 0.0 else Travelled(length, points, k - 1) + length(Minus(points[k], points[k - 1]))
  }

  lemma {:induction false} TravelledGrows(length: Point -> real, points: seq<Point>, j: nat, k: nat)
    requires IsLength(length) && j <= k < |points|
    ensures 0.0 <= Travelled(length, points, j) <= Travelled(length, points, k)
    decreases k
  {
    if j < k {
      TravelledGrows(length, points, j, k - 1);
      assert length(Minus(points[k], points[k - 1])) >= 0.0;
    } else if k > 0 {
      TravelledGrows(length, points, k - 1, k - 1);
      assert length(Minus(points[k], points[k - 1])) >= 0.0;
    }
  }

  predicate Stands(points: seq<Point>, k: nat)
    requires k < |points|
  {
    forall i :: 0 < i <= k ==> points[i] == points[i - 1]
  }

  /** Nothing is travelled exactly while the points stand still. */
  lemma {:induction false} TravelledIff(length: Point -> real, points: seq<Point>, k: nat)
    requires IsLength(length) && k < |points|
    ensures Travelled(length, points, k) >= 0.0
    ensures Travelled(length, points, k) == 0.0 <==> Stands(points, k)
  {
    if k > 0 {
      TravelledIff(length, points, k - 1);
      var a, b := points[k - 1], points[k];
      LengthPositive(length, Minus(b, a));
      assert a == Point(a.x, a.y) && b == Point(b.x, b.y);
    }
  }

  function Chord(length: Point -> real, points: seq<Point>): (u: seq<real>)
    requires points != [] && Travelled(length, points, |points| - 1) != 0.0
    ensures |u| == |points|
  {
    seq(|points|, k requires 0 <= k < |points| =>
      Travelled(length, points, k) / Travelled(length, points, |points| - 1))
  }

  predicate InRange(u: seq<real>) {
    forall i :: 0 <= i < |u| ==> 0.0 <= u[i] <= 1.0
  }

  lemma QuotientOrder(x: real, y: real, z: real)
    requires 0.0 <= x <= y <= z && z > 0.0
    ensures 0.0 <= x / z <= y / z <= 1.0 && 0.0 / z == 0.0 && z / z == 1.0
  {
    var a, b := x / z, y / z;
    assert a * z == x && b * z == y;
    SignOfProduct(a, z);
    SignOfProduct(b - 1.0, z);
    assert (b - 1.0) * z == y - z;
    SignOfProduct(b - a, z);
    assert (b - a) * z == y - x;
  }

  /**
   * The division is defined exactly when the points do not all coincide, and then the parameters run
   * from 0 to 1 in the order of the points.
   */
  lemma ChordOrder(length: Point -> real, points: seq<Point>)
    requires IsLength(length) && points != []
    ensures Travelled(length, points, |points| - 1) == 0.0 <==> Stands(points, |points| - 1)
    ensures !Stands(points, |points| - 1) ==>
      var u := Chord(length, points);
      && InRange(u) && u[0] == 0.0 && u[|u| - 1] == 1.0
      && forall j, k :: 0 <= j <= k < |u| ==> u[j] <= u[k]
  {
    TravelledIff(length, points, |points| - 1);
    if !Stands(points, |points| - 1) {
      ChordAscends(length, points);
    }
  }

  lemma ChordAscends(length: Point -> real, points: seq<Point>)
    requires IsLength(length) && points != [] && Travelled(length, points, |points| - 1) > 0.0
    ensures var u := Chord(length, points);
      && InRange(u) && u[0] == 0.0 && u[|u| - 1] == 1.0
      && forall j, k :: 0 <= j <= k < |u| ==> u[j] <= u[k]
  {
    var last := Travelled(length, points, |points| - 1);
    var u := Chord(length, points);
    forall j, k | 0 <= j <= k < |u|
      ensures 0.0 <= u[j] <= u[k] <= 1.0
    {
      TravelledGrows(length, points, j, k);
      TravelledGrows(length, points, k, |points| - 1);
      QuotientOrder(Travelled(length, points, j), Travelled(length, points, k), last);
    }
    QuotientOrder(0.0, last, last);
  }

  /** Each step takes the share of the parameters that its length is of the whole way. */
  lemma ChordShares(length: Point -> real, points: seq<Point>, k: nat)
    requires points != [] && Travelled(length, points, |points| - 1) != 0.0 && 0 < k < |points|
    ensures (Chord(length, points)[k] - Chord(length, points)[k - 1]) * Travelled(length, points, |points| - 1) ==
      length(Minus(points[k], points[k - 1]))
  {
    QuotientStep(Travelled(length, points, k), Travelled(length, points, k - 1),
                 length(Minus(points[k], points[k - 1])), Travelled(length, points, |points| - 1));
  }

  lemma QuotientStep(x: real, y: real, d: real, z: real)
    requires z != 0.0 && x == y + d
    ensures (x / z - y / z) * z == d
  {
    var a, b := x / z, y / z;
    assert a * z == x && b * z == y;
    assert (a - b) * z == a * z - b * z;
  }

  // ----- the arms of one cubic -----

  function Weight1(u: real): real {
    3.0 * ((1.0 - u) * (1.0 - u)) * u
  }

  function Weight2(u: real): real {
    3.0 * (1.0 - u) * (u * u)
  }

  function Arms1(u: seq<real>, t: Point): (a: seq<Point>)
    ensures |a| == |u|
  {
    seq(|u|, i requires 0 <= i < |u| => Times(t, Weight1(u[i])))
  }

  function Arms2(u: seq<real>, t: Point): (a: seq<Point>)
    ensures |a| == |u|
  {
    seq(|u|, i requires 0 <= i < |u| => Times(t, Weight2(u[i])))
  }

  function Flat(points: seq<Point>): Cubic
    requires points != []
  {
    Cubic(points[0], points[0], points[|points| - 1], points[|points| - 1])
  }

  function Rest(points: seq<Point>, u: seq<real>): (r: seq<Point>)
    requires points != [] && |u| == |points|
    ensures |r| == |u|
  {
    seq(|u|, i requires 0 <= i < |u| => Minus(points[i], At(Flat(points), u[i])))
  }

  function Dots(a: seq<Point>, b: seq<Point>, m: nat): real
    requires m <= |a| && m <= |b|
  {
    if m == 0 then 0.0 else Dots(a, b, m - 1) + Inner(a[m - 1], b[m - 1])
  }

  /** The sums `gen` solves for the two arm lengths, over the first `m` points. */
  datatype System = System(c00: real, c01: real, c11: real, x0: real, x1: real)

  function SystemOf(points: seq<Point>, u: seq<real>, t1: Point, t2: Point, m: nat): System
    requires points != [] && |u| == |points| && m <= |u|
  {
    var a1, a2, rest := Arms1(u, t1), Arms2(u, t2), Rest(points, u);
    System(Dots(a1, a1, m), Dots(a1, a2, m), Dots(a2, a2, m), Dots(a1, rest, m), Dots(a2, rest, m))
  }

  function Det(s: System): real {
    s.c00 * s.c11 - s.c01 * s.c01
  }

  function Cramer(s: System): (real, real)
    requires Det(s) != 0.0
  {
    ((s.x0 * s.c11 - s.x1 * s.c01) / Det(s), (s.c00 * s.x1 - s.c01 * s.x0) / Det(s))
  }

  const TINY := 0.000000000001

  predicate Sensible(a: (real, real), span: real) {
    && 0.000001 * span <= a.0 <= span * 1.2
    && 0.000001 * span <= a.1 <= span * 1.2
  }

  /** The least-squares solution is used: the system is regular and both arms are sensible. */
  predicate Solvable(s: System, span: real) {
    Abs(Det(s)) > TINY && Sensible(Cramer(s), span)
  }

  function ArmLengths(s: System, span: real): (a: (real, real))
    requires span >= 0.0
    ensures Sensible(a, span)
  {
    var a := if Abs(Det(s)) > TINY then Cramer(s) else (span / 3.0, span / 3.0);
    if a.0 < 0.000001 * span || a.1 < 0.000001 * span || a.0 > span * 1.2 || a.1 > span * 1.2
    then (span / 3.0, span / 3.0)
    else a
  }

  function Armed(points: seq<Point>, t1: Point, t2: Point, a: (real, real)): Cubic
    requires points != []
  {
    var p0, p3 := points[0], points[|points| - 1];
    Cubic(p0, Plus(p0, Times(t1, a.0)), Plus(p3, Times(t2, a.1)), p3)
  }

  function Span(length: Point -> real, points: seq<Point>): real
    requires points != []
  {
    length(Minus(points[|points| - 1], points[0]))
  }

  function Gen(length: Point -> real, points: seq<Point>, u: seq<real>, t1: Point, t2: Point): Cubic
    requires points != [] && |u| == |points| && Span(length, points) >= 0.0
  {
    Armed(points, t1, t2, ArmLengths(SystemOf(points, u, t1, t2, |u|), Span(length, points)))
  }

  /** When the solved arms are not used, both arms are a third of the distance between the ends. */
  lemma FallbackArms(length: Point -> real, points: seq<Point>, u: seq<real>, t1: Point, t2: Point)
    requires points != [] && |u| == |points| && Span(length, points) >= 0.0
    requires !Solvable(SystemOf(points, u, t1, t2, |u|), Span(length, points))
    ensures var d := Span(length, points) / 3.0; Gen(length, points, u, t1, t2) == Armed(points, t1, t2, (d, d))
  {
  }

  // ----- the solved arms are the best arms -----

  /** The sum of squared distances the fit minimises. */
  function Misfit(b: Cubic, points: seq<Point>, u: seq<real>, m: nat): real
    requires m <= |points| && |u| == |points|
  {
    if m == 0 then 0.0
    else
      var d := Minus(At(b, u[m - 1]), points[m - 1]);
      Misfit(b, points, u, m - 1) + Inner(d, d)
  }

  function Bowl(s: System, k: real, a: real, b: real): real {
    k - 2.0 * (a * s.x0) - 2.0 * (b * s.x1) + a * a * s.c00 + 2.0 * (a * b * s.c01) + b * b * s.c11
  }

  lemma ArmShifts(p: real, q: real, x: real, y: real, u: real)
    ensures Blend(p, p + x, q + y, q, u) == Blend(p, p, q, q, u) + x * Weight1(u) + y * Weight2(u)
  {
  }

  lemma SquareExpands(r: real, p: real, q: real, a: real, b: real)
    ensures (a * p + b * q - r) * (a * p + b * q - r)
         == r * r - 2.0 * (a * (p * r)) - 2.0 * (b * (q * r)) + a * a * (p * p) + 2.0 * (a * b * (p * q)) +
           b * b * (q * q)
  {
  }

  lemma MisfitTerm(d: Point, r: Point, p: Point, q: Point, a: real, b: real)
    requires d == Point(a * p.x + b * q.x - r.x, a * p.y + b * q.y - r.y)
    ensures Inner(d, d)
         == Bowl(System(Inner(p, p), Inner(p, q), Inner(q, q), Inner(p, r), Inner(q, r)), Inner(r, r), a, b)
  {
    SquareExpands(r.x, p.x, q.x, a, b);
    SquareExpands(r.y, p.y, q.y, a, b);
  }

  lemma BowlAdds(s: System, k: real, t: System, l: real, a: real, b: real)
    ensures Bowl(s, k, a, b) + Bowl(t, l, a, b)
         == Bowl(System(s.c00 + t.c00, s.c01 + t.c01, s.c11 + t.c11, s.x0 + t.x0, s.x1 + t.x1), k + l, a, b)
  {
  }

  lemma GapOf(points: seq<Point>, u: seq<real>, t1: Point, t2: Point, a: real, b: real, i: nat)
    requires points != [] && |u| == |points| && i < |u|
    ensures
      var p, q, r := Arms1(u, t1)[i], Arms2(u, t2)[i], Rest(points, u)[i];
      Minus(At(Armed(points, t1, t2, (a, b)), u[i]), points[i]) ==
        Point(a * p.x + b * q.x - r.x, a * p.y + b * q.y - r.y)
  {
    var p0, p3, v := points[0], points[|points| - 1], u[i];
    var w1, w2 := Weight1(v), Weight2(v);
    ArmShifts(p0.x, p3.x, t1.x * a, t2.x * b, v);
    ArmShifts(p0.y, p3.y, t1.y * a, t2.y * b, v);
    assert t1.x * a * w1 == a * (t1.x * w1) && t2.x * b * w2 == b * (t2.x * w2);
    assert t1.y * a * w1 == a * (t1.y * w1) && t2.y * b * w2 == b * (t2.y * w2);
  }

  lemma GapSquare(points: seq<Point>, u: seq<real>, t1: Point, t2: Point, a: real, b: real, i: nat, d: Point)
    requires points != [] && |u| == |points| && i < |u|
    requires d == Minus(At(Armed(points, t1, t2, (a, b)), u[i]), points[i])
    ensures
      var p, q, r := Arms1(u, t1)[i], Arms2(u, t2)[i], Rest(points, u)[i];
      Inner(d, d) == Bowl(System(Inner(p, p), Inner(p, q), Inner(q, q), Inner(p, r), Inner(q, r)), Inner(r, r), a, b)
  {
    GapOf(points, u, t1, t2, a, b, i);
    MisfitTerm(d, Rest(points, u)[i], Arms1(u, t1)[i], Arms2(u, t2)[i], a, b);
  }

  lemma {:induction false} MisfitIsBowl(points: seq<Point>, u: seq<real>, t1: Point, t2: Point, a: real, b: real,
                                        m: nat)
    requires points != [] && |u| == |points| && m <= |u|
    ensures Misfit(Armed(points, t1, t2, (a, b)), points, u, m)
         == Bowl(SystemOf(points, u, t1, t2, m), Dots(Rest(points, u), Rest(points, u), m), a, b)
  {
    if m > 0 {
      MisfitIsBowl(points, u, t1, t2, a, b, m - 1);
      var p, q, r := Arms1(u, t1)[m - 1], Arms2(u, t2)[m - 1], Rest(points, u)[m - 1];
      GapSquare(points, u, t1, t2, a, b, m - 1, Minus(At(Armed(points, t1, t2, (a, b)), u[m - 1]), points[m - 1]));
      BowlAdds(SystemOf(points, u, t1, t2, m - 1), Dots(Rest(points, u), Rest(points, u), m - 1),
               System(Inner(p, p), Inner(p, q), Inner(q, q), Inner(p, r), Inner(q, r)), Inner(r, r), a, b);
    }
  }

  function Homogeneous(s: System): System {
    s.(x0 := 0.0, x1 := 0.0)
  }

  lemma PairSquare(p: real, q: real, e: real, f: real, g: real)
    requires g == e * p + f * q
    ensures e * e * (p * p) + 2.0 * (e * f * (p * q)) + f * f * (q * q) >= 0.0
  {
    SquarePositive(g, g * g);
  }

  lemma BowlTermNonNegative(p: Point, q: Point, e: real, f: real)
    ensures Bowl(System(Inner(p, p), Inner(p, q), Inner(q, q), 0.0, 0.0), 0.0, e, f) >= 0.0
  {
    PairSquare(p.x, q.x, e, f, e * p.x + f * q.x);
    PairSquare(p.y, q.y, e, f, e * p.y + f * q.y);
  }

  lemma {:induction false} BowlNonNegative(points: seq<Point>, u: seq<real>, t1: Point, t2: Point, e: real, f: real,
                                           m: nat)
    requires points != [] && |u| == |points| && m <= |u|
    ensures Bowl(Homogeneous(SystemOf(points, u, t1, t2, m)), 0.0, e, f) >= 0.0
  {
    if m > 0 {
      BowlNonNegative(points, u, t1, t2, e, f, m - 1);
      var p, q := Arms1(u, t1)[m - 1], Arms2(u, t2)[m - 1];
      BowlTermNonNegative(p, q, e, f);
      BowlAdds(Homogeneous(SystemOf(points, u, t1, t2, m - 1)), 0.0,
               System(Inner(p, p), Inner(p, q), Inner(q, q), 0.0, 0.0), 0.0, e, f);
    }
  }

  predicate Normal(s: System, a: real, b: real) {
    s.c00 * a + s.c01 * b == s.x0 && s.c01 * a + s.c11 * b == s.x1
  }

  /** Cramer's rule meets both normal equations. */
  lemma CramerSolves(s: System)
    requires Det(s) != 0.0
    ensures Normal(s, Cramer(s).0, Cramer(s).1)
  {
    var (a, b) := Cramer(s);
    var d := Det(s);
    assert a * d == s.x0 * s.c11 - s.x1 * s.c01;
    assert b * d == s.c00 * s.x1 - s.c01 * s.x0;
    assert (s.c00 * a + s.c01 * b) * d == s.c00 * (a * d) + s.c01 * (b * d);
    assert s.c00 * (a * d) + s.c01 * (b * d) == s.x0 * d;
    assert (s.c01 * a + s.c11 * b) * d == s.c01 * (a * d) + s.c11 * (b * d);
    assert s.c01 * (a * d) + s.c11 * (b * d) == s.x1 * d;
    CancelFactor(s.c00 * a + s.c01 * b, s.x0, d);
    CancelFactor(s.c01 * a + s.c11 * b, s.x1, d);
  }

  lemma CancelFactor(x: real, y: real, d: real)
    requires d != 0.0 && x * d == y * d
    ensures x == y
  {
    assert (x - y) * d == 0.0;
  }

  lemma BowlGap(c00: real, c01: real, c11: real, k: real, a: real, b: real, e: real, f: real)
    ensures
      var s := System(c00, c01, c11, c00 * a + c01 * b, c01 * a + c11 * b);
      Bowl(s, k, a + e, b + f) == Bowl(s, k, a, b) + Bowl(System(c00, c01, c11, 0.0, 0.0), 0.0, e, f)
  {
  }

  lemma BowlMinimum(s: System, k: real, a: real, b: real, c: real, d: real)
    requires Normal(s, a, b)
    requires Bowl(Homogeneous(s), 0.0, c - a, d - b) >= 0.0
    ensures Bowl(s, k, a, b) <= Bowl(s, k, c, d)
  {
    BowlGap(s.c00, s.c01, s.c11, k, a, b, c - a, d - b);
    assert a + (c - a) == c && b + (d - b) == d;
    assert s == System(s.c00, s.c01, s.c11, s.c00 * a + s.c01 * b, s.c01 * a + s.c11 * b);
  }

  lemma NormalMinimises(points: seq<Point>, u: seq<real>, t1: Point, t2: Point, a: real, b: real, c: real, d: real)
    requires points != [] && |u| == |points|
    requires Normal(SystemOf(points, u, t1, t2, |u|), a, b)
    ensures Misfit(Armed(points, t1, t2, (a, b)), points, u, |u|) <=
      Misfit(Armed(points, t1, t2, (c, d)), points, u, |u|)
  {
    var k := Dots(Rest(points, u), Rest(points, u), |u|);
    BowlNonNegative(points, u, t1, t2, c - a, d - b, |u|);
    BowlMinimum(SystemOf(points, u, t1, t2, |u|), k, a, b, c, d);
    MisfitIsBowl(points, u, t1, t2, a, b, |u|);
    MisfitIsBowl(points, u, t1, t2, c, d, |u|);
  }

  /** When the solution is used, no other pair of arm lengths leaves a smaller squared misfit. */
  lemma GenMinimises(length: Point -> real, points: seq<Point>, u: seq<real>, t1: Point, t2: Point, c: real, d: real)
    requires points != [] && |u| == |points| && Span(length, points) >= 0.0
    requires Solvable(SystemOf(points, u, t1, t2, |u|), Span(length, points))
    ensures Misfit(Gen(length, points, u, t1, t2), points, u, |u|)
         <= Misfit(Armed(points, t1, t2, (c, d)), points, u, |u|)
  {
    var s := SystemOf(points, u, t1, t2, |u|);
    var a := Cramer(s);
    assert ArmLengths(s, Span(length, points)) == a;
    CramerSolves(s);
    NormalMinimises(points, u, t1, t2, a.0, a.1, c, d);
  }
}
