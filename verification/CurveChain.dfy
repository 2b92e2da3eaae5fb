/**
 * The recursive fit: one cubic is accepted when every point lies within the tolerance, otherwise
 * the run is split at its worst point and both halves share the tangent there.
 */
module CurveChain {
  import opened Curves
  import opened CurveFit
  import opened Reals
  import opened Text

  // ----- reparametrisation -----

  function Clip(x: real): (r: real)
    ensures 0.0 <= r <= 1.0
    ensures 0.0 <= x <= 1.0 ==> r == x
  {
    if x < 0.0 then 0.0 else if x > 1.0 then 1.0 else x
  }

  /** Half the first and half the second derivative of the squared distance at `u`. */
  function FirstOrder(b: Cubic, p: Point, u: real): real {
    Inner(Minus(At(b, u), p), Velocity(b, u))
  }

  function SecondOrder(b: Cubic, p: Point, u: real): real {
    Inner(Velocity(b, u), Velocity(b, u)) + Inner(Minus(At(b, u), p), Acceleration(b, u))
  }

  function Stepped(b: Cubic, p: Point, u: real): (r: real)
    ensures 0.0 <= r <= 1.0
  {
    var den := SecondOrder(b, p, u);
    Clip(if Abs(den) > TINY then u - FirstOrder(b, p, u) / den else u)
  }

  /**
   * Where the derivative of the squared distance has a slope, the step goes to the zero of its tangent,
   * or to the end of [0, 1] on the way there; elsewhere it stays, within [0, 1].
   */
  lemma StepIsNewton(b: Cubic, p: Point, u: real)
    ensures var r, num, den := Stepped(b, p, u), FirstOrder(b, p, u), SecondOrder(b, p, u);
      if den > 0.000000000001 || den < -0.000000000001
      then exists x :: num + den * (x - u) == 0.0 && NearestInUnit(r, x)
      else NearestInUnit(r, u)
  {
    var num, den := FirstOrder(b, p, u), SecondOrder(b, p, u);
    if Abs(den) > TINY {
      var x := u - num / den;
      ZeroOfTangent(num, den, u, x);
      assert NearestInUnit(Stepped(b, p, u), x);
    }
  }

  /** The number of [0, 1] nearest to `x`. */
  predicate NearestInUnit(r: real, x: real) {
    0.0 <= r <= 1.0 && (0.0 <= x <= 1.0 ==> r == x) && (x < 0.0 ==> r == 0.0) && (x > 1.0 ==> r == 1.0)
  }

  lemma ZeroOfTangent(num: real, den: real, u: real, x: real)
    requires den != 0.0 && x == u - num / den
    ensures num + den * (x - u) == 0.0
  {
    var q := num / den;
    assert q * den == num && x - u == -q;
  }

  function Reparam(b: Cubic, points: seq<Point>, u: seq<real>): (r: seq<real>)
    requires |u| == |points|
    ensures |r| == |u| && InRange(r)
  {
    seq(|u|, i requires 0 <= i < |u| => Stepped(b, points[i], u[i]))
  }

  function Third(b: Cubic): Point {
    Point(b.p3.x - 3.0 * b.p2.x + 3.0 * b.p1.x - b.p0.x, b.p3.y - 3.0 * b.p2.y + 3.0 * b.p1.y - b.p0.y)
  }

  /** The terms beyond the second order of a squared coordinate, over h cubed. */
  function Beyond(d: real, v: real, a: real, k: real, h: real): real {
    v * a + 2.0 * (d * k) + h * (a * a / 4.0 + 2.0 * (v * k)) + h * h * (a * k) + h * h * h * (k * k)
  }

  lemma SquareOfCubic(d: real, v: real, a: real, k: real, h: real)
    ensures
      var e := d + h * v + h * h / 2.0 * a + h * h * h * k;
      e * e == d * d + 2.0 * h * (d * v) + h * h * (v * v + d * a) + h * h * h * Beyond(d, v, a, k, h)
  {
  }

  lemma SquareOfSum(d: real, v: real, a: real, k: real, h: real, e: real, r: real)
    requires e == d + h * v + h * h / 2.0 * a + h * h * h * k && r == Beyond(d, v, a, k, h)
    ensures e * e == d * d + 2.0 * h * (d * v) + h * h * (v * v + d * a) + h * h * h * r
  {
    SquareOfCubic(d, v, a, k, h);
  }

  lemma Collect(h: real, p: real, q: real, r: real, s: real, t: real, u: real, x: real, y: real, z: real)
    requires x == p + q && y == r + s && z == t + u
    ensures 2.0 * h * p + 2.0 * h * q == 2.0 * h * x
    ensures h * h * r + h * h * s == h * h * y
    ensures h * h * h * t + h * h * h * u == h * h * h * z
  {
  }

  function Remainder(d: Point, v: Point, a: Point, k: Point, h: real): real {
    Beyond(d.x, v.x, a.x, k.x, h) + Beyond(d.y, v.y, a.y, k.y, h)
  }

  lemma SumOfSquares(d: Point, v: Point, a: Point, k: Point, h: real, e: Point, x: real, y: real)
    requires e.x == d.x + h * v.x + h * h / 2.0 * a.x + h * h * h * k.x && x == Beyond(d.x, v.x, a.x, k.x, h)
    requires e.y == d.y + h * v.y + h * h / 2.0 * a.y + h * h * h * k.y && y == Beyond(d.y, v.y, a.y, k.y, h)
    ensures e.x * e.x + e.y * e.y == d.x * d.x + d.y * d.y + 2.0 * h * (d.x * v.x) + 2.0 * h * (d.y * v.y)
          + h * h * (v.x * v.x + d.x * a.x) + h * h * (v.y * v.y + d.y * a.y) + h * h * h * x + h * h * h * y
  {
    SquareOfSum(d.x, v.x, a.x, k.x, h, e.x, x);
    SquareOfSum(d.y, v.y, a.y, k.y, h, e.y, y);
  }

  lemma DistanceExpands(d: Point, v: Point, a: Point, k: Point, h: real, e: Point)
    requires e.x == d.x + h * v.x + h * h / 2.0 * a.x + h * h * h * k.x
    requires e.y == d.y + h * v.y + h * h / 2.0 * a.y + h * h * h * k.y
    ensures Inner(e, e) == Inner(d, d) + 2.0 * h * Inner(d, v) + h * h * (Inner(v, v) + Inner(d, a)) +
      h * h * h * Remainder(d, v, a, k, h)
  {
    var x, y := Beyond(d.x, v.x, a.x, k.x, h), Beyond(d.y, v.y, a.y, k.y, h);
    SumOfSquares(d, v, a, k, h, e, x, y);
    Collect(h, d.x * v.x, d.y * v.y, v.x * v.x + d.x * a.x, v.y * v.y + d.y * a.y, x, y,
            Inner(d, v), Inner(v, v) + Inner(d, a), Remainder(d, v, a, k, h));
  }

  lemma Gap1(p0: real, p1: real, p2: real, p3: real, u: real, h: real, p: real, d: real, v: real, a: real, k: real,
             e: real)
    requires d == Blend(p0, p1, p2, p3, u) - p && e == Blend(p0, p1, p2, p3, u + h) - p
    requires v == Slope1(p0, p1, p2, p3, u) && a == Bend1(p0, p1, p2, p3, u) && k == p3 - 3.0 * p2 + 3.0 * p1 - p0
    ensures e == d + h * v + h * h / 2.0 * a + h * h * h * k
  {
    Taylor1(p0, p1, p2, p3, u, h);
  }

  ghost predicate Expands(d: Point, v: Point, a: Point, k: Point, h: real, e: Point) {
    Inner(e, e) == Inner(d, d) + 2.0 * h * Inner(d, v) + h * h * (Inner(v, v) + Inner(d, a)) +
      h * h * h * Remainder(d, v, a, k, h)
  }

  lemma GapX(b: Cubic, p: Point, u: real, h: real, d: Point, v: Point, a: Point, k: Point, e: Point)
    requires d == Minus(At(b, u), p) && e == Minus(At(b, u + h), p)
    requires v == Velocity(b, u) && a == Acceleration(b, u) && k == Third(b)
    ensures e.x == d.x + h * v.x + h * h / 2.0 * a.x + h * h * h * k.x
  {
    Gap1(b.p0.x, b.p1.x, b.p2.x, b.p3.x, u, h, p.x, d.x, v.x, a.x, k.x, e.x);
  }

  lemma GapY(b: Cubic, p: Point, u: real, h: real, d: Point, v: Point, a: Point, k: Point, e: Point)
    requires d == Minus(At(b, u), p) && e == Minus(At(b, u + h), p)
    requires v == Velocity(b, u) && a == Acceleration(b, u) && k == Third(b)
    ensures e.y == d.y + h * v.y + h * h / 2.0 * a.y + h * h * h * k.y
  {
    Gap1(b.p0.y, b.p1.y, b.p2.y, b.p3.y, u, h, p.y, d.y, v.y, a.y, k.y, e.y);
  }

  lemma StepFrom(b: Cubic, p: Point, u: real, h: real, d: Point, v: Point, a: Point, k: Point, e: Point)
    requires d == Minus(At(b, u), p) && e == Minus(At(b, u + h), p)
    requires v == Velocity(b, u) && a == Acceleration(b, u) && k == Third(b)
    ensures Expands(d, v, a, k, h, e)
  {
    GapX(b, p, u, h, d, v, a, k, e);
    GapY(b, p, u, h, d, v, a, k, e);
    DistanceExpands(d, v, a, k, h, e);
  }

  /** The step is Newton's: its two quantities are the derivatives of half the squared distance. */
  lemma StepExpands(b: Cubic, p: Point, u: real, h: real)
    ensures
      var d, e := Minus(At(b, u), p), Minus(At(b, u + h), p);
      Inner(e, e) == Inner(d, d) + 2.0 * h * FirstOrder(b, p, u) + h * h * SecondOrder(b, p, u)
                   + h * h * h * Remainder(d, Velocity(b, u), Acceleration(b, u), Third(b), h)
  {
    StepFrom(b, p, u, h, Minus(At(b, u), p), Velocity(b, u), Acceleration(b, u), Third(b), Minus(At(b, u + h), p));
  }

  // ----- the worst point -----

  function ArgMax(e: seq<real>): (i: nat)
    requires e != []
    ensures i < |e|
    ensures forall j :: 0 <= j < |e| ==> e[j] <= e[i]
    ensures forall j :: 0 <= j < i ==> e[j] < e[i]
  {
    if |e| == 1 then 0
    else
      var i := ArgMax(e[..|e| - 1]);
      if e[|e| - 1] > e[i] then |e| - 1 else i
  }

  function Distances(length: Point -> real, b: Cubic, points: seq<Point>, u: seq<real>): (e: seq<real>)
    requires |u| == |points|
    ensures |e| == |u|
  {
    seq(|u|, i requires 0 <= i < |u| => length(Minus(At(b, u[i]), points[i])))
  }

  lemma WorstPoint(length: Point -> real, b: Cubic, points: seq<Point>, u: seq<real>)
    requires |u| == |points| >= 1
    ensures var i := ArgMax(Distances(length, b, points, u));
      forall j :: 0 <= j < |points| ==> length(Minus(At(b, u[j]), points[j])) <= length(Minus(At(b, u[i]), points[i]))
  {
    var e := Distances(length, b, points, u);
    var i := ArgMax(e);
    forall j | 0 <= j < |points|
      ensures length(Minus(At(b, u[j]), points[j])) <= length(Minus(At(b, u[i]), points[i]))
    {
      assert e[j] <= e[i];
    }
  }

  // ----- what a fitted chain promises -----

  /** Some parameter in [0, 1] brings the cubic closer to `p` than `err`. */
  ghost predicate Near(length: Point -> real, b: Cubic, p: Point, err: real) {
    exists s :: 0.0 <= s <= 1.0 && length(Minus(At(b, s), p)) < err
  }

  /** The cubic runs from point `from` to point `to` and passes near every point between. */
  ghost predicate Covers(length: Point -> real, b: Cubic, points: seq<Point>, from: nat, to: nat, err: real) {
    && from < to < |points| && b.p0 == points[from] && b.p3 == points[to]
    && forall j :: from <= j <= to ==> Near(length, b, points[j], err)
  }

  predicate ArmAlong(arm: Point, tip: Point, t: Point, k: real, c: Cubic) {
    tip == Plus(arm, Times(t, k)) && k >= 0.0 && (c.p0 != c.p3 ==> k > 0.0)
  }

  ghost predicate Leaves(c: Cubic, t: Point) {
    exists k :: ArmAlong(c.p0, c.p1, t, k, c)
  }

  ghost predicate Arrives(c: Cubic, t: Point) {
    exists k :: ArmAlong(c.p3, c.p2, t, k, c)
  }

  /** The cubics meet with opposite arms along one unit tangent. */
  ghost predicate Joined(c: Cubic, d: Cubic) {
    c.p3 == d.p0 && exists t :: Inner(t, t) == 1.0 && Arrives(c, t) && Leaves(d, Times(t, -1.0))
  }

  ghost predicate AllCover(length: Point -> real, points: seq<Point>, err: real, chain: seq<Cubic>, breaks: seq<nat>) {
    |breaks| == |chain| + 1
    && forall k :: 0 <= k < |chain| ==> Covers(length, chain[k], points, breaks[k], breaks[k + 1], err)
  }

  /**
   * At the inner break point `b` the chain follows the chord across the two neighbours of the point: it
   * arrives along it from the one before, and leaves along it towards the one behind.
   */
  ghost predicate Across(points: seq<Point>, b: nat, c: Cubic, d: Cubic) {
    && 1 <= b < |points| - 1 && c.p3 == points[b] == d.p0
    && Arrives(c, Minus(points[b - 1], points[b + 1])) && Leaves(d, Minus(points[b + 1], points[b - 1]))
  }

  ghost predicate AllAcross(points: seq<Point>, chain: seq<Cubic>, breaks: seq<nat>) {
    |breaks| == |chain| + 1
    && forall k :: 0 <= k < |chain| - 1 ==> Across(points, breaks[k + 1], chain[k], chain[k + 1])
  }

  ghost predicate AllJoined(chain: seq<Cubic>) {
    forall k :: 0 <= k < |chain| - 1 ==> Joined(chain[k], chain[k + 1])
  }

  /** `breaks` lists the points at which the cubics of the chain start and end. */
  ghost predicate Fits(length: Point -> real, points: seq<Point>, t1: Point, t2: Point, err: real,
                       chain: seq<Cubic>, breaks: seq<nat>) {
    && |chain| >= 1 && |breaks| == |chain| + 1 && breaks[0] == 0 && breaks[|chain|] == |points| - 1
    && AllCover(length, points, err, chain, breaks) && AllJoined(chain) && AllAcross(points, chain, breaks)
    && Leaves(chain[0], t1) && Arrives(chain[|chain| - 1], t2)
  }

  /** The chain fits for some choice of break points. */
  ghost predicate Fitted(length: Point -> real, points: seq<Point>, t1: Point, t2: Point, err: real,
                         chain: seq<Cubic>) {
    exists breaks :: Fits(length, points, t1, t2, err, chain, breaks)
  }

  // ----- one cubic -----

  lemma SpanPositive(length: Point -> real, points: seq<Point>)
    requires IsLength(length) && points != []
    ensures Span(length, points) >= 0.0
    ensures points[0] != points[|points| - 1] ==> Span(length, points) > 0.0
  {
    LengthPositive(length, Minus(points[|points| - 1], points[0]));
  }

  lemma SensiblePositive(a: (real, real), span: real)
    requires Sensible(a, span) && span >= 0.0
    ensures a.0 >= 0.0 && a.1 >= 0.0 && (span > 0.0 ==> a.0 > 0.0 && a.1 > 0.0)
  {
  }

  lemma ArmsHold(points: seq<Point>, t1: Point, t2: Point, a: (real, real))
    requires |points| >= 2 && a.0 >= 0.0 && a.1 >= 0.0
    requires points[0] != points[|points| - 1] ==> a.0 > 0.0 && a.1 > 0.0
    ensures Leaves(Armed(points, t1, t2, a), t1) && Arrives(Armed(points, t1, t2, a), t2)
  {
    var b := Armed(points, t1, t2, a);
    assert ArmAlong(b.p0, b.p1, t1, a.0, b);
    assert ArmAlong(b.p3, b.p2, t2, a.1, b);
  }

  lemma GenArms(length: Point -> real, points: seq<Point>, u: seq<real>, t1: Point, t2: Point)
    requires IsLength(length) && |points| >= 2 && |u| == |points| && Span(length, points) >= 0.0
    ensures var b := Gen(length, points, u, t1, t2);
      b.p0 == points[0] && b.p3 == points[|points| - 1] && Leaves(b, t1) && Arrives(b, t2)
  {
    SpanPositive(length, points);
    var a := ArmLengths(SystemOf(points, u, t1, t2, |u|), Span(length, points));
    SensiblePositive(a, Span(length, points));
    ArmsHold(points, t1, t2, a);
  }

  /** A cubic whose worst distance is below the tolerance covers the whole run. */
  lemma AcceptedCovers(length: Point -> real, points: seq<Point>, u: seq<real>, b: Cubic, err: real)
    requires |points| >= 2 && |u| == |points| && InRange(u)
    requires b.p0 == points[0] && b.p3 == points[|points| - 1]
    requires var e := Distances(length, b, points, u); e[ArgMax(e)] < err
    ensures Covers(length, b, points, 0, |points| - 1, err)
  {
    var e := Distances(length, b, points, u);
    forall j | 0 <= j <= |points| - 1
      ensures Near(length, b, points[j], err)
    {
      assert e[j] <= e[ArgMax(e)];
      assert 0.0 <= u[j] <= 1.0;
    }
  }

  lemma AcceptedFits(length: Point -> real, points: seq<Point>, u: seq<real>, t1: Point, t2: Point, err: real, b: Cubic)
    requires IsLength(length) && |points| >= 2 && |u| == |points| && InRange(u) && Span(length, points) >= 0.0
    requires b == Gen(length, points, u, t1, t2)
    requires var e := Distances(length, b, points, u); e[ArgMax(e)] < err
    ensures Fits(length, points, t1, t2, err, [b], [0, |points| - 1])
  {
    GenArms(length, points, u, t1, t2);
    AcceptedCovers(length, points, u, b, err);
    SingleFits(length, points, t1, t2, err, b);
  }

  lemma SingleFits(length: Point -> real, points: seq<Point>, t1: Point, t2: Point, err: real, b: Cubic)
    requires |points| >= 2 && Covers(length, b, points, 0, |points| - 1, err) && Leaves(b, t1) && Arrives(b, t2)
    ensures Fits(length, points, t1, t2, err, [b], [0, |points| - 1])
  {
  }

  lemma NoDistanceToSelf(length: Point -> real, p: Point)
    requires IsLength(length)
    ensures length(Minus(p, p)) == 0.0
  {
    assert Minus(p, p) == Point(0.0, 0.0);
    LengthPositive(length, Minus(p, p));
  }

  lemma CurveNearItself(length: Point -> real, b: Cubic, s: real, err: real)
    requires IsLength(length) && 0.0 <= s <= 1.0 && err > 0.0
    ensures Near(length, b, At(b, s), err)
  {
    NoDistanceToSelf(length, At(b, s));
  }

  lemma StraightFits(length: Point -> real, points: seq<Point>, t1: Point, t2: Point, err: real, d: real)
    requires IsLength(length) && |points| == 2 && err > 0.0 && d == Span(length, points) / 3.0
    ensures Fits(length, points, t1, t2, err, [Armed(points, t1, t2, (d, d))], [0, 1])
  {
    SpanPositive(length, points);
    ArmsHold(points, t1, t2, (d, d));
    var b := Armed(points, t1, t2, (d, d));
    Ends(b);
    CurveNearItself(length, b, 0.0, err);
    CurveNearItself(length, b, 1.0, err);
    SingleFits(length, points, t1, t2, err, b);
  }

  // ----- two halves make a whole -----

  function Shifted(breaks: seq<nat>, offset: nat): (r: seq<nat>)
    ensures |r| == |breaks|
  {
    seq(|breaks|, k requires 0 <= k < |breaks| => breaks[k] + offset)
  }

  lemma CoversWithin(length: Point -> real, b: Cubic, points: seq<Point>, lo: nat, hi: nat, from: nat, to: nat,
                     err: real)
    requires lo <= hi <= |points| && Covers(length, b, points[lo..hi], from, to, err)
    ensures Covers(length, b, points, lo + from, lo + to, err)
  {
    forall j | lo + from <= j <= lo + to
      ensures Near(length, b, points[j], err)
    {
      assert points[lo..hi][j - lo] == points[j];
    }
  }

  lemma HalvesCover(length: Point -> real, points: seq<Point>, i: nat, err: real,
                    left: seq<Cubic>, lefts: seq<nat>, right: seq<Cubic>, rights: seq<nat>)
    requires i < |points| && AllCover(length, points[0..i + 1], err, left, lefts)
    requires AllCover(length, points[i..|points|], err, right, rights) && lefts[|left|] == i && rights[0] == 0
    ensures AllCover(length, points, err, left + right, lefts + Shifted(rights[1..], i))
  {
    var chain, breaks, n := left + right, lefts + Shifted(rights[1..], i), |left|;
    forall k | 0 <= k < |chain|
      ensures Covers(length, chain[k], points, breaks[k], breaks[k + 1], err)
    {
      if k < n {
        CoversWithin(length, left[k], points, 0, i + 1, lefts[k], lefts[k + 1], err);
      } else {
        CoversWithin(length, right[k - n], points, i, |points|, rights[k - n], rights[k - n + 1], err);
        assert breaks[k] == i + rights[k - n];
      }
    }
  }

  lemma HalvesJoin(left: seq<Cubic>, right: seq<Cubic>)
    requires AllJoined(left) && AllJoined(right) && left != [] && right != [] && Joined(left[|left| - 1], right[0])
    ensures AllJoined(left + right)
  {
    var chain, n := left + right, |left|;
    forall k | 0 <= k < |chain| - 1
      ensures Joined(chain[k], chain[k + 1])
    {
      if k >= n {
        assert Joined(right[k - n], right[k - n + 1]);
      }
    }
  }

  lemma AcrossWithin(points: seq<Point>, lo: nat, hi: nat, b: nat, c: Cubic, d: Cubic)
    requires lo <= hi <= |points| && Across(points[lo..hi], b, c, d)
    ensures Across(points, lo + b, c, d)
  {
    var part := points[lo..hi];
    assert part[b - 1] == points[lo + b - 1] && part[b] == points[lo + b] && part[b + 1] == points[lo + b + 1];
  }

  lemma HalvesAcross(points: seq<Point>, i: nat, left: seq<Cubic>, lefts: seq<nat>, right: seq<Cubic>,
                     rights: seq<nat>)
    requires i < |points| && left != [] && right != []
    requires AllAcross(points[0..i + 1], left, lefts) && AllAcross(points[i..|points|], right, rights)
    requires lefts[|left|] == i && Across(points, i, left[|left| - 1], right[0])
    ensures AllAcross(points, left + right, lefts + Shifted(rights[1..], i))
  {
    var chain, breaks, n := left + right, lefts + Shifted(rights[1..], i), |left|;
    forall k | 0 <= k < |chain| - 1
      ensures Across(points, breaks[k + 1], chain[k], chain[k + 1])
    {
      if k < n - 1 {
        AcrossWithin(points, 0, i + 1, lefts[k + 1], left[k], left[k + 1]);
      } else if k >= n {
        AcrossWithin(points, i, |points|, rights[k - n + 1], right[k - n], right[k - n + 1]);
        assert breaks[k + 1] == i + rights[k - n + 1];
      }
    }
  }

  /** An arm along a unit vector is an arm along everything that points the same way. */
  lemma ArmScales(arm: Point, tip: Point, t: Point, k: real, l: real, v: Point, c: Cubic)
    requires ArmAlong(arm, tip, t, k, c) && l > 0.0 && t.x * l == v.x && t.y * l == v.y
    ensures ArmAlong(arm, tip, v, k / l, c)
  {
    var j := k / l;
    assert j * l == k;
    SignOfProduct(j, l);
    assert t.x * k == t.x * l * j && t.y * k == t.y * l * j;
  }

  lemma UnitScales(length: Point -> real, v: Point)
    requires IsLength(length) && length(v) != 0.0
    ensures var t, l := Unit(length, v), length(v); l > 0.0 && t.x * l == v.x && t.y * l == v.y
  {
    assert length(v) >= 0.0;
  }

  lemma TangentIsAcross(length: Point -> real, points: seq<Point>, i: nat, c: Cubic, d: Cubic)
    requires IsLength(length) && Directed(points) && 1 <= i < |points| - 1 && c.p3 == points[i] == d.p0
    requires var t := Tangent(length, points, i); Arrives(c, t) && Leaves(d, Times(t, -1.0))
    ensures Across(points, i, c, d)
  {
    var t := Tangent(length, points, i);
    var l := TangentScales(length, points, i);
    var a :| ArmAlong(c.p3, c.p2, t, a, c);
    ArmScales(c.p3, c.p2, t, a, l, Minus(points[i - 1], points[i + 1]), c);
    var b :| ArmAlong(d.p0, d.p1, Times(t, -1.0), b, d);
    ArmScales(d.p0, d.p1, Times(t, -1.0), b, l, Minus(points[i + 1], points[i - 1]), d);
  }

  lemma TangentScales(length: Point -> real, points: seq<Point>, i: nat) returns (l: real)
    requires IsLength(length) && Directed(points) && 1 <= i < |points| - 1
    ensures var t, v, w := Tangent(length, points, i), Minus(points[i - 1], points[i + 1]),
                           Minus(points[i + 1], points[i - 1]);
      && l > 0.0 && t.x * l == v.x && t.y * l == v.y
      && Times(t, -1.0).x * l == w.x && Times(t, -1.0).y * l == w.y
  {
    var v := Minus(points[i - 1], points[i + 1]);
    assert points[i - 1] != points[i - 1 + 2];
    LengthPositive(length, v);
    UnitScales(length, v);
    l := length(v);
  }

  /** The tangent at an inner point, across its two neighbours. */
  function Tangent(length: Point -> real, points: seq<Point>, i: nat): (t: Point)
    requires IsLength(length) && Directed(points) && 1 <= i < |points| - 1
    ensures Inner(t, t) == 1.0
  {
    var v := Minus(points[i - 1], points[i + 1]);
    assert points[i - 1] != points[i - 1 + 2];
    LengthPositive(length, v);
    UnitHasLengthOne(length, v);
    Unit(length, v)
  }

  lemma HalvesFit(length: Point -> real, points: seq<Point>, i: nat, t1: Point, t: Point, t2: Point, err: real,
                  left: seq<Cubic>, lefts: seq<nat>, right: seq<Cubic>, rights: seq<nat>)
    requires IsLength(length) && Directed(points) && 1 <= i < |points| - 1 && t == Tangent(length, points, i)
    requires Fits(length, points[..i + 1], t1, t, err, left, lefts)
    requires Fits(length, points[i..], Times(t, -1.0), t2, err, right, rights)
    ensures Fits(length, points, t1, t2, err, left + right, lefts + Shifted(rights[1..], i))
  {
    assert points[0..i + 1] == points[..i + 1] && points[i..|points|] == points[i..];
    HalvesCover(length, points, i, err, left, lefts, right, rights);
    var n := |left|;
    assert Covers(length, left[n - 1], points[..i + 1], lefts[n - 1], lefts[n], err);
    assert Covers(length, right[0], points[i..], rights[0], rights[1], err);
    assert left[n - 1].p3 == points[i] == right[0].p0;
    HalvesJoin(left, right);
    TangentIsAcross(length, points, i, left[n - 1], right[0]);
    HalvesAcross(points, i, left, lefts, right, rights);
  }

  lemma HalvesFitted(length: Point -> real, points: seq<Point>, i: nat, t1: Point, t: Point, t2: Point, err: real,
                     left: seq<Cubic>, right: seq<Cubic>)
    requires IsLength(length) && Directed(points) && 1 <= i < |points| - 1 && t == Tangent(length, points, i)
    requires Fitted(length, points[..i + 1], t1, t, err, left)
    requires Fitted(length, points[i..], Times(t, -1.0), t2, err, right)
    ensures Fitted(length, points, t1, t2, err, left + right)
  {
    var lefts :| Fits(length, points[..i + 1], t1, t, err, left, lefts);
    var rights :| Fits(length, points[i..], Times(t, -1.0), t2, err, right, rights);
    HalvesFit(length, points, i, t1, t, t2, err, left, lefts, right, rights);
  }

  // ----- the fit -----

  /** One cubic for given parameters, its worst distance and its worst point. */
  method Attempt(length: Point -> real, points: seq<Point>, u: seq<real>, t1: Point, t2: Point, err: real)
    returns (b: Cubic, e: real, i: nat)
    requires IsLength(length) && |points| >= 2 && |u| == |points| && InRange(u)
    ensures e < err ==> Fitted(length, points, t1, t2, err, [b])
    ensures i < |points| && e == length(Minus(At(b, u[i]), points[i]))
    ensures forall j :: 0 <= j < |points| ==> length(Minus(At(b, u[j]), points[j])) <= e
  {
    SpanPositive(length, points);
    b := Gen(length, points, u, t1, t2);
    var distances := Distances(length, b, points, u);
    i := ArgMax(distances);
    e := distances[i];
    WorstPoint(length, b, points, u);
    if e < err {
      AcceptedFits(length, points, u, t1, t2, err, b);
    }
  }

  /** At most thirty rounds of reparametrising and fitting again; `i` is the last worst point. */
  method Refine(length: Point -> real, points: seq<Point>, t1: Point, t2: Point, err: real,
                first: Cubic, chord: seq<real>, worst: nat)
    returns (ok: bool, b: Cubic, i: nat)
    requires IsLength(length) && |points| >= 2 && |chord| == |points| && worst < |points|
    ensures ok ==> Fitted(length, points, t1, t2, err, [b])
    ensures i < |points|
  {
    var u, e := chord, 0.0;
    b, i := first, worst;
    for k := 0 to 30
      invariant |u| == |points| && i < |points|
    {
      u := Reparam(b, points, u);
      b, e, i := Attempt(length, points, u, t1, t2, err);
      if e < err {
        return true, b, i;
      }
    }
    ok := false;
  }

  /** Tries one cubic for the run; `i` is the last worst point. */
  method FitOne(length: Point -> real, points: seq<Point>, t1: Point, t2: Point, err: real)
    returns (ok: bool, b: Cubic, i: nat)
    requires IsLength(length) && |points| >= 3 && Directed(points) && err > 0.0
    ensures ok ==> Fitted(length, points, t1, t2, err, [b])
    ensures i < |points|
  {
    assert points[0] != points[2];
    ChordOrder(length, points);
    var u, e := Chord(length, points), 0.0;
    b, e, i := Attempt(length, points, u, t1, t2, err);
    if e < err {
      return true, b, i;
    }
    ok := false;
    if e < err * 6.0 {
      ok, b, i := Refine(length, points, t1, t2, err, b, u, i);
    }
  }

  /**
   * Fits a chain to a run of points. It terminates on every run of at least two points in which no
   * point repeats two places later. Two points give one cubic with arms a third of their distance.
   */
  method Fit(length: Point -> real, points: seq<Point>, t1: Point, t2: Point, err: real)
    returns (chain: seq<Cubic>)
    requires IsLength(length) && |points| >= 2 && Directed(points) && err > 0.0
    ensures Fitted(length, points, t1, t2, err, chain)
    ensures |points| == 2 ==>
      var d := length(Minus(points[1], points[0])) / 3.0;
      chain == [Cubic(points[0], Plus(points[0], Times(t1, d)), Plus(points[1], Times(t2, d)), points[1])]
    decreases |points|
  {
    if |points| == 2 {
      var d := length(Minus(points[1], points[0])) / 3.0;
      StraightFits(length, points, t1, t2, err, d);
      return [Armed(points, t1, t2, (d, d))];
    }
    var ok, b, i := FitOne(length, points, t1, t2, err);
    if ok {
      return [b];
    }
    i := if i > |points| - 2 then |points| - 2 else if i < 1 then 1 else i;
    var t := Tangent(length, points, i);
    var left := Fit(length, points[..i + 1], t1, t, err);
    var right := Fit(length, points[i..], Times(t, -1.0), t2, err);
    HalvesFitted(length, points, i, t1, t, t2, err, left, right);
    chain := left + right;
  }

  lemma EndVelocities(b: Cubic)
    ensures Velocity(b, 0.0) == Times(Minus(b.p1, b.p0), 3.0)
    ensures Velocity(b, 1.0) == Times(Minus(b.p3, b.p2), 3.0)
  {
  }

  lemma ArrivalVelocity(c: Cubic, t: Point, a: real)
    requires ArmAlong(c.p3, c.p2, t, a, c)
    ensures Velocity(c, 1.0) == Times(Times(t, -1.0), 3.0 * a)
  {
    EndVelocities(c);
  }

  lemma DepartureVelocity(c: Cubic, t: Point, a: real)
    requires ArmAlong(c.p0, c.p1, t, a, c)
    ensures Velocity(c, 0.0) == Times(t, 3.0 * a)
  {
    EndVelocities(c);
  }

  lemma OppositeIsUnit(t: Point)
    requires Inner(t, t) == 1.0
    ensures Inner(Times(t, -1.0), Times(t, -1.0)) == 1.0
  {
  }

  /** At an inner join the chain leaves in the direction in which it arrived. */
  lemma JoinIsSmooth(c: Cubic, d: Cubic) returns (w: Point, j: real, k: real)
    requires Joined(c, d)
    ensures Inner(w, w) == 1.0 && Velocity(c, 1.0) == Times(w, j) && Velocity(d, 0.0) == Times(w, k)
    ensures j >= 0.0 && k >= 0.0 && (c.p0 != c.p3 ==> j > 0.0) && (d.p0 != d.p3 ==> k > 0.0)
  {
    var t :| Inner(t, t) == 1.0 && Arrives(c, t) && Leaves(d, Times(t, -1.0));
    var a :| ArmAlong(c.p3, c.p2, t, a, c);
    var b :| ArmAlong(d.p0, d.p1, Times(t, -1.0), b, d);
    OppositeIsUnit(t);
    ArrivalVelocity(c, t, a);
    DepartureVelocity(d, Times(t, -1.0), b);
    w, j, k := Times(t, -1.0), 3.0 * a, 3.0 * b;
  }

  function Towards(length: Point -> real, from: Point, to: Point): (t: Point)
    requires IsLength(length) && from != to
    ensures Inner(t, t) == 1.0
  {
    var v := Minus(to, from);
    LengthPositive(length, v);
    UnitHasLengthOne(length, v);
    Unit(length, v)
  }

  function Smaller(a: int, b: int): int {
    if a < b then a else b
  }

  ghost predicate CanStart(points: seq<Point>, start: Option<Point>, k: nat) {
    points != [] && (start.None? ==> points[0] != points[Smaller(k, |points| - 1)])
  }

  ghost predicate CanEnd(points: seq<Point>, end: Option<Point>, k: nat) {
    points != [] && (end.None? ==> points[|points| - 1] != points[|points| - 1 - Smaller(k, |points| - 1)])
  }

  function StartTangent(length: Point -> real, points: seq<Point>, start: Option<Point>, k: nat): Point
    requires IsLength(length) && CanStart(points, start, k)
  {
    if start.Some? then start.value else Towards(length, points[0], points[Smaller(k, |points| - 1)])
  }

  function EndTangent(length: Point -> real, points: seq<Point>, end: Option<Point>, k: nat): Point
    requires IsLength(length) && CanEnd(points, end, k)
  {
    var last := |points| - 1;
    if end.Some? then end.value else Towards(length, points[last], points[last - Smaller(k, last)])
  }

  lemma TowardsScales(length: Point -> real, from: Point, to: Point) returns (l: real)
    requires IsLength(length) && from != to
    ensures var t, v := Towards(length, from, to), Minus(to, from); l > 0.0 && t.x * l == v.x && t.y * l == v.y
  {
    LengthPositive(length, Minus(to, from));
    UnitScales(length, Minus(to, from));
    l := length(Minus(to, from));
  }

  lemma LeavesTowards(length: Point -> real, c: Cubic, from: Point, to: Point)
    requires IsLength(length) && from != to && Leaves(c, Towards(length, from, to))
    ensures Leaves(c, Minus(to, from))
  {
    var l := TowardsScales(length, from, to);
    var k :| ArmAlong(c.p0, c.p1, Towards(length, from, to), k, c);
    ArmScales(c.p0, c.p1, Towards(length, from, to), k, l, Minus(to, from), c);
  }

  lemma ArrivesTowards(length: Point -> real, c: Cubic, from: Point, to: Point)
    requires IsLength(length) && from != to && Arrives(c, Towards(length, from, to))
    ensures Arrives(c, Minus(to, from))
  {
    var l := TowardsScales(length, from, to);
    var k :| ArmAlong(c.p3, c.p2, Towards(length, from, to), k, c);
    ArmScales(c.p3, c.p2, Towards(length, from, to), k, l, Minus(to, from), c);
  }

  /** The first point `k` places ahead, or the last one; the last point `k` places back, or the first one. */
  ghost predicate LooksAhead(points: seq<Point>, chain: seq<Cubic>, start: Option<Point>, end: Option<Point>, k: nat)
    requires points != [] && chain != []
  {
    var last := |points| - 1;
    var ahead, back := if k < last then points[k] else points[last], if k < last then points[last - k] else points[0];
    && (start.Some? ==> Leaves(chain[0], start.value))
    && (start.None? ==> Leaves(chain[0], Minus(ahead, points[0])))
    && (end.Some? ==> Arrives(chain[|chain| - 1], end.value))
    && (end.None? ==> Arrives(chain[|chain| - 1], Minus(back, points[last])))
  }

  lemma FittedLooksAhead(length: Point -> real, points: seq<Point>, err: real, start: Option<Point>,
                         end: Option<Point>, k: nat, chain: seq<Cubic>)
    requires IsLength(length) && CanStart(points, start, k) && CanEnd(points, end, k)
    requires Fitted(length, points, StartTangent(length, points, start, k), EndTangent(length, points, end, k),
                    err, chain)
    ensures chain != [] && LooksAhead(points, chain, start, end, k)
  {
    var last := |points| - 1;
    var t1, t2 := StartTangent(length, points, start, k), EndTangent(length, points, end, k);
    var breaks :| Fits(length, points, t1, t2, err, chain, breaks);
    if start.None? {
      LeavesTowards(length, chain[0], points[0], points[Smaller(k, last)]);
    }
    if end.None? {
      ArrivesTowards(length, chain[|chain| - 1], points[last], points[last - Smaller(k, last)]);
    }
  }

  /** Fits an open run; a tangent that is not given looks `k` points ahead or back. */
  method FitOpen(length: Point -> real, points: seq<Point>, err: real, start: Option<Point>, end: Option<Point>, k: nat)
    returns (chain: seq<Cubic>)
    requires IsLength(length) && |points| >= 2 && Directed(points) && err > 0.0
    requires CanStart(points, start, k) && CanEnd(points, end, k)
    ensures Fitted(length, points, StartTangent(length, points, start, k), EndTangent(length, points, end, k),
                   err, chain)
    ensures chain != [] && LooksAhead(points, chain, start, end, k)
  {
    chain := Fit(length, points, StartTangent(length, points, start, k), EndTangent(length, points, end, k), err);
    FittedLooksAhead(length, points, err, start, end, k, chain);
  }
}
