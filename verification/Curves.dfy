/** Points of the plane and cubic Bézier curves over exact arithmetic. */
module Curves {
  datatype Point = Point(x: real, y: real)

  function Plus(a: Point, b: Point): Point {
    Point(a.x + b.x, a.y + b.y)
  }

  function Minus(a: Point, b: Point): Point {
    Point(a.x - b.x, a.y - b.y)
  }

  function Times(a: Point, k: real): Point {
    Point(a.x * k, a.y * k)
  }

  function Inner(a: Point, b: Point): real {
    a.x * b.x + a.y * b.y
  }

  datatype Cubic = Cubic(p0: Point, p1: Point, p2: Point, p3: Point)

  /** One coordinate of a cubic at parameter `t`. */
  function Blend(a: real, b: real, c: real, d: real, t: real): real {
    var s := 1.0 - t;
    s * s * s * a + 3.0 * (s * s) * t * b + 3.0 * s * (t * t) * c + t * t * t * d
  }

  function At(b: Cubic, t: real): Point {
    Point(Blend(b.p0.x, b.p1.x, b.p2.x, b.p3.x, t), Blend(b.p0.y, b.p1.y, b.p2.y, b.p3.y, t))
  }

  lemma Ends(b: Cubic)
    ensures At(b, 0.0) == b.p0 && At(b, 1.0) == b.p3
  {
  }

  // ----- derivatives -----

  function Slope1(a: real, b: real, c: real, d: real, t: real): real {
    var s := 1.0 - t;
    3.0 * (s * s) * (b - a) + 6.0 * s * t * (c - b) + 3.0 * (t * t) * (d - c)
  }

  function Bend1(a: real, b: real, c: real, d: real, t: real): real {
    6.0 * (1.0 - t) * (c - 2.0 * b + a) + 6.0 * t * (d - 2.0 * c + b)
  }

  function Velocity(b: Cubic, t: real): Point {
    Point(Slope1(b.p0.x, b.p1.x, b.p2.x, b.p3.x, t), Slope1(b.p0.y, b.p1.y, b.p2.y, b.p3.y, t))
  }

  function Acceleration(b: Cubic, t: real): Point {
    Point(Bend1(b.p0.x, b.p1.x, b.p2.x, b.p3.x, t), Bend1(b.p0.y, b.p1.y, b.p2.y, b.p3.y, t))
  }

  lemma Taylor1(a: real, b: real, c: real, d: real, t: real, h: real)
    ensures Blend(a, b, c, d, t + h)
         == Blend(a, b, c, d, t) + h * Slope1(a, b, c, d, t) + h * h / 2.0 * Bend1(a, b, c, d, t)
          + h * h * h * (d - 3.0 * c + 3.0 * b - a)
  {
  }

  // ----- repeated interpolation -----

  /** A way of mixing two points that composes the way linear interpolation does. */
  ghost predicate Interpolates<P(!new)>(mix: (P, P, real) -> P) {
    && (forall a, b, t, s, w :: w == t * s ==> mix(a, mix(a, b, t), s) == mix(a, b, w))
    && (forall a, b, c, d, t, s :: mix(mix(a, b, t), mix(c, d, t), s) == mix(mix(a, c, s), mix(b, d, s), t))
  }

  ghost predicate Reverses<P(!new)>(mix: (P, P, real) -> P) {
    forall a, b, t, r :: r == 1.0 - t ==> mix(a, b, t) == mix(b, a, r)
  }

  function Mid2<P>(mix: (P, P, real) -> P, a: P, b: P, c: P, t: real): P {
    mix(mix(a, b, t), mix(b, c, t), t)
  }

  function Mid3<P>(mix: (P, P, real) -> P, a: P, b: P, c: P, d: P, t: real): P {
    mix(Mid2(mix, a, b, c, t), Mid2(mix, b, c, d, t), t)
  }

  lemma Head2<P(!new)>(mix: (P, P, real) -> P, a: P, b: P, c: P, t: real, s: real, w: real)
    requires Interpolates(mix) && w == t * s
    ensures Mid2(mix, a, mix(a, b, t), Mid2(mix, a, b, c, t), s) == Mid2(mix, a, b, c, w)
  {
    var x, m := mix(a, b, t), mix(b, c, t);
    assert mix(a, x, s) == mix(a, b, w);
    assert mix(x, mix(x, m, t), s) == mix(x, m, w);
    assert mix(x, m, w) == mix(mix(a, b, w), mix(b, c, w), t);
  }

  lemma Mid2Mixes<P(!new)>(mix: (P, P, real) -> P, a: P, b: P, c: P, d: P, t: real, w: real)
    requires Interpolates(mix)
    ensures Mid2(mix, mix(a, b, t), mix(b, c, t), mix(c, d, t), w) ==
      mix(Mid2(mix, a, b, c, w), Mid2(mix, b, c, d, w), t)
  {
    assert mix(mix(a, b, t), mix(b, c, t), w) == mix(mix(a, b, w), mix(b, c, w), t);
    assert mix(mix(b, c, t), mix(c, d, t), w) == mix(mix(b, c, w), mix(c, d, w), t);
  }

  lemma Head3<P(!new)>(mix: (P, P, real) -> P, a: P, b: P, c: P, d: P, t: real, s: real, w: real)
    requires Interpolates(mix) && w == t * s
    ensures Mid3(mix, a, mix(a, b, t), Mid2(mix, a, b, c, t), Mid3(mix, a, b, c, d, t), s) == Mid3(mix, a, b, c, d, w)
  {
    Head2(mix, a, b, c, t, s, w);
    Head2(mix, mix(a, b, t), mix(b, c, t), mix(c, d, t), t, s, w);
    Mid2Mixes(mix, a, b, c, d, t, w);
  }

  lemma MidsReverse<P(!new)>(mix: (P, P, real) -> P, a: P, b: P, c: P, d: P, t: real, r: real)
    requires Reverses(mix) && r == 1.0 - t
    ensures Mid2(mix, a, b, c, t) == Mid2(mix, c, b, a, r)
    ensures Mid3(mix, a, b, c, d, t) == Mid3(mix, d, c, b, a, r)
  {
    assert mix(a, b, t) == mix(b, a, r) && mix(b, c, t) == mix(c, b, r) && mix(c, d, t) == mix(d, c, r);
    assert Mid2(mix, a, b, c, t) == Mid2(mix, c, b, a, r);
    assert Mid2(mix, b, c, d, t) == Mid2(mix, d, c, b, r);
  }

  lemma Tail3<P(!new)>(mix: (P, P, real) -> P, a: P, b: P, c: P, d: P, t: real, s: real, w: real)
    requires Interpolates(mix) && Reverses(mix) && w == t + (1.0 - t) * s
    ensures Mid3(mix, Mid3(mix, a, b, c, d, t), Mid2(mix, b, c, d, t), mix(c, d, t), d, s) == Mid3(mix, a, b, c, d, w)
  {
    var f, v, y := Mid3(mix, a, b, c, d, t), Mid2(mix, b, c, d, t), mix(c, d, t);
    MidsReverse(mix, f, v, y, d, s, 1.0 - s);
    MidsReverse(mix, a, b, c, d, t, 1.0 - t);
    MidsReverse(mix, b, c, d, d, t, 1.0 - t);
    assert y == mix(d, c, 1.0 - t);
    assert 1.0 - w == (1.0 - t) * (1.0 - s);
    Head3(mix, d, c, b, a, 1.0 - t, 1.0 - s, 1.0 - w);
    MidsReverse(mix, a, b, c, d, w, 1.0 - w);
  }

  // ----- splitting -----

  function Mix(a: Point, b: Point, t: real): Point {
    Plus(a, Times(Minus(b, a), t))
  }

  function Mix1(a: real, b: real, t: real): real {
    a + (b - a) * t
  }

  lemma MixIsLinear(a: real, b: real, c: real, d: real, t: real, s: real)
    ensures Mix1(a, Mix1(a, b, t), s) == Mix1(a, b, t * s)
    ensures Mix1(Mix1(a, b, t), Mix1(c, d, t), s) == Mix1(Mix1(a, c, s), Mix1(b, d, s), t)
    ensures Mix1(a, b, t) == Mix1(b, a, 1.0 - t)
  {
  }

  lemma MixInterpolates()
    ensures Interpolates(Mix) && Reverses(Mix)
  {
    forall a, b, t, s, w | w == t * s
      ensures Mix(a, Mix(a, b, t), s) == Mix(a, b, w)
    {
      MixIsLinear(a.x, b.x, a.x, b.x, t, s);
      MixIsLinear(a.y, b.y, a.y, b.y, t, s);
    }
    forall a, b, c, d, t, s
      ensures Mix(Mix(a, b, t), Mix(c, d, t), s) == Mix(Mix(a, c, s), Mix(b, d, s), t)
    {
      MixIsLinear(a.x, b.x, c.x, d.x, t, s);
      MixIsLinear(a.y, b.y, c.y, d.y, t, s);
    }
    forall a, b, t, r | r == 1.0 - t
      ensures Mix(a, b, t) == Mix(b, a, r)
    {
      MixIsLinear(a.x, b.x, a.x, b.x, t, t);
      MixIsLinear(a.y, b.y, a.y, b.y, t, t);
    }
  }

  lemma Blend2(a: real, b: real, c: real, t: real)
    ensures Mix1(Mix1(a, b, t), Mix1(b, c, t), t) == (1.0 - t) * (1.0 - t) * a + 2.0 * ((1.0 - t) * t) * b + t * t * c
  {
  }

  lemma Blend3(a: real, b: real, c: real, d: real, t: real)
    ensures Mix1(Mix1(Mix1(a, b, t), Mix1(b, c, t), t), Mix1(Mix1(b, c, t), Mix1(c, d, t), t), t) ==
      Blend(a, b, c, d, t)
  {
    Blend2(a, b, c, t);
    Blend2(b, c, d, t);
  }

  lemma MixParts(a: Point, b: Point, t: real)
    ensures Mix(a, b, t).x == Mix1(a.x, b.x, t) && Mix(a, b, t).y == Mix1(a.y, b.y, t)
  {
  }

  lemma Mid2Parts(a: Point, b: Point, c: Point, t: real)
    ensures Mid2(Mix, a, b, c, t).x == Mix1(Mix1(a.x, b.x, t), Mix1(b.x, c.x, t), t)
    ensures Mid2(Mix, a, b, c, t).y == Mix1(Mix1(a.y, b.y, t), Mix1(b.y, c.y, t), t)
  {
    MixParts(Mix(a, b, t), Mix(b, c, t), t);
  }

  /** Evaluation is de Casteljau's construction carried to the end. */
  lemma AtIsMid3(b: Cubic, t: real)
    ensures At(b, t) == Mid3(Mix, b.p0, b.p1, b.p2, b.p3, t)
  {
    Mid2Parts(b.p0, b.p1, b.p2, t);
    Mid2Parts(b.p1, b.p2, b.p3, t);
    MixParts(Mid2(Mix, b.p0, b.p1, b.p2, t), Mid2(Mix, b.p1, b.p2, b.p3, t), t);
    Blend3(b.p0.x, b.p1.x, b.p2.x, b.p3.x, t);
    Blend3(b.p0.y, b.p1.y, b.p2.y, b.p3.y, t);
  }

  /** De Casteljau's construction at `t`. */
  function SplitBy(mix: (Point, Point, real) -> Point, b: Cubic, t: real): (Cubic, Cubic) {
    var a, m, c := mix(b.p0, b.p1, t), mix(b.p1, b.p2, t), mix(b.p2, b.p3, t);
    var d, e := mix(a, m, t), mix(m, c, t);
    var f := mix(d, e, t);
    (Cubic(b.p0, a, d, f), Cubic(f, e, c, b.p3))
  }

  lemma HeadMix(a: Point, b: Point, c: Point, d: Point, t: real, s: real)
    ensures Mid3(Mix, a, Mix(a, b, t), Mid2(Mix, a, b, c, t), Mid3(Mix, a, b, c, d, t), s) ==
      Mid3(Mix, a, b, c, d, t * s)
  {
    MixInterpolates();
    Head3(Mix, a, b, c, d, t, s, t * s);
  }

  lemma TailMix(a: Point, b: Point, c: Point, d: Point, t: real, s: real)
    ensures Mid3(Mix, Mid3(Mix, a, b, c, d, t), Mid2(Mix, b, c, d, t), Mix(c, d, t), d, s)
         == Mid3(Mix, a, b, c, d, t + (1.0 - t) * s)
  {
    MixInterpolates();
    Tail3(Mix, a, b, c, d, t, s, t + (1.0 - t) * s);
  }

  function Split(b: Cubic, t: real): (Cubic, Cubic) {
    SplitBy(Mix, b, t)
  }

  lemma HeadTraces(b: Cubic, h: Cubic, t: real, s: real)
    requires h == Cubic(b.p0, Mix(b.p0, b.p1, t), Mid2(Mix, b.p0, b.p1, b.p2, t), Mid3(Mix, b.p0, b.p1, b.p2, b.p3, t))
    ensures At(h, s) == At(b, t * s)
  {
    AtIsMid3(h, s);
    AtIsMid3(b, t * s);
    HeadMix(b.p0, b.p1, b.p2, b.p3, t, s);
  }

  lemma TailTraces(b: Cubic, h: Cubic, t: real, s: real)
    requires h == Cubic(Mid3(Mix, b.p0, b.p1, b.p2, b.p3, t), Mid2(Mix, b.p1, b.p2, b.p3, t), Mix(b.p2, b.p3, t), b.p3)
    ensures At(h, s) == At(b, t + (1.0 - t) * s)
  {
    AtIsMid3(h, s);
    AtIsMid3(b, t + (1.0 - t) * s);
    TailMix(b.p0, b.p1, b.p2, b.p3, t, s);
  }

  /** The two parts trace the curve on [0, t] and on [t, 1]. */
  lemma SplitTraces(b: Cubic, t: real, s: real)
    ensures At(Split(b, t).0, s) == At(b, t * s)
    ensures At(Split(b, t).1, s) == At(b, t + (1.0 - t) * s)
  {
    HeadTraces(b, Split(b, t).0, t, s);
    TailTraces(b, Split(b, t).1, t, s);
  }
}
