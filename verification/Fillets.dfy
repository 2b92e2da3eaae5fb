/**
 * The fitted runs of an outline and the fillets that round its corners. The corner angle enters
 * only through the handle length of each fillet, which is a parameter.
 */
module Fillets {
  import opened Text
  import opened Curves
  import opened CurveFit
  import opened CurveChain

  // ----- chains -----

  predicate Connected(chain: seq<Cubic>) {
    forall i :: 0 <= i < |chain| - 1 ==> chain[i].p3 == chain[i + 1].p0
  }

  function Start(run: seq<Cubic>): Point
    requires run != []
  {
    run[0].p0
  }

  function End(run: seq<Cubic>): Point
    requires run != []
  {
    run[|run| - 1].p3
  }

  predicate ClosedChain(chain: seq<Cubic>) {
    chain != [] && Connected(chain) && End(chain) == Start(chain)
  }

  /** The run before run `k`, going round. */
  function Before(k: nat, n: nat): (p: nat)
    requires k < n
    ensures p < n
  {
    if k == 0 then n - 1 else k - 1
  }

  predicate ConnectedRuns(runs: seq<seq<Cubic>>) {
    forall k :: 0 <= k < |runs| ==> runs[k] != [] && Connected(runs[k])
  }

  /** Every run is connected and each starts where the run before it ends, going round. */
  predicate ClosedRuns(runs: seq<seq<Cubic>>) {
    && runs != [] && ConnectedRuns(runs)
    && forall k :: 0 <= k < |runs| ==> End(runs[Before(k, |runs|)]) == Start(runs[k])
  }

  function Flatten(runs: seq<seq<Cubic>>): seq<Cubic> {
    if runs == [] then [] else runs[0] + Flatten(runs[1..])
  }

  lemma ConnectedJoin(a: seq<Cubic>, b: seq<Cubic>)
    requires a != [] && b != [] && Connected(a) && Connected(b) && End(a) == Start(b)
    ensures Connected(a + b) && Start(a + b) == Start(a) && End(a + b) == End(b)
  {
  }

  lemma {:induction false} FlattenConnected(runs: seq<seq<Cubic>>)
    requires runs != [] && ConnectedRuns(runs)
    requires forall k :: 0 < k < |runs| ==> End(runs[Before(k, |runs|)]) == Start(runs[k])
    ensures var c := Flatten(runs);
      c != [] && Connected(c) && Start(c) == Start(runs[0]) && End(c) == End(runs[|runs| - 1])
    decreases |runs|
  {
    if |runs| == 1 {
      assert runs[0] + [] == runs[0];
    } else {
      var rest := runs[1..];
      forall k | 0 < k < |rest|
        ensures End(rest[Before(k, |rest|)]) == Start(rest[k])
      {
        assert End(runs[Before(k + 1, |runs|)]) == Start(runs[k + 1]);
      }
      FlattenConnected(rest);
      assert End(runs[Before(1, |runs|)]) == Start(runs[1]);
      ConnectedJoin(runs[0], Flatten(rest));
    }
  }

  lemma FlattenClosed(runs: seq<seq<Cubic>>)
    requires ClosedRuns(runs)
    ensures ClosedChain(Flatten(runs))
  {
    FlattenConnected(runs);
    assert End(runs[Before(0, |runs|)]) == Start(runs[0]);
  }

  // ----- one fillet -----

  function Direction(length: Point -> real, v: Point): Point {
    if length(v) == 0.0 then Point(0.0, 0.0) else Unit(length, v)
  }

  function CutEnd(run: seq<Cubic>, t: real): (r: seq<Cubic>)
    requires run != []
    ensures |r| == |run|
  {
    run[|run| - 1 := Split(run[|run| - 1], t).0]
  }

  function CutStart(run: seq<Cubic>, t: real): (r: seq<Cubic>)
    requires run != []
    ensures |r| == |run|
  {
    run[0 := Split(run[0], t).1]
  }

  lemma CutsKeepConnected(run: seq<Cubic>, t: real)
    requires run != [] && Connected(run)
    ensures Connected(CutEnd(run, t)) && Start(CutEnd(run, t)) == Start(run)
    ensures Connected(CutStart(run, t)) && End(CutStart(run, t)) == End(run)
  {
  }

  function Fillet(length: Point -> real, c: Cubic, d: Cubic, h: real): Cubic {
    var a, b := Direction(length, Minus(c.p3, c.p2)), Direction(length, Minus(d.p1, d.p0));
    Cubic(c.p3, Plus(c.p3, Times(a, h)), Minus(d.p0, Times(b, h)), d.p0)
  }

  /** Trims the two cubics at corner `k` and appends the fillet to the run before it. */
  function Filleted(length: Point -> real, runs: seq<seq<Cubic>>, k: nat, ti: real, to: real,
                    h: real): (r: seq<seq<Cubic>>)
    requires k < |runs| && ConnectedRuns(runs)
    ensures |r| == |runs|
  {
    var p := Before(k, |runs|);
    var cut := runs[p := CutEnd(runs[p], ti)];
    var both := cut[k := CutStart(cut[k], to)];
    var inc, out := both[p], both[k];
    both[p := inc + [Fillet(length, inc[|inc| - 1], out[0], h)]]
  }

  /** A fillet leaves the outline closed. */
  lemma FilletKeepsClosed(length: Point -> real, runs: seq<seq<Cubic>>, k: nat, ti: real, to: real, h: real)
    requires k < |runs| && ClosedRuns(runs)
    ensures ClosedRuns(Filleted(length, runs, k, ti, to, h))
  {
    var n := |runs|;
    var p := Before(k, n);
    var cut := runs[p := CutEnd(runs[p], ti)];
    CutsKeepConnected(runs[p], ti);
    var both := cut[k := CutStart(cut[k], to)];
    CutsKeepConnected(cut[k], to);
    var inc, out := both[p], both[k];
    var f := Fillet(length, inc[|inc| - 1], out[0], h);
    ConnectedJoin(inc, [f]);
    var r := Filleted(length, runs, k, ti, to, h);
    assert r == both[p := inc + [f]];
    assert End(r[p]) == f.p3 == Start(out) == Start(r[k]);
    forall j | 0 <= j < n
      ensures End(r[Before(j, n)]) == Start(r[j])
    {
      assert End(runs[Before(j, n)]) == Start(runs[j]);
    }
  }

  lemma DirectionScales(length: Point -> real, v: Point, h: real, k: real)
    requires IsLength(length) && length(v) != 0.0 && k == h / length(v)
    ensures Times(Direction(length, v), h) == Times(v, k)
  {
    var l := length(v);
    assert v.x / l * h == v.x * (h / l);
    assert v.y / l * h == v.y * (h / l);
  }

  /** The fillet leaves along the trimmed curve before it and arrives along the one after it. */
  lemma FilletIsSmooth(length: Point -> real, c: Cubic, d: Cubic, h: real) returns (j: real, k: real)
    requires IsLength(length) && c.p2 != c.p3 && d.p0 != d.p1 && h > 0.0
    ensures var f := Fillet(length, c, d, h);
      && f.p0 == c.p3 && f.p3 == d.p0
      && j > 0.0 && Velocity(f, 0.0) == Times(Velocity(c, 1.0), j)
      && k > 0.0 && Velocity(f, 1.0) == Times(Velocity(d, 0.0), k)
      && Inner(Minus(f.p1, f.p0), Minus(f.p1, f.p0)) == h * h && Inner(Minus(f.p3, f.p2), Minus(f.p3, f.p2)) == h * h
  {
    var f := Fillet(length, c, d, h);
    var v, w := Minus(c.p3, c.p2), Minus(d.p1, d.p0);
    LengthPositive(length, v);
    LengthPositive(length, w);
    j, k := h / length(v), h / length(w);
    DirectionScales(length, v, h, j);
    DirectionScales(length, w, h, k);
    EndVelocities(c);
    EndVelocities(d);
    EndVelocities(f);
    TimesCommutes(v, j);
    TimesCommutes(w, k);
    assert Minus(f.p1, f.p0) == Times(v, j);
    assert Minus(f.p3, f.p2) == Times(w, k);
    HandleLength(length, v, h, f.p0, f.p1);
    HandleLength(length, w, h, f.p2, f.p3);
  }

  /** A handle along a direction is as long as asked for. */
  lemma HandleLength(length: Point -> real, v: Point, h: real, from: Point, to: Point)
    requires IsLength(length) && length(v) != 0.0 && Minus(to, from) == Times(Direction(length, v), h)
    ensures Inner(Minus(to, from), Minus(to, from)) == h * h
  {
    UnitHasLengthOne(length, v);
    var u := Unit(length, v);
    ScaledLength(u.x, u.y, h);
  }

  lemma ScaledLength(x: real, y: real, h: real)
    requires x * x + y * y == 1.0
    ensures x * h * (x * h) + y * h * (y * h) == h * h
  {
    var q := h * h;
    assert x * h * (x * h) == x * x * q && y * h * (y * h) == y * y * q;
    assert x * x * q + y * y * q == (x * x + y * y) * q;
  }

  lemma TimesCommutes(v: Point, j: real)
    ensures Times(Times(v, j), 3.0) == Times(Times(v, 3.0), j)
  {
  }

  // ----- where to trim -----

  predicate Outside(length: Point -> real, b: Cubic, corner: Point, dist: real, t: real) {
    length(Minus(At(b, t), corner)) > dist
  }

  function Power2(k: nat): (r: real)
    ensures r >= 1.0
  {
    if k == 0 then 1.0 else 2.0 * Power2(k - 1)
  }

  /** The interval [0, 1] halved `k` times. */
  predicate Halved(lo: real, hi: real, k: nat) {
    (hi - lo) * Power2(k) == 1.0
  }

  /** The bracket around a crossing: outside towards one end, inside towards the corner. */
  predicate Brackets(length: Point -> real, b: Cubic, corner: Point, dist: real, fromEnd: bool, lo: real, hi: real) {
    && 0.0 <= lo <= hi <= 1.0
    && (lo == 0.0 || Outside(length, b, corner, dist, lo) == fromEnd)
    && (hi == 1.0 || Outside(length, b, corner, dist, hi) != fromEnd)
  }

  /** The two ends lie on different sides of the distance, as `fromEnd` expects. */
  predicate Straddles(length: Point -> real, b: Cubic, corner: Point, dist: real, fromEnd: bool, lo: real, hi: real) {
    Outside(length, b, corner, dist, lo) == fromEnd && Outside(length, b, corner, dist, hi) != fromEnd
  }

  predicate BracketedBy(length: Point -> real, b: Cubic, corner: Point, dist: real, fromEnd: bool, rounds: nat,
                        t: real, lo: real, hi: real) {
    && Brackets(length, b, corner, dist, fromEnd, lo, hi) && lo <= t <= hi && Halved(lo, hi, rounds)
    && (Straddles(length, b, corner, dist, fromEnd, 0.0, 1.0) ==>
         Straddles(length, b, corner, dist, fromEnd, lo, hi))
  }

  /**
   * `t` lies in a bracket as wide as [0, 1] halved `rounds` times. When the whole curve goes from one
   * side of the distance to the other, so does its part over the bracket.
   */
  ghost predicate NearCrossing(length: Point -> real, b: Cubic, corner: Point, dist: real, fromEnd: bool,
                               rounds: nat, t: real) {
    exists lo, hi :: BracketedBy(length, b, corner, dist, fromEnd, rounds, t, lo, hi)
  }

  const HALVINGS: nat := 60

  /** Repeated halving of [0, 1] around a place where the curve crosses the given distance. */
  method TAtDist(length: Point -> real, b: Cubic, corner: Point, dist: real, fromEnd: bool, rounds: nat)
    returns (t: real)
    ensures NearCrossing(length, b, corner, dist, fromEnd, rounds, t)
  {
    var low, high := 0.0, 1.0;
    for k := 0 to rounds
      invariant Brackets(length, b, corner, dist, fromEnd, low, high)
      invariant Straddles(length, b, corner, dist, fromEnd, 0.0, 1.0) ==>
        Straddles(length, b, corner, dist, fromEnd, low, high)
      invariant Halved(low, high, k)
    {
      var mid := (low + high) / 2.0;
      var outside := length(Minus(At(b, mid), corner)) > dist;
      Halving(low, high, mid, k);
      if fromEnd {
        if outside {
          low := mid;
        } else {
          high := mid;
        }
      } else {
        if outside {
          high := mid;
        } else {
          low := mid;
        }
      }
    }
    t := (low + high) / 2.0;
    assert BracketedBy(length, b, corner, dist, fromEnd, rounds, t, low, high);
  }

  lemma Halving(lo: real, hi: real, mid: real, k: nat)
    requires mid == (lo + hi) / 2.0 && Halved(lo, hi, k)
    ensures Halved(mid, hi, k + 1) && Halved(lo, mid, k + 1)
  {
    var p := Power2(k);
    assert (hi - mid) * (2.0 * p) == (hi - lo) * p;
    assert (mid - lo) * (2.0 * p) == (hi - lo) * p;
  }

  // ----- all fillets -----

  function CountNonZero(trims: seq<real>, m: nat): nat
    requires m <= |trims|
  {
    if m == 0 then 0 else CountNonZero(trims, m - 1) + if trims[m - 1] != 0.0 then 1 else 0
  }

  function Total(runs: seq<seq<Cubic>>): nat {
    if runs == [] then 0 else |runs[0]| + Total(runs[1..])
  }

  lemma {:induction false} TotalChange(runs: seq<seq<Cubic>>, p: nat, run: seq<Cubic>)
    requires p < |runs|
    ensures Total(runs[p := run]) == Total(runs) - |runs[p]| + |run|
    decreases p
  {
    if p == 0 {
      assert runs[0 := run][1..] == runs[1..];
    } else {
      assert runs[p := run][1..] == runs[1..][p - 1 := run];
      TotalChange(runs[1..], p - 1, run);
    }
  }

  lemma {:induction false} FlattenLength(runs: seq<seq<Cubic>>)
    ensures |Flatten(runs)| == Total(runs)
    decreases |runs|
  {
    if runs != [] {
      FlattenLength(runs[1..]);
    }
  }

  lemma FilletAddsOne(length: Point -> real, runs: seq<seq<Cubic>>, k: nat, ti: real, to: real, h: real)
    requires k < |runs| && ConnectedRuns(runs)
    ensures |Flatten(Filleted(length, runs, k, ti, to, h))| == |Flatten(runs)| + 1
  {
    var p := Before(k, |runs|);
    var cut := runs[p := CutEnd(runs[p], ti)];
    var both := cut[k := CutStart(cut[k], to)];
    var inc, out := both[p], both[k];
    TotalChange(runs, p, CutEnd(runs[p], ti));
    TotalChange(cut, k, CutStart(cut[k], to));
    TotalChange(both, p, inc + [Fillet(length, inc[|inc| - 1], out[0], h)]);
    FlattenLength(runs);
    FlattenLength(Filleted(length, runs, k, ti, to, h));
  }

  /**
   * Corner `k` is cut where the curves cross its distance: the curve before it at its last such place,
   * coming from its start, and the curve behind it at its first one.
   */
  ghost predicate CutWhereCrossed(length: Point -> real, runs: seq<seq<Cubic>>, k: nat, corner: Point, dist: real,
                                  ti: real, to: real)
    requires k < |runs| && ConnectedRuns(runs)
  {
    var p := Before(k, |runs|);
    var cut := runs[p := CutEnd(runs[p], ti)];
    && NearCrossing(length, runs[p][|runs[p]| - 1], corner, dist, true, HALVINGS, ti)
    && NearCrossing(length, cut[k][0], corner, dist, false, HALVINGS, to)
  }

  /** What happens at one corner: nothing without a trim, otherwise two cuts and a fillet between them. */
  ghost predicate CornerRounded(length: Point -> real, runs: seq<seq<Cubic>>, k: nat, corner: Point, dist: real,
                                h: real, next: seq<seq<Cubic>>) {
    && k < |runs| && ConnectedRuns(runs)
    && if dist == 0.0 then next == runs
       else exists ti, to :: CutWhereCrossed(length, runs, k, corner, dist, ti, to)
                             && next == Filleted(length, runs, k, ti, to, h)
  }

  /** The runs before the first corner and after each one. */
  ghost predicate Stages(length: Point -> real, fitted: seq<seq<Cubic>>, corners: seq<Point>, trims: seq<real>,
                         handles: seq<real>, stages: seq<seq<seq<Cubic>>>) {
    && stages != [] && stages[0] == fitted && |stages| <= |corners| + 1
    && |corners| == |trims| == |handles|
    && forall k :: 0 <= k < |stages| - 1 ==>
         CornerRounded(length, stages[k], k, corners[k], trims[k], handles[k], stages[k + 1])
  }

  /** The outline is the runs with each corner cut where it is crossed and rounded, one after the other. */
  ghost predicate RoundedOutline(length: Point -> real, fitted: seq<seq<Cubic>>, corners: seq<Point>,
                                 trims: seq<real>, handles: seq<real>, out: seq<Cubic>) {
    exists stages :: Stages(length, fitted, corners, trims, handles, stages)
                     && |stages| == |corners| + 1 && out == Flatten(stages[|corners|])
  }

  lemma StagesGrow(length: Point -> real, fitted: seq<seq<Cubic>>, corners: seq<Point>, trims: seq<real>,
                   handles: seq<real>, stages: seq<seq<seq<Cubic>>>, next: seq<seq<Cubic>>)
    requires Stages(length, fitted, corners, trims, handles, stages) && |stages| <= |corners|
    requires var k := |stages| - 1;
      CornerRounded(length, stages[k], k, corners[k], trims[k], handles[k], next)
    ensures Stages(length, fitted, corners, trims, handles, stages + [next])
  {
    var all := stages + [next];
    forall k | 0 <= k < |all| - 1
      ensures CornerRounded(length, all[k], k, corners[k], trims[k], handles[k], all[k + 1])
    {
      if k < |stages| - 1 {
        assert all[k] == stages[k] && all[k + 1] == stages[k + 1];
      }
    }
  }

  /** Rounds every corner with a non-zero trim, where it is crossed; the outline stays closed. */
  method InsertFillets(length: Point -> real, fitted: seq<seq<Cubic>>, corners: seq<Point>, trims: seq<real>,
                       handles: seq<real>)
    returns (out: seq<Cubic>)
    requires |fitted| == |corners| == |trims| == |handles| && ClosedRuns(fitted)
    ensures ClosedChain(out)
    ensures |out| == |Flatten(fitted)| + CountNonZero(trims, |trims|)
    ensures CountNonZero(trims, |trims|) == 0 ==> out == Flatten(fitted)
    ensures RoundedOutline(length, fitted, corners, trims, handles, out)
  {
    var runs := fitted;
    ghost var stages := [fitted];
    for k := 0 to |corners|
      invariant |stages| == k + 1 && stages[k] == runs
      invariant Stages(length, fitted, corners, trims, handles, stages)
      invariant RoundedSoFar(fitted, trims, runs, k)
    {
      if trims[k] == 0.0 {
        StagesGrow(length, fitted, corners, trims, handles, stages, runs);
        stages := stages + [runs];
        continue;
      }
      var next := RoundCorner(length, runs, k, corners[k], trims[k], handles[k]);
      StagesGrow(length, fitted, corners, trims, handles, stages, next);
      runs, stages := next, stages + [next];
    }
    FlattenClosed(runs);
    out := Flatten(runs);
  }

  /** The runs stay closed, with one more cubic for each corner rounded. */
  ghost predicate RoundedSoFar(fitted: seq<seq<Cubic>>, trims: seq<real>, runs: seq<seq<Cubic>>, k: nat)
    requires k <= |trims|
  {
    && |runs| == |fitted| && ClosedRuns(runs)
    && |Flatten(runs)| == |Flatten(fitted)| + CountNonZero(trims, k)
    && (CountNonZero(trims, k) == 0 ==> runs == fitted)
  }

  /** One corner: the cut of the curve before it, the cut of the curve behind it, and the fillet. */
  method RoundCorner(length: Point -> real, runs: seq<seq<Cubic>>, k: nat, corner: Point, dist: real, h: real)
    returns (next: seq<seq<Cubic>>)
    requires k < |runs| && ClosedRuns(runs) && dist != 0.0
    ensures CornerRounded(length, runs, k, corner, dist, h, next)
    ensures |next| == |runs| && ClosedRuns(next) && |Flatten(next)| == |Flatten(runs)| + 1
  {
    var p := Before(k, |runs|);
    var ti := TAtDist(length, runs[p][|runs[p]| - 1], corner, dist, true, HALVINGS);
    var cut := runs[p := CutEnd(runs[p], ti)];
    var to := TAtDist(length, cut[k][0], corner, dist, false, HALVINGS);
    assert CutWhereCrossed(length, runs, k, corner, dist, ti, to);
    FilletKeepsClosed(length, runs, k, ti, to, h);
    FilletAddsOne(length, runs, k, ti, to, h);
    next := Filleted(length, runs, k, ti, to, h);
  }

  // ----- fitting and rounding the whole outline -----

  lemma FitsConnected(length: Point -> real, points: seq<Point>, t1: Point, t2: Point, err: real, chain: seq<Cubic>)
    requires points != [] && Fitted(length, points, t1, t2, err, chain)
    ensures chain != [] && Connected(chain) && Start(chain) == points[0] && End(chain) == points[|points| - 1]
  {
    var breaks :| Fits(length, points, t1, t2, err, chain, breaks);
    forall i | 0 <= i < |chain| - 1
      ensures chain[i].p3 == chain[i + 1].p0
    {
      assert Joined(chain[i], chain[i + 1]);
    }
    assert Covers(length, chain[0], points, breaks[0], breaks[1], err);
    var n := |chain| - 1;
    assert Covers(length, chain[n], points, breaks[n], breaks[n + 1], err);
  }

  /** The sampled runs go from corner to corner and can be fitted. */
  predicate FromCornerToCorner(samples: seq<seq<Point>>, corners: seq<Point>) {
    && |samples| == |corners|
    && forall k :: 0 <= k < |samples| ==>
         && |samples[k]| >= 2 && Directed(samples[k]) && samples[k][0] == corners[k]
         && samples[Before(k, |samples|)] != []
         && samples[Before(k, |samples|)][|samples[Before(k, |samples|)]| - 1] == corners[k]
  }

  method FitRun(length: Point -> real, sample: seq<Point>, tangents: (Point, Point), err: real)
    returns (chain: seq<Cubic>)
    requires IsLength(length) && err > 0.0 && |sample| >= 2 && Directed(sample)
    ensures chain != [] && Connected(chain) && Start(chain) == sample[0] && End(chain) == sample[|sample| - 1]
    ensures Fitted(length, sample, tangents.0, tangents.1, err, chain)
  {
    chain := FitOpen(length, sample, err, Some(tangents.0), Some(tangents.1), LOOK_AHEAD);
    FitsConnected(length, sample, tangents.0, tangents.1, err, chain);
  }

  predicate Spans(runs: seq<seq<Cubic>>, samples: seq<seq<Point>>) {
    && |runs| <= |samples| && ConnectedRuns(runs)
    && forall k :: 0 <= k < |runs| ==>
         samples[k] != [] && Start(runs[k]) == samples[k][0] && End(runs[k]) == samples[k][|samples[k]| - 1]
  }

  lemma SpansExtends(runs: seq<seq<Cubic>>, samples: seq<seq<Point>>, chain: seq<Cubic>)
    requires Spans(runs, samples) && |runs| < |samples| && samples[|runs|] != []
    requires chain != [] && Connected(chain)
    requires var s := samples[|runs|]; Start(chain) == s[0] && End(chain) == s[|s| - 1]
    ensures Spans(runs + [chain], samples)
  {
  }

  lemma SpansClosed(runs: seq<seq<Cubic>>, samples: seq<seq<Point>>, corners: seq<Point>)
    requires Spans(runs, samples) && |runs| == |samples| && FromCornerToCorner(samples, corners) && runs != []
    ensures ClosedRuns(runs)
  {
    forall k | 0 <= k < |runs|
      ensures End(runs[Before(k, |runs|)]) == Start(runs[k])
    {
      assert samples[k][0] == corners[k];
    }
  }

  /** Each run is a chain fitted to its samples, with its own two end tangents. */
  ghost predicate AllFitted(length: Point -> real, samples: seq<seq<Point>>, tangents: seq<(Point, Point)>, err: real,
                            runs: seq<seq<Cubic>>) {
    && |runs| <= |samples| && |runs| <= |tangents|
    && forall k :: 0 <= k < |runs| ==> Fitted(length, samples[k], tangents[k].0, tangents[k].1, err, runs[k])
  }

  /** The outline is made of chains fitted to the sampled runs, with the corners between them rounded. */
  ghost predicate Polished(length: Point -> real, samples: seq<seq<Point>>, tangents: seq<(Point, Point)>,
                           corners: seq<Point>, trims: seq<real>, handles: seq<real>, err: real, out: seq<Cubic>) {
    exists runs :: |runs| == |samples| && AllFitted(length, samples, tangents, err, runs)
                   && RoundedOutline(length, runs, corners, trims, handles, out)
  }

  /** The last part of `polish2`: fit each run, then round the corners. The result is one closed outline. */
  method Polish(length: Point -> real, samples: seq<seq<Point>>, tangents: seq<(Point, Point)>, corners: seq<Point>,
                trims: seq<real>, handles: seq<real>, err: real)
    returns (out: seq<Cubic>)
    requires IsLength(length) && err > 0.0 && corners != []
    requires FromCornerToCorner(samples, corners)
    requires |corners| == |tangents| == |trims| == |handles|
    ensures ClosedChain(out)
    ensures |out| >= |corners| + CountNonZero(trims, |trims|)
    ensures Polished(length, samples, tangents, corners, trims, handles, err, out)
  {
    var fitted := FitRuns(length, samples, tangents, corners, err);
    RunsAreLong(fitted);
    out := InsertFillets(length, fitted, corners, trims, handles);
    PolishedFrom(length, samples, tangents, corners, trims, handles, err, fitted, out);
  }

  lemma PolishedFrom(length: Point -> real, samples: seq<seq<Point>>, tangents: seq<(Point, Point)>,
                     corners: seq<Point>, trims: seq<real>, handles: seq<real>, err: real, runs: seq<seq<Cubic>>,
                     out: seq<Cubic>)
    requires |runs| == |samples| && AllFitted(length, samples, tangents, err, runs)
    requires RoundedOutline(length, runs, corners, trims, handles, out)
    ensures Polished(length, samples, tangents, corners, trims, handles, err, out)
  {
  }

  lemma AllFittedGrows(length: Point -> real, samples: seq<seq<Point>>, tangents: seq<(Point, Point)>, err: real,
                       runs: seq<seq<Cubic>>, chain: seq<Cubic>)
    requires AllFitted(length, samples, tangents, err, runs) && |runs| < |samples| && |runs| < |tangents|
    requires var k := |runs|; Fitted(length, samples[k], tangents[k].0, tangents[k].1, err, chain)
    ensures AllFitted(length, samples, tangents, err, runs + [chain])
  {
  }

  method FitRuns(length: Point -> real, samples: seq<seq<Point>>, tangents: seq<(Point, Point)>, corners: seq<Point>,
                 err: real)
    returns (fitted: seq<seq<Cubic>>)
    requires IsLength(length) && err > 0.0 && corners != []
    requires FromCornerToCorner(samples, corners) && |corners| == |tangents|
    ensures |fitted| == |samples| && ClosedRuns(fitted) && AllFitted(length, samples, tangents, err, fitted)
  {
    fitted := [];
    for k := 0 to |samples|
      invariant |fitted| == k && RunsSoFar(length, samples, tangents, err, fitted)
    {
      CanFit(samples, corners, k);
      fitted := FitNext(length, samples, tangents, err, fitted);
    }
    SpansClosed(fitted, samples, corners);
  }

  method FitNext(length: Point -> real, samples: seq<seq<Point>>, tangents: seq<(Point, Point)>, err: real,
                 fitted: seq<seq<Cubic>>)
    returns (more: seq<seq<Cubic>>)
    requires IsLength(length) && err > 0.0 && RunsSoFar(length, samples, tangents, err, fitted)
    requires |fitted| < |samples| == |tangents| && |samples[|fitted|]| >= 2 && Directed(samples[|fitted|])
    ensures |more| == |fitted| + 1 && RunsSoFar(length, samples, tangents, err, more)
  {
    var k := |fitted|;
    var chain := FitRun(length, samples[k], tangents[k], err);
    RunsGrow(length, samples, tangents, err, fitted, chain);
    more := fitted + [chain];
  }

  lemma CanFit(samples: seq<seq<Point>>, corners: seq<Point>, k: nat)
    requires FromCornerToCorner(samples, corners) && k < |samples|
    ensures |samples[k]| >= 2 && Directed(samples[k])
  {
  }

  ghost predicate RunsSoFar(length: Point -> real, samples: seq<seq<Point>>, tangents: seq<(Point, Point)>, err: real,
                            runs: seq<seq<Cubic>>) {
    Spans(runs, samples) && AllFitted(length, samples, tangents, err, runs)
  }

  lemma RunsGrow(length: Point -> real, samples: seq<seq<Point>>, tangents: seq<(Point, Point)>, err: real,
                 runs: seq<seq<Cubic>>, chain: seq<Cubic>)
    requires RunsSoFar(length, samples, tangents, err, runs) && |runs| < |samples| && |runs| < |tangents|
    requires chain != [] && Connected(chain) && samples[|runs|] != []
    requires var s := samples[|runs|]; Start(chain) == s[0] && End(chain) == s[|s| - 1]
    requires var k := |runs|; Fitted(length, samples[k], tangents[k].0, tangents[k].1, err, chain)
    ensures RunsSoFar(length, samples, tangents, err, runs + [chain])
  {
    SpansExtends(runs, samples, chain);
    AllFittedGrows(length, samples, tangents, err, runs, chain);
  }

  const LOOK_AHEAD: nat := 6

  lemma {:induction false} RunsAreLong(runs: seq<seq<Cubic>>)
    requires ConnectedRuns(runs)
    ensures |Flatten(runs)| >= |runs|
    decreases |runs|
  {
    if runs != [] {
      RunsAreLong(runs[1..]);
    }
  }
}
