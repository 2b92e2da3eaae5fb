/** The Theil-Sen slope of resident-memory samples and its sustained-window form. */
module TheilSen {
  import opened Text
  import opened Statistics

  datatype Sample = Sample(elapsed: real, rss: real)

  function HourlySlope(start: Sample, end: Sample): real
    requires end.elapsed != start.elapsed
  {
    ((end.rss - start.rss) / (end.elapsed - start.elapsed)) * 3600.0
  }

  /** Slopes from one sample to each later one taken at another time. */
  function SlopesFrom(start: Sample, rest: seq<Sample>): seq<real> {
    if rest == [] then []
    else if rest[0].elapsed == start.elapsed then SlopesFrom(start, rest[1..])
    else [HourlySlope(start, rest[0])] + SlopesFrom(start, rest[1..])
  }

  function Slopes(samples: seq<Sample>): seq<real> {
    if samples == [] then [] else SlopesFrom(samples[0], samples[1..]) + Slopes(samples[1..])
  }

  lemma {:induction false} SlopesFromAppends(start: Sample, rest: seq<Sample>, next: Sample)
    ensures SlopesFrom(start, rest + [next]) == SlopesFrom(start, rest) + SlopesFrom(start, [next])
  {
    if rest == [] {
      assert rest + [next] == [next];
    } else {
      assert (rest + [next])[1..] == rest[1..] + [next];
      SlopesFromAppends(start, rest[1..], next);
    }
  }

  /** The median of all pairwise slopes, in bytes per hour. */
  method TheilSenBytesPerHour(samples: seq<Sample>) returns (result: Option<real>)
    ensures result == if |samples| < 2 then None else Median(Slopes(samples))
  {
    if |samples| < 2 {
      return None;
    }
    var slopes := AllSlopes(samples);
    result := Median(slopes);
  }

  /** The outer loop. */
  method AllSlopes(samples: seq<Sample>) returns (slopes: seq<real>)
    requires |samples| >= 2
    ensures slopes == Slopes(samples)
  {
    slopes := [];
    assert samples[0..] == samples;
    for left := 0 to |samples| - 1
      invariant slopes + Slopes(samples[left..]) == Slopes(samples)
    {
      assert samples[left..][1..] == samples[left + 1..];
      var more := CollectSlopes(samples, left);
      assert Slopes(samples[left..]) == more + Slopes(samples[left + 1..]);
      assert slopes + (more + Slopes(samples[left + 1..])) == slopes + more + Slopes(samples[left + 1..]);
      slopes := slopes + more;
    }
    var last := samples[|samples| - 1..];
    assert last[1..] == [] && Slopes(last) == [] && slopes + [] == slopes;
  }

  /** The inner loop: slopes from one sample to every later one. */
  method CollectSlopes(samples: seq<Sample>, left: nat) returns (slopes: seq<real>)
    requires left < |samples|
    ensures slopes == SlopesFrom(samples[left], samples[left + 1..])
  {
    var start := samples[left];
    slopes := [];
    for right := left + 1 to |samples|
      invariant slopes == SlopesFrom(start, samples[left + 1..right])
    {
      var end := samples[right];
      assert samples[left + 1..right + 1] == samples[left + 1..right] + [end];
      SlopesFromAppends(start, samples[left + 1..right], end);
      assert [end][1..] == [];
      if end.elapsed != start.elapsed {
        slopes := slopes + [HourlySlope(start, end)];
      }
    }
    assert samples[left + 1..|samples|] == samples[left + 1..];
  }

  /** The value `TheilSenBytesPerHour` returns. */
  function Slope(samples: seq<Sample>): Option<real> {
    if |samples| < 2 then None else Median(Slopes(samples))
  }

  // ----- breakdown: outliers cannot move the slope -----

  predicate OnLine(s: Sample, slope: real, offset: real) {
    s.rss == slope * s.elapsed + offset
  }

  function OnLineCount(samples: seq<Sample>, slope: real, offset: real): nat {
    if samples == [] then 0
    else (if OnLine(samples[0], slope, offset) then 1 else 0) + OnLineCount(samples[1..], slope, offset)
  }

  /** Samples on the line were taken at distinct times; the others are unrestricted. */
  ghost predicate DistinctOnLine(samples: seq<Sample>, slope: real, offset: real) {
    forall i, j :: 0 <= i < j < |samples| && OnLine(samples[i], slope, offset) && OnLine(samples[j], slope, offset)
      ==> samples[i].elapsed != samples[j].elapsed
  }

  lemma LineSlope(a: Sample, b: Sample, slope: real, offset: real)
    requires OnLine(a, slope, offset) && OnLine(b, slope, offset) && a.elapsed != b.elapsed
    ensures HourlySlope(a, b) == slope * 3600.0
  {
    var dt := b.elapsed - a.elapsed;
    assert b.rss - a.rss == slope * dt;
    assert (slope * dt) / dt == slope;
  }

  /** A sample on the line sees the line's slope once for each later sample on it. */
  lemma {:induction false} LineSlopesFrom(start: Sample, rest: seq<Sample>, slope: real, offset: real)
    requires OnLine(start, slope, offset)
    requires forall i :: 0 <= i < |rest| && OnLine(rest[i], slope, offset) ==> rest[i].elapsed != start.elapsed
    ensures multiset(SlopesFrom(start, rest))[slope * 3600.0] >= OnLineCount(rest, slope, offset)
  {
    if rest != [] {
      LineSlopesFrom(start, rest[1..], slope, offset);
      if OnLine(rest[0], slope, offset) {
        LineSlope(start, rest[0], slope, offset);
      }
    }
  }

  /** The number of pairs among `k` things. */
  function Pairs(k: nat): nat {
    if k == 0 then 0 else k - 1 + Pairs(k - 1)
  }

  lemma {:induction false} TwicePairs(k: nat)
    ensures 2 * Pairs(k) == k * (k - 1)
  {
    if k > 0 {
      TwicePairs(k - 1);
      assert (k - 1) * (k - 2) + 2 * (k - 1) == k * (k - 1);
    }
  }

  lemma DistinctTail(samples: seq<Sample>, slope: real, offset: real)
    requires samples != [] && DistinctOnLine(samples, slope, offset)
    ensures DistinctOnLine(samples[1..], slope, offset)
    ensures OnLine(samples[0], slope, offset) ==>
      forall i :: 0 <= i < |samples[1..]| && OnLine(samples[1..][i], slope, offset)
        ==> samples[1..][i].elapsed != samples[0].elapsed
  {
    assert forall i :: 0 <= i < |samples[1..]| ==> samples[1..][i] == samples[i + 1];
  }

  lemma {:induction false} LineSlopes(samples: seq<Sample>, slope: real, offset: real)
    requires DistinctOnLine(samples, slope, offset)
    ensures multiset(Slopes(samples))[slope * 3600.0] >= Pairs(OnLineCount(samples, slope, offset))
  {
    if samples != [] {
      var rest := samples[1..];
      DistinctTail(samples, slope, offset);
      LineSlopes(rest, slope, offset);
      if OnLine(samples[0], slope, offset) {
        LineSlopesFrom(samples[0], rest, slope, offset);
      }
    }
  }

  lemma {:induction false} SlopesFromLength(start: Sample, rest: seq<Sample>)
    ensures |SlopesFrom(start, rest)| <= |rest|
  {
    if rest != [] {
      SlopesFromLength(start, rest[1..]);
    }
  }

  lemma {:induction false} SlopesLength(samples: seq<Sample>)
    ensures |Slopes(samples)| <= Pairs(|samples|)
  {
    if samples != [] {
      SlopesLength(samples[1..]);
      SlopesFromLength(samples[0], samples[1..]);
    }
  }

  /**
   * Breakdown bound: when `m` of `n` samples lie on one line and 2m(m-1) > n(n-1), the slope is that
   * line's, wherever the remaining samples lie.
   */
  lemma Breakdown(samples: seq<Sample>, slope: real, offset: real)
    requires DistinctOnLine(samples, slope, offset)
    requires var m := OnLineCount(samples, slope, offset); 2 * (m * (m - 1)) > |samples| * (|samples| - 1)
    ensures Slope(samples) == Some(slope * 3600.0)
  {
    var m, n := OnLineCount(samples, slope, offset), |samples|;
    LineSlopes(samples, slope, offset);
    SlopesLength(samples);
    TwicePairs(m);
    TwicePairs(n);
    OnLineAtMost(samples, slope, offset);
    MajorityIsMedian(Slopes(samples), slope * 3600.0);
  }

  lemma {:induction false} OnLineAtMost(samples: seq<Sample>, slope: real, offset: real)
    ensures OnLineCount(samples, slope, offset) <= |samples|
  {
    if samples != [] {
      OnLineAtMost(samples[1..], slope, offset);
    }
  }

  // ----- and the bound is sharp -----

  /** `m` of the `n` samples lie on the line, at distinct times. */
  ghost predicate Contaminated(samples: seq<Sample>, m: nat, n: nat, slope: real, offset: real) {
    |samples| == n && OnLineCount(samples, slope, offset) == m && DistinctOnLine(samples, slope, offset)
  }

  /** Later samples are higher, except that several may lie on the zero line. */
  ghost predicate Climbing(samples: seq<Sample>) {
    forall i, j :: 0 <= i < j < |samples| ==>
      && samples[i].elapsed < samples[j].elapsed
      && 0.0 <= samples[i].rss <= samples[j].rss
      && (samples[j].rss > 0.0 ==> samples[i].rss < samples[j].rss)
  }

  lemma ClimbingTail(samples: seq<Sample>)
    requires samples != [] && Climbing(samples)
    ensures Climbing(samples[1..])
  {
    assert forall i :: 0 <= i < |samples[1..]| ==> samples[1..][i] == samples[i + 1];
  }

  lemma ClimbingSlope(a: Sample, b: Sample)
    requires a.elapsed < b.elapsed && 0.0 <= a.rss <= b.rss && (b.rss > 0.0 ==> a.rss < b.rss)
    ensures HourlySlope(a, b) >= 0.0
    ensures HourlySlope(a, b) == 0.0 <==> b.rss == 0.0
  {
    var x, y := b.rss - a.rss, b.elapsed - a.elapsed;
    var q := x / y;
    assert q * y == x;
    assert b.rss > 0.0 ==> q > 0.0;
  }

  ghost predicate NoneNegative(values: seq<real>) {
    forall i :: 0 <= i < |values| ==> values[i] >= 0.0
  }

  lemma {:induction false} ClimbingSlopesFrom(start: Sample, rest: seq<Sample>)
    requires Climbing([start] + rest)
    ensures var v := SlopesFrom(start, rest);
      |v| == |rest| && NoneNegative(v) && multiset(v)[0.0] == OnLineCount(rest, 0.0, 0.0)
  {
    if rest != [] {
      var all := [start] + rest;
      assert all[0] == start && all[1] == rest[0];
      assert Climbing([start] + rest[1..]) by {
        var fewer := [start] + rest[1..];
        assert forall i :: 0 < i < |fewer| ==> fewer[i] == all[i + 1];
      }
      ClimbingSlopesFrom(start, rest[1..]);
      ClimbingSlope(start, rest[0]);
    }
  }

  lemma {:induction false} ClimbingSlopes(samples: seq<Sample>)
    requires Climbing(samples)
    ensures var v := Slopes(samples);
      && |v| == Pairs(|samples|) && NoneNegative(v)
      && multiset(v)[0.0] == Pairs(OnLineCount(samples, 0.0, 0.0))
  {
    if samples != [] {
      var rest := samples[1..];
      assert samples == [samples[0]] + rest;
      ClimbingTail(samples);
      ClimbingSlopesFrom(samples[0], rest);
      ClimbingSlopes(rest);
      if samples[0].rss != 0.0 {
        OffLineStays(samples);
      }
    }
  }

  lemma {:induction false} OffLineStays(samples: seq<Sample>)
    requires forall i :: 0 <= i < |samples| ==> samples[i].rss != 0.0
    ensures OnLineCount(samples, 0.0, 0.0) == 0
  {
    if samples != [] {
      OffLineStays(samples[1..]);
    }
  }

  /** The first `m` of `n` samples on the zero line, the others ever higher above it. */
  function Ramp(m: nat, n: nat): (samples: seq<Sample>)
    ensures |samples| == n
  {
    seq(n, i => Sample(i as real, if i < m then 0.0 else (i - m + 1) as real))
  }

  lemma {:induction false} FirstOnLine(samples: seq<Sample>, m: nat)
    requires m <= |samples|
    requires forall i :: 0 <= i < |samples| ==> (samples[i].rss == 0.0 <==> i < m)
    ensures OnLineCount(samples, 0.0, 0.0) == m
  {
    if samples != [] {
      FirstOnLine(samples[1..], if m == 0 then 0 else m - 1);
    }
  }

  lemma RampContaminated(m: nat, n: nat)
    requires m <= n
    ensures Contaminated(Ramp(m, n), m, n, 0.0, 0.0) && Climbing(Ramp(m, n))
  {
    FirstOnLine(Ramp(m, n), m);
  }

  /** Up to that bound there are outliers that move the slope off the line's. */
  lemma BreakdownIsSharp(m: nat, n: nat)
    requires m <= n && 2 * (m * (m - 1)) <= n * (n - 1)
    ensures Contaminated(Ramp(m, n), m, n, 0.0, 0.0) && Slope(Ramp(m, n)) != Some(0.0)
  {
    RampContaminated(m, n);
    if n >= 2 {
      ClimbingSlopes(Ramp(m, n));
      TwicePairs(m);
      TwicePairs(n);
      HalfZeroMedian(Slopes(Ramp(m, n)));
    }
  }

  /** The slope is the line's, wherever the outliers lie, exactly when 2m(m-1) > n(n-1). */
  lemma RobustIff(m: nat, n: nat)
    requires m <= n
    ensures (forall samples, slope, offset :: Contaminated(samples, m, n, slope, offset) ==>
              Slope(samples) == Some(slope * 3600.0))
      <==> 2 * (m * (m - 1)) > n * (n - 1)
  {
    if 2 * (m * (m - 1)) > n * (n - 1) {
      forall samples, slope, offset | Contaminated(samples, m, n, slope, offset)
        ensures Slope(samples) == Some(slope * 3600.0)
      {
        Breakdown(samples, slope, offset);
      }
    } else {
      BreakdownIsSharp(m, n);
      assert 0.0 * 3600.0 == 0.0;
    }
  }

  // ----- the sustained window never looks into the warm-up -----

  function From(samples: seq<Sample>, start: real): seq<Sample> {
    if samples == [] then []
    else if samples[0].elapsed >= start then [samples[0]] + From(samples[1..], start)
    else From(samples[1..], start)
  }

  /** The samples of the last window, once it lies behind the warm-up. */
  function Window(samples: seq<Sample>, warmup: real, window: real): Option<seq<Sample>> {
    if samples == [] then None
    else
      var latest := samples[|samples| - 1].elapsed;
      if latest < warmup + window then None else Some(From(samples, latest - window))
  }

  function SustainedSlope(samples: seq<Sample>, warmup: real, window: real): Option<real> {
    match Window(samples, warmup, window)
    case None => None
    case Some(recent) => Slope(recent)
  }

  ghost predicate TimeOrdered(samples: seq<Sample>) {
    forall i, j :: 0 <= i < j < |samples| ==> samples[i].elapsed <= samples[j].elapsed
  }

  lemma {:induction false} FromTwice(samples: seq<Sample>, early: real, late: real)
    requires early <= late
    ensures From(From(samples, early), late) == From(samples, late)
  {
    if samples != [] {
      FromTwice(samples[1..], early, late);
    }
  }

  lemma {:induction false} FromKeepsLast(samples: seq<Sample>, start: real)
    requires samples != [] && samples[|samples| - 1].elapsed >= start
    ensures var kept := From(samples, start); kept != [] && kept[|kept| - 1] == samples[|samples| - 1]
  {
    if |samples| > 1 {
      FromKeepsLast(samples[1..], start);
    }
  }

  lemma {:induction false} FromKeepsNone(samples: seq<Sample>, start: real)
    requires forall i :: 0 <= i < |samples| ==> samples[i].elapsed < start
    ensures From(samples, start) == []
  {
    if samples != [] {
      FromKeepsNone(samples[1..], start);
    }
  }

  lemma {:induction false} FromKeepsAll(samples: seq<Sample>, start: real)
    requires forall i :: 0 <= i < |samples| ==> samples[i].elapsed >= start
    ensures From(samples, start) == samples
  {
    if samples != [] {
      FromKeepsAll(samples[1..], start);
      assert samples == [samples[0]] + samples[1..];
    }
  }

  lemma {:induction false} FromIsSuffix(samples: seq<Sample>, start: real) returns (k: nat)
    requires TimeOrdered(samples)
    ensures k <= |samples| && From(samples, start) == samples[k..]
    ensures forall i :: 0 <= i < |samples| ==> (samples[i].elapsed >= start <==> i >= k)
  {
    if samples == [] {
      k := 0;
    } else if samples[0].elapsed >= start {
      k := 0;
      FromKeepsAll(samples, start);
      assert samples[0..] == samples;
    } else {
      var j := FromIsSuffix(samples[1..], start);
      k := j + 1;
      assert samples[1..][j..] == samples[k..];
      assert forall i :: 1 <= i < |samples| ==> samples[i] == samples[1..][i - 1];
    }
  }

  /**
   * The sustained slope is the slope of exactly the samples of the last `window` seconds, and there is
   * one to speak of only once those lie behind the warm-up.
   */
  lemma SustainedUsesWindow(samples: seq<Sample>, warmup: real, window: real) returns (k: nat)
    requires TimeOrdered(samples)
    ensures k <= |samples|
    ensures samples == [] || samples[|samples| - 1].elapsed - window < warmup ==>
      SustainedSlope(samples, warmup, window) == None
    ensures samples != [] && samples[|samples| - 1].elapsed - window >= warmup ==>
      && SustainedSlope(samples, warmup, window) == Slope(samples[k..])
      && forall i :: 0 <= i < |samples| ==>
           (samples[i].elapsed >= samples[|samples| - 1].elapsed - window <==> i >= k)
  {
    k := 0;
    if samples != [] {
      k := FromIsSuffix(samples, samples[|samples| - 1].elapsed - window);
    }
  }

  lemma WindowUnchanged(samples: seq<Sample>, warmup: real, window: real)
    requires TimeOrdered(samples) && window >= 0.0
    ensures Window(samples, warmup, window) == Window(From(samples, warmup), warmup, window)
  {
    if samples != [] {
      var latest := samples[|samples| - 1].elapsed;
      if latest < warmup {
        FromKeepsNone(samples, warmup);
      } else {
        FromKeepsLast(samples, warmup);
        if latest >= warmup + window {
          FromTwice(samples, warmup, latest - window);
        }
      }
    }
  }

  /** Dropping every sample taken before warm-up ended leaves the verdict unchanged. */
  lemma WarmupIrrelevant(samples: seq<Sample>, warmup: real, window: real)
    requires TimeOrdered(samples) && window >= 0.0
    ensures SustainedSlope(samples, warmup, window) == SustainedSlope(From(samples, warmup), warmup, window)
  {
    WindowUnchanged(samples, warmup, window);
  }
}
