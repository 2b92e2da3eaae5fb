/** Medians and interpolated quantiles, over exact reals. */
module Statistics {
  import opened Reals
  import opened Text

  // ----- sorting numbers -----

  ghost predicate Ascending(s: seq<real>) {
    forall i, j :: 0 <= i < j < |s| ==> s[i] <= s[j]
  }

  function Insert(x: real, s: seq<real>): (r: seq<real>)
    ensures multiset(r) == multiset(s) + multiset{x}
  {
    if s == [] || x <= s[0] then [x] + s
    else
      assert s == [s[0]] + s[1..];
      [s[0]] + Insert(x, s[1..])
  }

  lemma InsertHolds(x: real, s: seq<real>, i: nat)
    requires i < |Insert(x, s)|
    ensures Insert(x, s)[i] == x || Insert(x, s)[i] in s
  {
    assert Insert(x, s)[i] in multiset(Insert(x, s));
  }

  lemma {:induction false} InsertAscending(x: real, s: seq<real>)
    requires Ascending(s)
    ensures Ascending(Insert(x, s))
  {
    if s != [] && x > s[0] {
      InsertAscending(x, s[1..]);
      var rest := Insert(x, s[1..]);
      forall i | 0 <= i < |rest|
        ensures s[0] <= rest[i]
      {
        InsertHolds(x, s[1..], i);
      }
    }
  }

  /** `[...values].sort((left, right) => left - right)`. */
  function Sort(values: seq<real>): (r: seq<real>)
    ensures multiset(r) == multiset(values) && Ascending(r) && |r| == |values|
  {
    if values == [] then []
    else
      assert values == [values[0]] + values[1..];
      InsertAscending(values[0], Sort(values[1..]));
      var r := Insert(values[0], Sort(values[1..]));
      assert |multiset(r)| == |r| && |multiset(values)| == |values|;
      r
  }

  lemma TailMultiset(s: seq<real>)
    requires s != []
    ensures multiset(s[1..]) == multiset(s) - multiset{s[0]}
  {
    assert s == [s[0]] + s[1..];
  }

  lemma HeadsAgree(a: seq<real>, b: seq<real>)
    requires Ascending(a) && Ascending(b) && multiset(a) == multiset(b) && a != []
    ensures b != [] && a[0] == b[0]
  {
    assert a[0] in multiset(b);
    assert b[0] in multiset(a);
  }

  lemma {:induction false} SortedUnique(a: seq<real>, b: seq<real>)
    requires Ascending(a) && Ascending(b) && multiset(a) == multiset(b)
    ensures a == b
  {
    if a == [] {
      assert |multiset(b)| == |b|;
    } else {
      HeadsAgree(a, b);
      TailMultiset(a);
      TailMultiset(b);
      SortedUnique(a[1..], b[1..]);
      assert a == [a[0]] + a[1..] && b == [b[0]] + b[1..];
    }
  }

  // ----- median -----

  function Middle(sorted: seq<real>): real
    requires sorted != []
  {
    var middle := |sorted| / 2;
    if |sorted| % 2 == 1 then sorted[middle] else (sorted[middle - 1] + sorted[middle]) / 2.0
  }

  function Median(values: seq<real>): Option<real> {
    if |values| == 0 then None else Some(Middle(Sort(values)))
  }

  /** The median read off any ascending arrangement of the values. */
  lemma MedianOfArranged(values: seq<real>, s: seq<real>)
    requires values != [] && multiset(s) == multiset(values) && Ascending(s)
    ensures s != [] && |s| == |values| && Median(values) == Some(Middle(s))
  {
    assert |multiset(s)| == |s| && |multiset(values)| == |values|;
    SortedUnique(Sort(values), s);
  }

  /** A value absent from a stretch of the list occurs only outside it. */
  lemma AbsentFrom(s: seq<real>, v: real, lo: nat, hi: nat)
    requires lo <= hi <= |s| && forall i :: lo <= i < hi ==> s[i] != v
    ensures multiset(s)[v] <= |s| - (hi - lo)
  {
    assert s == s[..lo] + s[lo..hi] + s[hi..];
    assert v !in s[lo..hi];
    CountAtMost(s[..lo], v);
    CountAtMost(s[hi..], v);
  }

  lemma {:induction false} CountAtMost(s: seq<real>, v: real)
    ensures multiset(s)[v] <= |s|
  {
    if s != [] {
      CountAtMost(s[1..], v);
      assert s == [s[0]] + s[1..];
    }
  }

  lemma MajorityInMiddle(s: seq<real>, v: real, k: nat)
    requires Ascending(s) && 2 * multiset(s)[v] > |s| && k < |s| && |s| <= 2 * k + 2 && 2 * k <= |s|
    ensures s[k] == v
  {
    if s[k] < v {
      AbsentFrom(s, v, 0, k + 1);
    }
    if s[k] > v {
      AbsentFrom(s, v, k, |s|);
    }
  }

  lemma {:induction false} CountOfConstant(s: seq<real>, v: real)
    requires forall i :: 0 <= i < |s| ==> s[i] == v
    ensures multiset(s)[v] == |s|
  {
    if s != [] {
      CountOfConstant(s[1..], v);
      assert s == [s[0]] + s[1..];
    }
  }

  lemma ZerosUpTo(s: seq<real>, k: nat)
    requires Ascending(s) && k < |s| && s[0] >= 0.0 && s[k] == 0.0
    ensures multiset(s)[0.0] >= k + 1
  {
    CountOfConstant(s[..k + 1], 0.0);
    assert s == s[..k + 1] + s[k + 1..];
  }

  /** When no value is negative and at most half are zero, the median is not zero. */
  lemma HalfZeroMedian(values: seq<real>)
    requires values != [] && 2 * multiset(values)[0.0] <= |values|
    requires forall i :: 0 <= i < |values| ==> values[i] >= 0.0
    ensures Median(values).Some? && Median(values).value > 0.0
  {
    var s := Sort(values);
    var k := |s| / 2;
    forall i | 0 <= i < |s|
      ensures s[i] >= 0.0
    {
      assert s[i] in multiset(values);
    }
    if s[k] == 0.0 {
      ZerosUpTo(s, k);
      assert false;
    }
  }

  /** A value held by more than half of the list is its median. */
  lemma MajorityIsMedian(values: seq<real>, v: real)
    requires 2 * multiset(values)[v] > |values|
    ensures Median(values) == Some(v)
  {
    var s := Sort(values);
    CountAtMost(values, v);
    MajorityInMiddle(s, v, |s| / 2);
    if |s| % 2 == 0 {
      MajorityInMiddle(s, v, |s| / 2 - 1);
    }
  }

  // ----- interpolated quantiles -----

  function Ceil(x: real): int {
    if x == x.Floor as real then x.Floor else x.Floor + 1
  }

  /** Linear interpolation between the neighbours of a position in a list. */
  function Interpolate(s: seq<real>, position: real): real
    requires 0.0 <= position <= (|s| - 1) as real
  {
    var lower, upper := position.Floor, Ceil(position);
    s[lower] + (s[upper] - s[lower]) * (position - lower as real)
  }

  /** Where a fraction falls in a list of `n` values. */
  function Position(n: nat, fraction: real): (p: real)
    requires n > 0 && 0.0 <= fraction <= 1.0
    ensures 0.0 <= p <= (n - 1) as real
  {
    var m := (n - 1) as real;
    assert m * (1.0 - fraction) >= 0.0;
    m * fraction
  }

  function InterpolatedQuantile(values: seq<real>, fraction: real): Option<real> {
    if |values| == 0 || fraction < 0.0 || fraction > 1.0 then None
    else Some(Interpolate(Sort(values), Position(|values|, fraction)))
  }

  lemma InterpolateBetween(s: seq<real>, position: real)
    requires Ascending(s) && 0.0 <= position <= (|s| - 1) as real
    ensures s[position.Floor] <= Interpolate(s, position) <= s[Ceil(position)]
  {
    var lower, upper := position.Floor, Ceil(position);
    var gap, part := s[upper] - s[lower], position - lower as real;
    assert 0.0 <= part < 1.0;
    if lower < upper {
      assert gap >= 0.0;
      assert gap * part <= gap * 1.0 by {
        assert gap * (1.0 - part) >= 0.0;
      }
    }
  }

  lemma InterpolateMonotone(s: seq<real>, p: real, q: real)
    requires Ascending(s) && 0.0 <= p <= q <= (|s| - 1) as real
    ensures Interpolate(s, p) <= Interpolate(s, q)
  {
    InterpolateBetween(s, p);
    InterpolateBetween(s, q);
    if p.Floor == q.Floor {
      if p == p.Floor as real {
        assert Interpolate(s, p) == s[p.Floor] by {
          assert (s[Ceil(p)] - s[p.Floor]) * 0.0 == 0.0;
        }
      } else {
        assert Ceil(p) == Ceil(q);
        var gap := s[Ceil(p)] - s[p.Floor];
        assert gap >= 0.0;
        assert gap * (q - p) >= 0.0;
        assert gap * (q - p.Floor as real) == gap * (p - p.Floor as real) + gap * (q - p);
      }
    } else {
      assert Ceil(p) <= q.Floor;
    }
  }

  /** Reordering the values changes no quantile. */
  lemma QuantileIgnoresOrder(a: seq<real>, b: seq<real>, fraction: real)
    requires multiset(a) == multiset(b)
    ensures InterpolatedQuantile(a, fraction) == InterpolatedQuantile(b, fraction)
  {
    assert |multiset(a)| == |a| && |multiset(b)| == |b|;
    SortedUnique(Sort(a), Sort(b));
  }

  lemma PositionMonotone(n: nat, f: real, g: real)
    requires n > 0 && 0.0 <= f <= g <= 1.0
    ensures Position(n, f) <= Position(n, g)
  {
    assert (n - 1) as real * (g - f) >= 0.0;
  }

  /** Quantiles grow with the fraction. */
  lemma QuantileMonotone(values: seq<real>, f: real, g: real)
    requires values != [] && 0.0 <= f <= g <= 1.0
    ensures InterpolatedQuantile(values, f).value <= InterpolatedQuantile(values, g).value
  {
    PositionMonotone(|values|, f, g);
    InterpolateMonotone(Sort(values), Position(|values|, f), Position(|values|, g));
  }

  lemma InterpolateAtIndex(s: seq<real>, k: nat)
    requires k < |s|
    ensures Interpolate(s, k as real) == s[k]
  {
  }

  /** The end quantiles are the least and the greatest value, and every quantile lies between them. */
  lemma QuantileWithinRange(values: seq<real>, f: real)
    requires values != [] && 0.0 <= f <= 1.0
    ensures var least, greatest := InterpolatedQuantile(values, 0.0).value, InterpolatedQuantile(values, 1.0).value;
      && least in values && greatest in values
      && (forall x :: x in values ==> least <= x <= greatest)
      && least <= InterpolatedQuantile(values, f).value <= greatest
  {
    var s := Sort(values);
    assert Position(|values|, 0.0) == 0.0 && Position(|values|, 1.0) == (|values| - 1) as real;
    InterpolateAtIndex(s, 0);
    InterpolateAtIndex(s, |s| - 1);
    SortHolds(values);
    QuantileMonotone(values, 0.0, f);
    QuantileMonotone(values, f, 1.0);
  }

  lemma SortHolds(values: seq<real>)
    requires values != []
    ensures var s := Sort(values);
      s[0] in values && s[|s| - 1] in values && forall x :: x in values ==> s[0] <= x <= s[|s| - 1]
  {
    var s := Sort(values);
    SameMembers(s, values);
    forall x | x in values
      ensures s[0] <= x <= s[|s| - 1]
    {
      assert x in s;
    }
  }

  lemma SameMembers(s: seq<real>, t: seq<real>)
    requires multiset(s) == multiset(t)
    ensures forall x :: x in s <==> x in t
  {
    forall x
      ensures x in s <==> x in t
    {
      assert x in s <==> x in multiset(s);
      assert x in t <==> x in multiset(t);
    }
  }

  lemma PositionAt(n: nat, k: nat, w: real)
    requires k + 1 < n && 0.0 <= w <= 1.0
    ensures var f := (k as real + w) / (n - 1) as real; 0.0 <= f <= 1.0 && Position(n, f) == k as real + w
  {
    var m, x := (n - 1) as real, k as real + w;
    var f := x / m;
    assert f * m == x;
    assert 0.0 <= x <= m;
    SignOfProduct(f, m);
    SignOfProduct(1.0 - f, m);
    assert (1.0 - f) * m == m - x;
  }

  lemma InterpolateFrom(s: seq<real>, p: real, lower: nat, upper: nat, w: real, gap: real)
    requires 0.0 <= p <= (|s| - 1) as real && lower == p.Floor && upper == Ceil(p) && w == p - lower as real
    requires gap == s[upper] - s[lower]
    ensures Interpolate(s, p) == s[lower] + w * gap
  {
    SameFactor(p - lower as real, w, gap);
  }

  lemma InterpolateWithin(s: seq<real>, k: nat, w: real)
    requires k + 1 < |s| && 0.0 <= w <= 1.0
    ensures Interpolate(s, k as real + w) == s[k] + w * (s[k + 1] - s[k])
  {
    var p := k as real + w;
    if w == 1.0 {
      assert p.Floor == k + 1 && Ceil(p) == k + 1;
      InterpolateFrom(s, p, k + 1, k + 1, 0.0, 0.0);
    } else if w == 0.0 {
      assert p.Floor == k && Ceil(p) == k;
      InterpolateFrom(s, p, k, k, 0.0, 0.0);
    } else {
      assert p.Floor == k && Ceil(p) == k + 1;
      InterpolateFrom(s, p, k, k + 1, w, s[k + 1] - s[k]);
    }
  }

  /**
   * The quantile at the share that `k + w` is of the last index lies `w` of the way from the k-th to the
   * next value of any ascending arrangement; there is none of an empty list or outside [0, 1].
   */
  lemma QuantileInterpolates(values: seq<real>, s: seq<real>, k: nat, w: real)
    requires multiset(s) == multiset(values) && Ascending(s) && k + 1 < |s| && 0.0 <= w <= 1.0
    ensures InterpolatedQuantile(values, (k as real + w) / (|s| - 1) as real) == Some(s[k] + w * (s[k + 1] - s[k]))
  {
    assert |multiset(s)| == |s| && |multiset(values)| == |values|;
    SortedUnique(Sort(values), s);
    PositionAt(|s|, k, w);
    InterpolateWithin(s, k, w);
  }

  lemma NoQuantileIff(values: seq<real>, f: real)
    ensures InterpolatedQuantile(values, f) == None <==> values == [] || !(0.0 <= f <= 1.0)
  {
  }

  lemma HalfwayBetween(s: seq<real>, h: nat)
    requires 0 < h < |s|
    ensures Interpolate(s, h as real - 0.5) == (s[h - 1] + s[h]) / 2.0
  {
    var p := h as real - 0.5;
    assert p.Floor == h - 1 && Ceil(p) == h;
    assert p - (h - 1) as real == 0.5;
  }

  lemma MiddlePosition(n: nat)
    requires n > 0
    ensures Position(n, 0.5) == if n % 2 == 1 then (n / 2) as real else (n / 2) as real - 0.5
  {
    assert n == 2 * (n / 2) + n % 2;
  }

  lemma MiddleIsHalfway(s: seq<real>)
    requires s != []
    ensures Middle(s) == Interpolate(s, Position(|s|, 0.5))
  {
    MiddlePosition(|s|);
    if |s| % 2 == 1 {
      InterpolateAtIndex(s, |s| / 2);
    } else {
      HalfwayBetween(s, |s| / 2);
    }
  }

  lemma MedianIsMiddleQuantile(values: seq<real>)
    ensures Median(values) == InterpolatedQuantile(values, 0.5)
  {
    if values != [] {
      MiddleIsHalfway(Sort(values));
    }
  }
}
