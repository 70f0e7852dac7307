/** The grid resampler shared by the ionogram and MS2 scripts: numpy's
    arange for the evenly spaced axis, and scipy's interp1d (kind='linear')
    for piecewise-linear interpolation with either a zero fill or linear
    extrapolation outside the sampled range. Coordinates are exact reals. */
module Resample {
  import opened Common

  function Ceil(x: real): (r: int)
    ensures x <= r as real < x + 1.0
  {
    -((-x).Floor)
  }

  /** Number of points of np.arange(start, stop, step): ceil((stop - start) / step),
      or none when stop is not above start. */
  function ArangeCount(start: real, stop: real, step: real): (n: nat)
    requires 0.0 < step
  {
    if stop <= start then 0 else Ceil((stop - start) / step)
  }

  lemma ArangeCountBounds(start: real, stop: real, step: real)
    requires 0.0 < step
    ensures stop <= start + ArangeCount(start, stop, step) as real * step
    ensures 0 < ArangeCount(start, stop, step) ==>
      start + (ArangeCount(start, stop, step) - 1) as real * step < stop
  {
    var n := ArangeCount(start, stop, step);
    if start < stop {
      var c := (stop - start) / step;
      DivTimes(stop - start, step);
      StepsCoverSpan(stop - start, step, c, n as real);
      FewerStepsMissSpan(stop - start, step, c, (n - 1) as real);
    } else {
      assert n == 0;
      assert n as real * step == 0.0;
    }
  }

  /** At least c steps of size step reach the span c * step. */
  lemma StepsCoverSpan(span: real, step: real, c: real, count: real)
    requires 0.0 < step && c * step == span && c <= count
    ensures span <= count * step
  {
    MulMonotone(c, count, step);
  }

  /** Fewer than c steps of size step stay short of the span c * step. */
  lemma FewerStepsMissSpan(span: real, step: real, c: real, fewer: real)
    requires 0.0 < step && c * step == span && fewer < c
    ensures fewer * step < span
  {
    MulStrictlyMonotone(fewer, c, step);
  }

  lemma MulMonotone(a: real, b: real, step: real)
    requires a <= b && 0.0 < step
    ensures a * step <= b * step
  {
    assert 0.0 <= (b - a) * step;
  }

  lemma MulStrictlyMonotone(a: real, b: real, step: real)
    requires a < b && 0.0 < step
    ensures a * step < b * step
  {
    assert 0.0 < (b - a) * step;
  }

  /** A point of the range below its last point is below stop too. */
  lemma BelowLastPoint(start: real, stop: real, step: real, k: nat, n: nat)
    requires 0.0 < step && k < n && start + (n - 1) as real * step < stop
    ensures start + k as real * step < stop
  {
    MulMonotone(k as real, (n - 1) as real, step);
  }

  /** np.arange(start, stop, step) for a positive step: the points
      start + k * step, k = 0, 1, ..., that lie below stop, and no others. */
  function Arange(start: real, stop: real, step: real): (r: seq<real>)
    requires 0.0 < step
    ensures forall k :: 0 <= k < |r| ==> r[k] == start + k as real * step && r[k] < stop
    ensures stop <= start + |r| as real * step
  {
    ArangeCountBounds(start, stop, step);
    var n := ArangeCount(start, stop, step);
    var r := seq(n, k requires 0 <= k < n => start + k as real * step);
    assert forall k :: 0 <= k < |r| ==> r[k] < stop by {
      forall k | 0 <= k < |r|
        ensures r[k] < stop
      {
        BelowLastPoint(start, stop, step, k, n);
      }
    }
    r
  }

  /** When step divides the distance to `last` exactly (q steps), the range
      up to last + step holds q + 1 points and ends exactly on last. */
  lemma ArangeInclusiveEnd(start: real, step: real, q: nat)
    requires 0.0 < step
    ensures var r := Arange(start, start + q as real * step + step, step);
      |r| == q + 1 && r[q] == start + q as real * step
  {
    var stop := start + q as real * step + step;
    var r := Arange(start, stop, step);
    MulSucc(q as real, step);
    MulDiv((q + 1) as real, step);
    assert (stop - start) / step == (q + 1) as real;
    assert |r| == q + 1;
  }

  lemma MulSucc(a: real, step: real)
    ensures (a + 1.0) * step == a * step + step
  {
  }

  lemma MulDiv(a: real, step: real)
    requires step != 0.0
    ensures a * step / step == a
  {
  }

  /** Points start + a * step and start + b * step of a range keep the order of a and b. */
  lemma PointsIncrease(start: real, step: real, a: real, b: real, pa: real, pb: real)
    requires 0.0 < step && a < b && pa == start + a * step && pb == start + b * step
    ensures pa < pb
  {
    MulStrictlyMonotone(a, b, step);
  }

  predicate StrictlyIncreasing(xs: seq<real>)
  {
    forall i, j :: 0 <= i < j < |xs| ==> xs[i] < xs[j]
  }

  lemma ArangeIncreasing(start: real, stop: real, step: real)
    requires 0.0 < step
    ensures StrictlyIncreasing(Arange(start, stop, step))
  {
    var r := Arange(start, stop, step);
    forall i, j | 0 <= i < j < |r|
      ensures r[i] < r[j]
    {
      PointsIncrease(start, step, i as real, j as real, r[i], r[j]);
    }
  }

  /** The ionogram script's grid (start, stop, step): the axis is
      np.arange(start, stop + step, step), so that stop is included when
      the step divides the range. */
  datatype Grid = Grid(start: real, stop: real, step: real)

  function GridAxis(g: Grid): (axis: seq<real>)
    requires 0.0 < g.step
    ensures forall k :: 0 <= k < |axis| ==> axis[k] == g.start + k as real * g.step
    ensures forall k :: 0 <= k < |axis| ==> axis[k] < g.stop + g.step
    ensures g.stop + g.step <= g.start + |axis| as real * g.step
  {
    Arange(g.start, g.stop + g.step, g.step)
  }

  /** The grid is built as arange(start, stop + step, step), so when step
      does not divide the span its last point lies beyond stop: (0, 1, 0.3)
      gives 0, 0.3, 0.6, 0.9 and 1.2. */
  lemma GridAxisOvershoot()
    ensures |GridAxis(Grid(0.0, 1.0, 0.3))| == 5
    ensures GridAxis(Grid(0.0, 1.0, 0.3))[4] == 1.2 > 1.0
  {
    assert ArangeCount(0.0, 1.3, 0.3) == 5 by {
      assert (1.3 - 0.0) / 0.3 == 13.0 / 3.0;
      assert Ceil(13.0 / 3.0) == 5;
    }
  }

  /** np.searchsorted(xs, t, side='left') for a sorted xs: the first index
      whose coordinate is not below t. */
  function SearchLeft(xs: seq<real>, t: real): (r: nat)
    ensures r <= |xs|
    ensures forall k :: 0 <= k < r ==> xs[k] < t
    ensures r < |xs| ==> t <= xs[r]
  {
    if |xs| == 0 || t <= xs[0] then 0 else 1 + SearchLeft(xs[1..], t)
  }

  lemma SearchLeftAtSample(xs: seq<real>, k: nat)
    requires StrictlyIncreasing(xs) && k < |xs|
    ensures SearchLeft(xs, xs[k]) == k
  {
    var r := SearchLeft(xs, xs[k]);
    assert forall j :: 0 <= j < k ==> xs[j] < xs[k];
  }

  /** What interp1d does with coordinates outside the sampled range. */
  datatype OutOfRange = ZeroFill | Extrapolate

  /** An interp1d object: the samples it was built from and its policy. */
  datatype Interpolant = Interpolant(xs: seq<real>, ys: seq<real>, policy: OutOfRange)
  {
    ghost predicate Valid()
    {
      |xs| == |ys| && 2 <= |xs| && StrictlyIncreasing(xs)
    }
  }

  /** interp1d(xs, ys, kind='linear', ...): fails on columns of different
      length and on fewer than two samples, as scipy does; coordinates that
      are not strictly increasing are refused as a degenerate series. */
  function MakeInterpolant(xs: seq<real>, ys: seq<real>, policy: OutOfRange): (r: Result<Interpolant>)
    ensures r.Ok? <==> |xs| == |ys| && 2 <= |xs| && StrictlyIncreasing(xs)
    ensures r.Ok? ==> r.value.Valid() && r.value == Interpolant(xs, ys, policy)
    ensures |xs| != |ys| ==> r == Err(LengthMismatch)
    ensures |xs| == |ys| < 2 ==> r == Err(TooFewPoints)
    ensures |xs| == |ys| && 2 <= |xs| && !StrictlyIncreasing(xs) ==> r == Err(UnsortedCoordinates)
  {
    if |xs| != |ys| then Err(LengthMismatch)
    else if |xs| < 2 then Err(TooFewPoints)
    else if !StrictlyIncreasing(xs) then Err(UnsortedCoordinates)
    else Ok(Interpolant(xs, ys, policy))
  }

  /** The segment interp1d uses for t: searchsorted clipped to [1, n - 1];
      the segment runs from sample Segment - 1 to sample Segment. */
  function Segment(f: Interpolant, t: real): (s: nat)
    requires f.Valid()
    ensures 1 <= s < |f.xs|
  {
    var i := SearchLeft(f.xs, t);
    if i < 1 then 1 else if |f.xs| - 1 < i then |f.xs| - 1 else i
  }

  /** The straight line through (x0, y0) and (x1, y1), evaluated at t, as
      slope * (t - x0) + y0. */
  function Line(x0: real, y0: real, x1: real, y1: real, t: real): real
    requires x0 < x1
  {
    (y1 - y0) / (x1 - x0) * (t - x0) + y0
  }

  lemma LineEnds(x0: real, y0: real, x1: real, y1: real)
    requires x0 < x1
    ensures Line(x0, y0, x1, y1, x0) == y0
    ensures Line(x0, y0, x1, y1, x1) == y1
  {
  }

  /** The line between two samples of equal value is flat. */
  lemma LineFlat(x0: real, x1: real, y: real, t: real)
    requires x0 < x1
    ensures Line(x0, y, x1, y, t) == y
  {
    assert (y - y) / (x1 - x0) == 0.0;
  }

  lemma LineBetween(x0: real, y0: real, x1: real, y1: real, t: real)
    requires x0 < x1 && x0 <= t <= x1
    ensures y0 <= y1 ==> y0 <= Line(x0, y0, x1, y1, t) <= y1
    ensures y1 <= y0 ==> y1 <= Line(x0, y0, x1, y1, t) <= y0
  {
    var slope := (y1 - y0) / (x1 - x0);
    DivTimes(y1 - y0, x1 - x0);
    if y0 <= y1 {
      DivNonNegative(y1 - y0, x1 - x0);
      ScaleBetween(slope, t - x0, x1 - x0);
    } else {
      DivNonPositive(y1 - y0, x1 - x0);
      ScaleBetweenNegative(slope, t - x0, x1 - x0);
    }
  }

  /** A non-negative factor keeps 0 <= a <= b in order. */
  lemma ScaleBetween(c: real, a: real, b: real)
    requires 0.0 <= c && 0.0 <= a <= b
    ensures 0.0 <= c * a <= c * b
  {
    assert 0.0 <= c * (b - a);
  }

  /** A non-positive factor reverses 0 <= a <= b. */
  lemma ScaleBetweenNegative(c: real, a: real, b: real)
    requires c <= 0.0 && 0.0 <= a <= b
    ensures c * b <= c * a <= 0.0
  {
    assert 0.0 <= -c * (b - a);
    assert 0.0 <= -c * a;
  }

  lemma DivNonPositive(a: real, m: real)
    requires a <= 0.0 && 0.0 < m
    ensures a / m <= 0.0
  {
  }

  predicate InDomain(f: Interpolant, t: real)
    requires f.Valid()
  {
    f.xs[0] <= t <= f.xs[|f.xs| - 1]
  }

  /** The interpolant's value at t. */
  function Eval(f: Interpolant, t: real): real
    requires f.Valid()
  {
    if f.policy == ZeroFill && !InDomain(f, t) then 0.0
    else
      var s := Segment(f, t);
      Line(f.xs[s - 1], f.ys[s - 1], f.xs[s], f.ys[s], t)
  }

  /** Inside the sampled range the segment chosen brackets t. */
  lemma SegmentBrackets(f: Interpolant, t: real)
    requires f.Valid() && InDomain(f, t)
    ensures f.xs[Segment(f, t) - 1] <= t <= f.xs[Segment(f, t)]
  {
    var n := |f.xs|;
    var i := SearchLeft(f.xs, t);
    if i == 0 {
      assert f.xs[0] == t;
      assert f.xs[0] < f.xs[1];
    }
  }

  /** Outside the sampled range extrapolation continues the edge segments. */
  lemma SegmentOutside(f: Interpolant, t: real)
    requires f.Valid()
    ensures t < f.xs[0] ==> Segment(f, t) == 1
    ensures f.xs[|f.xs| - 1] < t ==> Segment(f, t) == |f.xs| - 1
  {
    var n := |f.xs|;
    var i := SearchLeft(f.xs, t);
    assert i < n ==> f.xs[i] <= f.xs[n - 1];
  }

  /** Interpolating at one of the sample coordinates gives back its sample. */
  lemma EvalAtSample(f: Interpolant, k: nat)
    requires f.Valid() && k < |f.xs|
    ensures Eval(f, f.xs[k]) == f.ys[k]
  {
    var n := |f.xs|;
    SearchLeftAtSample(f.xs, k);
    assert f.xs[0] <= f.xs[k] <= f.xs[n - 1];
    if k == 0 {
      LineEnds(f.xs[0], f.ys[0], f.xs[1], f.ys[1]);
    } else {
      LineEnds(f.xs[k - 1], f.ys[k - 1], f.xs[k], f.ys[k]);
    }
  }

  /** The zero fill: exactly 0 outside [min coordinate, max coordinate]. */
  lemma EvalZeroOutside(f: Interpolant, t: real)
    requires f.Valid() && f.policy == ZeroFill && !InDomain(f, t)
    ensures Eval(f, t) == 0.0
  {
  }

  /** Inside the sampled range the value lies between the two bracketing
      samples, whatever the out-of-range policy. */
  lemma EvalBetweenNeighbours(f: Interpolant, t: real)
    requires f.Valid() && InDomain(f, t)
    ensures var s := Segment(f, t);
      && f.xs[s - 1] <= t <= f.xs[s]
      && (f.ys[s - 1] <= f.ys[s] ==> f.ys[s - 1] <= Eval(f, t) <= f.ys[s])
      && (f.ys[s] <= f.ys[s - 1] ==> f.ys[s] <= Eval(f, t) <= f.ys[s - 1])
  {
    var s := Segment(f, t);
    SegmentBrackets(f, t);
    LineBetween(f.xs[s - 1], f.ys[s - 1], f.xs[s], f.ys[s], t);
  }

  /** Extrapolation and zero fill agree inside the sampled range. */
  lemma PoliciesAgreeInside(xs: seq<real>, ys: seq<real>, t: real)
    requires Interpolant(xs, ys, ZeroFill).Valid()
    requires xs[0] <= t <= xs[|xs| - 1]
    ensures Eval(Interpolant(xs, ys, ZeroFill), t) == Eval(Interpolant(xs, ys, Extrapolate), t)
  {
  }

  /** f(new_axis): the interpolant evaluated at every point of the axis. */
  function ResampleOnto(f: Interpolant, axis: seq<real>): (r: seq<real>)
    requires f.Valid()
    ensures |r| == |axis|
  {
    seq(|axis|, i requires 0 <= i < |axis| => Eval(f, axis[i]))
  }

  /** A column of zeros resamples to zeros, whatever the policy. */
  lemma ResampleZero(f: Interpolant, axis: seq<real>)
    requires f.Valid() && AllZero(f.ys)
    ensures AllZero(ResampleOnto(f, axis))
  {
    var r := ResampleOnto(f, axis);
    forall i | 0 <= i < |axis|
      ensures r[i] == 0.0
    {
      if !(f.policy == ZeroFill && !InDomain(f, axis[i])) {
        var s := Segment(f, axis[i]);
        assert f.ys[s - 1] == 0.0 && f.ys[s] == 0.0;
        assert r[i] == Line(f.xs[s - 1], 0.0, f.xs[s], 0.0, axis[i]);
        LineFlat(f.xs[s - 1], f.xs[s], 0.0, axis[i]);
      }
    }
  }

  /** Zero-filled resampling of non-negative samples is non-negative. */
  lemma ResampleNonNegative(f: Interpolant, axis: seq<real>)
    requires f.Valid() && f.policy == ZeroFill && NonNegative(f.ys)
    ensures NonNegative(ResampleOnto(f, axis))
  {
    var r := ResampleOnto(f, axis);
    forall i | 0 <= i < |axis|
      ensures 0.0 <= r[i]
    {
      if InDomain(f, axis[i]) {
        EvalBetweenNeighbours(f, axis[i]);
      }
    }
  }
}
