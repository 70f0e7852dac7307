/** Extract_Smooth_and_Normalize_Ionograms: every .txt ionogram (COV against
    intensity) of a directory is interpolated onto one COV grid with a zero
    fill, smoothed a number of times with the normalised kernel [1, 2, 1]
    under zero padding, divided by its maximum, and written as one column of
    a table whose first column is the grid. */
module Ionograms {
  import opened Common
  import opened Resample

  /** The raw weights the script smooths with: the centre counts twice. */
  const Kernel: seq<real> := [1.0, 2.0, 1.0]

  /** The grid the script runs with. */
  const DefaultGrid: Grid := Grid(0.0, 20.0, 0.05)

  lemma KernelFacts()
    ensures |Kernel| == 3 && Sum(Kernel) == 4.0
  {
  }

  /** `np.array(weights) / np.sum(weights)`: each weight divided by the
      total, so that the effective weights sum to 1. */
  function NormalizeWeights(w: seq<real>): (r: seq<real>)
    requires Sum(w) != 0.0
    ensures |r| == |w|
    ensures forall i :: 0 <= i < |w| ==> r[i] == w[i] / Sum(w)
    ensures Sum(r) == 1.0
  {
    SumDivide(w, Sum(w));
    DivSelf(Sum(w));
    Divide(w, Sum(w))
  }

  /** A sample of x, with every position outside x read as 0
      (convolve1d's mode='constant', cval=0.0). */
  function At(x: seq<real>, i: int): real
  {
    if 0 <= i < |x| then x[i] else 0.0
  }

  /** The products summed for output i: weight m meets sample i + c - m,
      c being the kernel's centre, as convolve1d (not correlate1d) pairs them. */
  function Window(x: seq<real>, w: seq<real>, i: int): (r: seq<real>)
    ensures |r| == |w|
  {
    seq(|w|, m requires 0 <= m < |w| => w[m] * At(x, i + |w| / 2 - m))
  }

  /** convolve1d(x, w, mode='constant', cval=0.0). */
  function Convolve(x: seq<real>, w: seq<real>): (r: seq<real>)
    ensures |r| == |x|
  {
    seq(|x|, i requires 0 <= i < |x| => Sum(Window(x, w, i)))
  }

  /** weighted_adjacent_averaging(intensity, weights), for the odd-length
      kernels the script uses. */
  function WeightedAdjacentAveraging(x: seq<real>, w: seq<real>): (r: seq<real>)
    requires Sum(w) != 0.0 && |w| % 2 == 1
    ensures |r| == |x|
  {
    Convolve(x, NormalizeWeights(w))
  }

  /** Away from the ends, where the whole window lies inside the series,
      smoothing a constant series gives back the constant. */
  lemma SmoothConstantInterior(x: seq<real>, w: seq<real>, v: real, i: int)
    requires Sum(w) != 0.0 && |w| % 2 == 1
    requires forall j :: 0 <= j < |x| ==> x[j] == v
    requires |w| / 2 <= i < |x| - |w| / 2
    ensures WeightedAdjacentAveraging(x, w)[i] == v
  {
    var ew := NormalizeWeights(w);
    WindowOfConstant(x, ew, v, i);
  }

  /** Where the window lies inside a constant series, its products add up
      to the constant times the total weight. */
  lemma WindowOfConstant(x: seq<real>, w: seq<real>, v: real, i: int)
    requires |w| % 2 == 1
    requires forall j :: 0 <= j < |x| ==> x[j] == v
    requires |w| / 2 <= i < |x| - |w| / 2
    ensures Sum(Window(x, w, i)) == Sum(w) * v
  {
    var win := Window(x, w, i);
    forall m | 0 <= m < |w|
      ensures win[m] == w[m] * v
    {
      WindowEntryOfConstant(x, w, v, i, m);
    }
    SumScale(win, w, v);
  }

  lemma WindowEntryOfConstant(x: seq<real>, w: seq<real>, v: real, i: int, m: int)
    requires |w| % 2 == 1
    requires forall j :: 0 <= j < |x| ==> x[j] == v
    requires |w| / 2 <= i < |x| - |w| / 2
    requires 0 <= m < |w|
    ensures Window(x, w, i)[m] == w[m] * v
  {
    var j := i + |w| / 2 - m;
    assert Window(x, w, i)[m] == w[m] * At(x, j);
    assert 0 <= j < |x|;
  }

  /** With the script's kernel each output is a quarter of each neighbour
      plus half the sample itself; a neighbour beyond either end counts as 0. */
  lemma KernelSmoothing(x: seq<real>, i: int)
    requires 0 <= i < |x|
    ensures WeightedAdjacentAveraging(x, Kernel)[i]
      == 0.25 * At(x, i - 1) + 0.5 * x[i] + 0.25 * At(x, i + 1)
  {
    KernelFacts();
    var ew := NormalizeWeights(Kernel);
    assert ew[0] == 0.25 && ew[1] == 0.5 && ew[2] == 0.25;
    var win := Window(x, ew, i);
    assert win[0] == 0.25 * At(x, i + 1);
    assert win[1] == 0.5 * At(x, i);
    assert win[2] == 0.25 * At(x, i - 1);
    assert Sum(win[2..]) == win[2] by {
      assert win[2..][1..] == [];
    }
    assert win[1..][1..] == win[2..];
    assert Sum(win) == win[0] + (win[1] + win[2]);
  }

  /** Smoothing a series of zeros gives zeros. */
  lemma SmoothZero(x: seq<real>, w: seq<real>)
    requires Sum(w) != 0.0 && |w| % 2 == 1 && AllZero(x)
    ensures AllZero(WeightedAdjacentAveraging(x, w))
  {
    var ew := NormalizeWeights(w);
    forall i | 0 <= i < |x|
      ensures WeightedAdjacentAveraging(x, w)[i] == 0.0
    {
      WindowOfZeros(x, ew, i);
    }
  }

  /** Over a series of zeros every window sums to 0, whatever the weights. */
  lemma WindowOfZeros(x: seq<real>, w: seq<real>, i: int)
    requires AllZero(x)
    ensures Sum(Window(x, w, i)) == 0.0
  {
    var win := Window(x, w, i);
    forall m | 0 <= m < |w|
      ensures win[m] == w[m] * 0.0
    {
      assert At(x, i + |w| / 2 - m) == 0.0;
    }
    SumScale(win, w, 0.0);
  }

  /** Non-negative weights keep a non-negative series non-negative. */
  lemma SmoothNonNegative(x: seq<real>, w: seq<real>)
    requires 0.0 < Sum(w) && |w| % 2 == 1
    requires NonNegative(x) && NonNegative(w)
    ensures NonNegative(WeightedAdjacentAveraging(x, w))
  {
    var ew := NormalizeWeights(w);
    forall m | 0 <= m < |w|
      ensures 0.0 <= ew[m]
    {
      DivNonNegative(w[m], Sum(w));
    }
    var r := WeightedAdjacentAveraging(x, w);
    forall i | 0 <= i < |x|
      ensures 0.0 <= r[i]
    {
      WindowNonNegative(x, ew, i);
    }
  }

  /** A window of non-negative samples and weights has a non-negative sum. */
  lemma WindowNonNegative(x: seq<real>, w: seq<real>, i: int)
    requires NonNegative(x) && NonNegative(w)
    ensures 0.0 <= Sum(Window(x, w, i))
  {
    var win := Window(x, w, i);
    forall m | 0 <= m < |w|
      ensures 0.0 <= win[m]
    {
      MulNonNegative(w[m], At(x, i + |w| / 2 - m));
    }
    SumNonNegative(win);
  }

  /** The series after `rounds` passes of the smoother, each pass consuming
      the previous one's output. */
  function Rounds(x: seq<real>, w: seq<real>, rounds: nat): (r: seq<real>)
    requires Sum(w) != 0.0 && |w| % 2 == 1
    ensures |r| == |x|
  {
    if rounds == 0 then x else WeightedAdjacentAveraging(Rounds(x, w, rounds - 1), w)
  }

  lemma {:induction false} RoundsNonNegative(x: seq<real>, w: seq<real>, rounds: nat)
    requires 0.0 < Sum(w) && |w| % 2 == 1
    requires NonNegative(x) && NonNegative(w)
    ensures NonNegative(Rounds(x, w, rounds))
  {
    if rounds > 0 {
      RoundsNonNegative(x, w, rounds - 1);
      SmoothNonNegative(Rounds(x, w, rounds - 1), w);
    }
  }

  /** Any number of rounds keeps a series of zeros at zero. */
  lemma {:induction false} RoundsZero(x: seq<real>, w: seq<real>, rounds: nat)
    requires Sum(w) != 0.0 && |w| % 2 == 1 && AllZero(x)
    ensures AllZero(Rounds(x, w, rounds))
  {
    if rounds > 0 {
      RoundsZero(x, w, rounds - 1);
      SmoothZero(Rounds(x, w, rounds - 1), w);
    }
  }

  /** `new_intensity / np.max(new_intensity)`. */
  function NormalizeToMax(x: seq<real>): (r: seq<real>)
    requires |x| > 0 && Max(x) != 0.0
    ensures |r| == |x|
  {
    Divide(x, Max(x))
  }

  /** Multiplying the normalised series back by the maximum restores the series. */
  lemma NormalizeToMaxScalesBack(x: seq<real>)
    requires |x| > 0 && Max(x) != 0.0
    ensures Scale(NormalizeToMax(x), Max(x)) == x
  {
    ScaleUndoesDivide(x, Max(x));
  }

  /** Dividing by a positive maximum makes the maximum exactly 1 and puts
      every other sample at or below 1 (and at or above 0 when none is negative). */
  lemma NormalizeToMaxIsOne(x: seq<real>)
    requires |x| > 0 && 0.0 < Max(x)
    ensures Max(NormalizeToMax(x)) == 1.0
    ensures forall i :: 0 <= i < |x| ==> NormalizeToMax(x)[i] <= 1.0
    ensures NonNegative(x) ==> NonNegative(NormalizeToMax(x))
  {
    var m := Max(x);
    var r := NormalizeToMax(x);
    forall i | 0 <= i < |x|
      ensures r[i] <= 1.0
      ensures 0.0 <= x[i] ==> 0.0 <= r[i]
    {
      DivAtMostOne(x[i], m);
      if 0.0 <= x[i] {
        DivNonNegative(x[i], m);
      }
    }
    var k :| 0 <= k < |x| && x[k] == m;
    DivSelf(m);
    assert r[k] == 1.0;
  }

  /** A time series on its axis: the (axis, intensity) pair the functions return. */
  datatype Trace = Trace(axis: seq<real>, intensity: seq<real>)

  /** What interpolate_and_smooth computes for one file's columns: the zero-filled
      interpolant on the grid, smoothed `rounds` times, divided by its maximum.
      A failing interp1d, an empty grid and a zero maximum are errors. */
  function SmoothedIonogram(cov: seq<real>, intensity: seq<real>, grid: Grid, rounds: nat): (r: Result<Trace>)
    requires 0.0 < grid.step
    ensures r.Ok? ==> r.value.axis == GridAxis(grid) && |r.value.intensity| == |r.value.axis|
    ensures MakeInterpolant(cov, intensity, ZeroFill).Err? ==> r == Err(MakeInterpolant(cov, intensity, ZeroFill).error)
  {
    KernelFacts();
    match MakeInterpolant(cov, intensity, ZeroFill)
    case Err(e) => Err(e)
    case Ok(f) =>
      var axis := GridAxis(grid);
      var smoothed := Rounds(ResampleOnto(f, axis), Kernel, rounds);
      if |smoothed| == 0 then Err(EmptySeries)
      else if Max(smoothed) == 0.0 then Err(ZeroMaximum)
      else Ok(Trace(axis, NormalizeToMax(smoothed)))
  }

  /** Once interp1d accepts the columns, the ionogram fails exactly when the
      grid is empty (EmptySeries) or the smoothed series has maximum 0
      (ZeroMaximum); otherwise it is the smoothed series over its maximum. */
  lemma SmoothedIonogramOutcome(cov: seq<real>, intensity: seq<real>, grid: Grid, rounds: nat)
    requires 0.0 < grid.step && MakeInterpolant(cov, intensity, ZeroFill).Ok?
    ensures var r := SmoothedIonogram(cov, intensity, grid, rounds);
      var smoothed := Rounds(ResampleOnto(MakeInterpolant(cov, intensity, ZeroFill).value, GridAxis(grid)), Kernel, rounds);
      && (|GridAxis(grid)| == 0 <==> r == Err(EmptySeries))
      && (0 < |GridAxis(grid)| ==> (Max(smoothed) == 0.0 <==> r == Err(ZeroMaximum)))
      && (r.Ok? <==> 0 < |GridAxis(grid)| && Max(smoothed) != 0.0)
      && (r.Ok? ==> r.value.intensity == NormalizeToMax(smoothed))
  {
    KernelFacts();
    var f := MakeInterpolant(cov, intensity, ZeroFill).value;
    var axis := GridAxis(grid);
    var smoothed := Rounds(ResampleOnto(f, axis), Kernel, rounds);
    assert |smoothed| == |axis|;
    assert SmoothedIonogram(cov, intensity, grid, rounds) ==
      if |smoothed| == 0 then Err(EmptySeries)
      else if Max(smoothed) == 0.0 then Err(ZeroMaximum)
      else Ok(Trace(axis, NormalizeToMax(smoothed)));
  }

  /** A file whose intensities are all 0 fails with ZeroMaximum on any
      non-empty grid: smoothing keeps it at 0, so its maximum is 0. */
  lemma ZeroColumnFails(cov: seq<real>, intensity: seq<real>, grid: Grid, rounds: nat)
    requires 0.0 < grid.step && MakeInterpolant(cov, intensity, ZeroFill).Ok?
    requires 0 < |GridAxis(grid)| && AllZero(intensity)
    ensures SmoothedIonogram(cov, intensity, grid, rounds) == Err(ZeroMaximum)
  {
    KernelFacts();
    var f := MakeInterpolant(cov, intensity, ZeroFill).value;
    var resampled := ResampleOnto(f, GridAxis(grid));
    ResampleZero(f, GridAxis(grid));
    RoundsZero(resampled, Kernel, rounds);
    var smoothed := Rounds(resampled, Kernel, rounds);
    assert smoothed[0] == 0.0;
    assert Max(smoothed) == 0.0;
  }

  /** For a file whose intensities are non-negative, a successful ionogram
      lies in [0, 1] and reaches 1. */
  lemma SmoothedIonogramPeaksAtOne(cov: seq<real>, intensity: seq<real>, grid: Grid, rounds: nat)
    requires 0.0 < grid.step && NonNegative(intensity)
    requires SmoothedIonogram(cov, intensity, grid, rounds).Ok?
    ensures var t := SmoothedIonogram(cov, intensity, grid, rounds).value;
      && Max(t.intensity) == 1.0
      && forall i :: 0 <= i < |t.intensity| ==> 0.0 <= t.intensity[i] <= 1.0
  {
    KernelFacts();
    var f := MakeInterpolant(cov, intensity, ZeroFill).value;
    var axis := GridAxis(grid);
    var resampled := ResampleOnto(f, axis);
    ResampleNonNegative(f, axis);
    assert NonNegative(Kernel);
    RoundsNonNegative(resampled, Kernel, rounds);
    var smoothed := Rounds(resampled, Kernel, rounds);
    var k :| 0 <= k < |smoothed| && smoothed[k] == Max(smoothed);
    assert 0.0 < Max(smoothed);
    NormalizeToMaxIsOne(smoothed);
  }

  /** A worked case: samples (0, 0), (1, 10), (2, 0) on the grid 0, 1, 2 with
      no smoothing come back as 0, 1, 0. */
  lemma SmoothedIonogramExample()
    ensures SmoothedIonogram([0.0, 1.0, 2.0], [0.0, 10.0, 0.0], Grid(0.0, 2.0, 1.0), 0)
      == Ok(Trace([0.0, 1.0, 2.0], [0.0, 1.0, 0.0]))
  {
    var f := Interpolant([0.0, 1.0, 2.0], [0.0, 10.0, 0.0], ZeroFill);
    assert MakeInterpolant([0.0, 1.0, 2.0], [0.0, 10.0, 0.0], ZeroFill) == Ok(f);
    ExampleGrid();
    ExampleResampled();
    var smoothed := Rounds(ResampleOnto(f, [0.0, 1.0, 2.0]), Kernel, 0);
    assert smoothed == [0.0, 10.0, 0.0];
    ExampleNormalized();
  }

  lemma ExampleGrid()
    ensures GridAxis(Grid(0.0, 2.0, 1.0)) == [0.0, 1.0, 2.0]
  {
    ArangeInclusiveEnd(0.0, 1.0, 2);
  }

  lemma ExampleResampled()
    ensures ResampleOnto(Interpolant([0.0, 1.0, 2.0], [0.0, 10.0, 0.0], ZeroFill), [0.0, 1.0, 2.0])
      == [0.0, 10.0, 0.0]
  {
    var f := Interpolant([0.0, 1.0, 2.0], [0.0, 10.0, 0.0], ZeroFill);
    assert f.Valid();
    EvalAtSample(f, 0);
    EvalAtSample(f, 1);
    EvalAtSample(f, 2);
  }

  lemma ExampleNormalized()
    ensures Max([0.0, 10.0, 0.0]) == 10.0
    ensures NormalizeToMax([0.0, 10.0, 0.0]) == [0.0, 1.0, 0.0]
  {
    var x := [0.0, 10.0, 0.0];
    assert x[..2][..1] == [0.0];
    assert x[..2] == [0.0, 10.0];
  }

  /** interpolate_and_smooth: interpolate onto the grid, run the smoothing
      loop `rounds` times, divide by the maximum. */
  method InterpolateAndSmooth(cov: seq<real>, intensity: seq<real>, grid: Grid, rounds: nat)
    returns (r: Result<Trace>)
    requires 0.0 < grid.step
    ensures r == SmoothedIonogram(cov, intensity, grid, rounds)
  {
    KernelFacts();
    var interp := MakeInterpolant(cov, intensity, ZeroFill);
    if interp.Err? {
      return Err(interp.error);
    }
    var axis := GridAxis(grid);
    var resampled := ResampleOnto(interp.value, axis);
    var smoothed := resampled;
    var done := 0;
    while done < rounds
      invariant done <= rounds
      invariant smoothed == Rounds(resampled, Kernel, done)
    {
      smoothed := WeightedAdjacentAveraging(smoothed, Kernel);
      done := done + 1;
    }
    if |smoothed| == 0 {
      return Err(EmptySeries);
    }
    var m := Max(smoothed);
    if m == 0.0 {
      return Err(ZeroMaximum);
    }
    r := Ok(Trace(axis, NormalizeToMax(smoothed)));
  }

  /** The column a file contributes once its ionogram has been computed. */
  function IonogramColumn(f: DataFile, grid: Grid, rounds: nat): (c: Column)
    requires 0.0 < grid.step && SmoothedIonogram(f.coords, f.intensity, grid, rounds).Ok?
    ensures c.name == f.name && |c.values| == |GridAxis(grid)|
  {
    Column(f.name, SmoothedIonogram(f.coords, f.intensity, grid, rounds).value.intensity)
  }

  /** columns holds, in order, the ionogram column of each of files. */
  ghost predicate ColumnsFor(columns: seq<Column>, files: seq<DataFile>, grid: Grid, rounds: nat)
    requires 0.0 < grid.step
  {
    && |columns| == |files|
    && forall k :: 0 <= k < |files| ==>
         && SmoothedIonogram(files[k].coords, files[k].intensity, grid, rounds).Ok?
         && columns[k] == IonogramColumn(files[k], grid, rounds)
  }

  /** process_directory: a COV column holding the grid, then one column per
      .txt file in listing order. The first failing file stops the run. */
  method ProcessDirectory(listing: seq<DataFile>, grid: Grid, rounds: nat) returns (r: Result<Table>)
    requires 0.0 < grid.step
    ensures r.Err? ==> exists f :: f in listing && IsTxt(f) && SmoothedIonogram(f.coords, f.intensity, grid, rounds).Err?
    ensures r.Ok? ==>
      && r.value.axisName == "COV"
      && r.value.axis == GridAxis(grid)
      && ColumnsMatchAxis(r.value)
      && ColumnsFor(r.value.columns, TxtFiles(listing), grid, rounds)
  {
    var axis := GridAxis(grid);
    var columns: seq<Column> := [];
    for i := 0 to |listing|
      invariant ColumnsFor(columns, TxtFiles(listing[..i]), grid, rounds)
    {
      var file := listing[i];
      ghost var before := columns;
      if IsTxt(file) {
        var trace := InterpolateAndSmooth(file.coords, file.intensity, grid, rounds);
        if trace.Err? {
          assert file in listing;
          return Err(trace.error);
        }
        columns := columns + [Column(file.name, trace.value.intensity)];
      }
      ColumnsForStep(before, columns, listing, i, grid, rounds);
    }
    assert listing[..|listing|] == listing;
    ColumnsForMatchAxis(columns, TxtFiles(listing), grid, rounds);
    r := Ok(Table("COV", axis, columns));
  }

  /** One more file of the listing: a .txt file whose ionogram succeeds adds
      its column, any other file leaves the columns as they are. */
  lemma ColumnsForStep(before: seq<Column>, after: seq<Column>, listing: seq<DataFile>, i: int, grid: Grid, rounds: nat)
    requires 0.0 < grid.step && 0 <= i < |listing|
    requires ColumnsFor(before, TxtFiles(listing[..i]), grid, rounds)
    requires IsTxt(listing[i]) ==>
      && SmoothedIonogram(listing[i].coords, listing[i].intensity, grid, rounds).Ok?
      && after == before + [IonogramColumn(listing[i], grid, rounds)]
    requires !IsTxt(listing[i]) ==> after == before
    ensures ColumnsFor(after, TxtFiles(listing[..i + 1]), grid, rounds)
  {
    assert listing[..i + 1][..i] == listing[..i];
  }

  /** Every ionogram column lies on the grid axis. */
  lemma ColumnsForMatchAxis(columns: seq<Column>, files: seq<DataFile>, grid: Grid, rounds: nat)
    requires 0.0 < grid.step && ColumnsFor(columns, files, grid, rounds)
    ensures ColumnsMatchAxis(Table("COV", GridAxis(grid), columns))
  {
    forall k | 0 <= k < |columns|
      ensures |columns[k].values| == |GridAxis(grid)|
    {
      assert columns[k] == IonogramColumn(files[k], grid, rounds);
    }
  }

  /** The grid the script runs with, np.arange(0, 20 + 0.05, 0.05) in exact
      arithmetic: 401 points from 0 up to and including 20. */
  lemma DefaultGridAxis()
    ensures |GridAxis(DefaultGrid)| == 401
    ensures GridAxis(DefaultGrid)[0] == 0.0 && GridAxis(DefaultGrid)[400] == 20.0
  {
    ArangeInclusiveEnd(0.0, 0.05, 400);
  }
}
