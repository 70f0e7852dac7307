# Mass-spectrometry post-processing scripts, modelled in Dafny

This project models the numerical core of three Python scripts from a mass-spectrometry and
differential-mobility data-processing repository. Intensities, coordinates and m/z values are
exact `real`s, not IEEE floats.

- **Ionogram smoothing and normalisation** (`Extract_Smooth_and_Normalize_Ionograms.py`,
  module `Ionograms`, file `ionograms.dfy`). Each `.txt` ionogram (COV against intensity) is
  resampled onto a shared COV grid by zero-filled linear interpolation. It is then smoothed
  `smoothing_rounds` times with the kernel `[1, 2, 1]` normalised to sum 1, under zero padding,
  and divided by its maximum. The result becomes one column of a table whose first column is the grid.
- **Reference-peak group normalisation** (`Extract_and_Comapre_MS2_Spectra/Extract_and_Compare_MS2_Spectra.py`,
  module `Ms2Spectra`, file `ms2_spectra.dfy`). `.txt` MS2 spectra are grouped by compound,
  which is the file name up to its first `_`. Each spectrum is put on the m/z axis
  `np.arange(50, 450.1, 0.1)` by extrapolating linear interpolation. Its parent peak is the
  detected peak nearest the compound's parent mass, with the first one winning a tie, and
  that peak's height is read. Every member of a group is then rescaled by
  `groupMax / ownHeight`. Compounds without a known parent mass are skipped.
- **Target/ignore/background rescaling** (`process_UVPD_mass_Spectra_for_plotting.py`,
  module `UvpdSpectra`, file `uvpd_spectra.dfy`):
  - `parse_line` (strip, then split);
  - the delimiter chosen by extension;
  - reading of the two-column rows after the header;
  - classification of the detected peaks as target, ignore or other, with target tested first
    and the tolerance inclusive;
  - the scaling loop over a copy of the intensity array.

Shared parts:

- `common.dfy` (module `Common`): the `Option`/`Result`/`Error` types, sums, maxima, the
  output table, `str.endswith` and the `.txt` filter.
- `resample.dfy` (module `Resample`): `np.arange`, `np.searchsorted` and scipy's
  `interp1d(kind='linear')` with a zero fill or with extrapolation.
- `peaks.dfy` (module `Peaks`): `scipy.signal.find_peaks` as strict local maxima with an
  optional minimum height.

The scripts' loops are modelled as methods with loop invariants:

- the smoothing loop, the directory loops and the grouping loop;
- the group-rescaling loops;
- the row-reading loop, the classification loop and the in-place scaling loop, which works on
  a fresh `array` copy.

Each method is proved against a specification function, and the properties of those
functions are proved as lemmas.

Division by zero, which makes numpy produce `nan`/`inf`, is modelled as an explicit error:
`ZeroMaximum` or `ZeroReferenceHeight`. Exceptions the scripts raise are `Err` results.

## Model

| member | source | states |
|---|---|---|
| Common.Max | Extract_Smooth_and_Normalize_Ionograms/Extract_Smooth_and_Normalize_Ionograms.py:31 | `np.max` / `max`: the result is an element of the series and no element exceeds it |
| Common.TxtFiles | Extract_Smooth_and_Normalize_Ionograms/Extract_Smooth_and_Normalize_Ionograms.py:41-42 | the files kept by `file.endswith('.txt')` are exactly the listing's `.txt` files |
| Resample.Arange | Extract_Smooth_and_Normalize_Ionograms/Extract_Smooth_and_Normalize_Ionograms.py:22 | `np.arange(start, stop, step)`: element k is `start + k*step`, every element is below stop, and the next point would not be |
| Resample.ArangeInclusiveEnd | Extract_Smooth_and_Normalize_Ionograms/Extract_Smooth_and_Normalize_Ionograms.py:22 | when step divides the span exactly, `arange(start, last + step, step)` has q + 1 points and ends exactly on `last` |
| Resample.ArangeIncreasing | Extract_Smooth_and_Normalize_Ionograms/Extract_Smooth_and_Normalize_Ionograms.py:22 | the arange axis is strictly increasing |
| Resample.ArangeCountBounds | Extract_Smooth_and_Normalize_Ionograms/Extract_Smooth_and_Normalize_Ionograms.py:22 | `ceil((stop - start) / step)` points are enough to reach stop, and one fewer stays below it |
| Resample.GridAxis | Extract_Smooth_and_Normalize_Ionograms/Extract_Smooth_and_Normalize_Ionograms.py:22 | the grid axis `arange(grid[0], grid[1] + grid[2], grid[2])`: evenly spaced from the start, every point below `stop + step`, and one more step would reach `stop + step`, so no point is missing |
| Resample.GridAxisOvershoot | Extract_Smooth_and_Normalize_Ionograms/Extract_Smooth_and_Normalize_Ionograms.py:22 | the grid (0, 1, 0.3) has 5 points and its last point, 1.2, lies beyond the stop value 1 |
| Resample.SearchLeft | Extract_Smooth_and_Normalize_Ionograms/Extract_Smooth_and_Normalize_Ionograms.py:21 | searchsorted-left as interp1d uses it: every coordinate before the result is below t, and the one at the result is not |
| Resample.SearchLeftAtSample | Extract_Smooth_and_Normalize_Ionograms/Extract_Smooth_and_Normalize_Ionograms.py:21 | on strictly increasing coordinates, searching for sample k's coordinate finds k |
| Resample.MakeInterpolant | Extract_Smooth_and_Normalize_Ionograms/Extract_Smooth_and_Normalize_Ionograms.py:21 | building interp1d succeeds exactly on equal-length, strictly increasing columns of at least 2 samples; otherwise columns of different length give LengthMismatch, fewer than 2 samples give TooFewPoints, and coordinates that are not strictly increasing give UnsortedCoordinates |
| Resample.Segment | Extract_Smooth_and_Normalize_Ionograms/Extract_Smooth_and_Normalize_Ionograms.py:23 | the segment interp1d evaluates on is always a real segment, from sample s - 1 to sample s |
| Resample.LineEnds | Extract_Smooth_and_Normalize_Ionograms/Extract_Smooth_and_Normalize_Ionograms.py:23 | the line `slope*(t - x0) + y0` passes through both samples of its segment |
| Resample.LineBetween | Extract_Smooth_and_Normalize_Ionograms/Extract_Smooth_and_Normalize_Ionograms.py:23 | between two samples the interpolated value lies between their values |
| Resample.SegmentBrackets | Extract_Smooth_and_Normalize_Ionograms/Extract_Smooth_and_Normalize_Ionograms.py:23 | inside the sampled range, the chosen segment brackets t |
| Resample.SegmentOutside | Extract_and_Comapre_MS2_Spectra/Extract_and_Compare_MS2_Spectra.py:33 | outside the sampled range the first or last segment is used, which gives edge-slope extrapolation |
| Resample.EvalAtSample | Extract_Smooth_and_Normalize_Ionograms/Extract_Smooth_and_Normalize_Ionograms.py:21-23 | interpolation reproduces the sample value at each original coordinate (either policy) |
| Resample.EvalZeroOutside | Extract_Smooth_and_Normalize_Ionograms/Extract_Smooth_and_Normalize_Ionograms.py:21-23 | with `bounds_error=False, fill_value=0`, every point outside [min cov, max cov] gets exactly 0 |
| Resample.EvalBetweenNeighbours | Extract_Smooth_and_Normalize_Ionograms/Extract_Smooth_and_Normalize_Ionograms.py:21-23 | inside the range, the value is the segment's line at t and lies between the two neighbouring samples |
| Resample.PoliciesAgreeInside | Extract_and_Comapre_MS2_Spectra/Extract_and_Compare_MS2_Spectra.py:33 | inside the sampled range, the extrapolating interp1d and the zero-filling one give the same value |
| Resample.ResampleOnto | Extract_Smooth_and_Normalize_Ionograms/Extract_Smooth_and_Normalize_Ionograms.py:23 | `f(new_cov)`: one value per grid point |
| Resample.ResampleZero | Extract_Smooth_and_Normalize_Ionograms/Extract_Smooth_and_Normalize_Ionograms.py:21-23 | zero-filled resampling of an all-zero column is all zero |
| Resample.LineFlat | Extract_Smooth_and_Normalize_Ionograms/Extract_Smooth_and_Normalize_Ionograms.py:23 | the line between two equal values is that value everywhere |
| Resample.ResampleNonNegative | Extract_Smooth_and_Normalize_Ionograms/Extract_Smooth_and_Normalize_Ionograms.py:21-23 | zero-filled resampling of non-negative samples is non-negative |
| Peaks.PeaksFrom | process_UVPD_mass_Spectra_for_plotting.py:34 | the scan for peaks from a position reports only indices at or after it and inside the series |
| Peaks.PeaksFromAscending | process_UVPD_mass_Spectra_for_plotting.py:34 | the scan reports its peaks in strictly ascending order |
| Peaks.PeaksFromMembers | process_UVPD_mass_Spectra_for_plotting.py:34 | the scan reports exactly the strict local maxima that meet the height and lie at or after the position |
| Peaks.FindPeaks | process_UVPD_mass_Spectra_for_plotting.py:34 | `find_peaks(x, height)` returns indices into x |
| Peaks.FindPeaksExact | Extract_and_Comapre_MS2_Spectra/Extract_and_Compare_MS2_Spectra.py:19 | `find_peaks` returns ascending indices; an index is returned exactly when it is a strict local maximum at or above the height |
| Ionograms.KernelFacts | Extract_Smooth_and_Normalize_Ionograms/Extract_Smooth_and_Normalize_Ionograms.py:26 | the script's kernel `[1, 2, 1]` has three weights summing to 4 |
| Ionograms.NormalizeWeights | Extract_Smooth_and_Normalize_Ionograms/Extract_Smooth_and_Normalize_Ionograms.py:8-9 | each effective weight is the raw weight divided by the raw sum, and the effective weights sum to 1 |
| Ionograms.WeightedAdjacentAveraging | Extract_Smooth_and_Normalize_Ionograms/Extract_Smooth_and_Normalize_Ionograms.py:7-12 | smoothing returns a series of the same length |
| Ionograms.SmoothConstantInterior | Extract_Smooth_and_Normalize_Ionograms/Extract_Smooth_and_Normalize_Ionograms.py:8-11 | smoothing a constant series leaves every point whose window lies inside the series unchanged |
| Ionograms.WindowOfConstant | Extract_Smooth_and_Normalize_Ionograms/Extract_Smooth_and_Normalize_Ionograms.py:11 | a window inside a constant series sums to the constant times the total weight |
| Ionograms.WindowEntryOfConstant | Extract_Smooth_and_Normalize_Ionograms/Extract_Smooth_and_Normalize_Ionograms.py:11 | inside a constant series each product of a window is weight times the constant |
| Ionograms.KernelSmoothing | Extract_Smooth_and_Normalize_Ionograms/Extract_Smooth_and_Normalize_Ionograms.py:26-28 | with the script's kernel each output is 1/4 of each neighbour plus 1/2 of the sample, and a neighbour past either end counts as 0 |
| Ionograms.SmoothZero | Extract_Smooth_and_Normalize_Ionograms/Extract_Smooth_and_Normalize_Ionograms.py:7-12 | smoothing an all-zero series gives an all-zero series |
| Ionograms.WindowOfZeros | Extract_Smooth_and_Normalize_Ionograms/Extract_Smooth_and_Normalize_Ionograms.py:11 | over an all-zero series every window sums to 0, whatever the weights |
| Ionograms.WindowNonNegative | Extract_Smooth_and_Normalize_Ionograms/Extract_Smooth_and_Normalize_Ionograms.py:11 | a window of non-negative samples and weights sums to a non-negative value |
| Ionograms.SmoothNonNegative | Extract_Smooth_and_Normalize_Ionograms/Extract_Smooth_and_Normalize_Ionograms.py:7-12 | positive weights keep a non-negative series non-negative |
| Ionograms.Rounds | Extract_Smooth_and_Normalize_Ionograms/Extract_Smooth_and_Normalize_Ionograms.py:27-28 | smoothing `rounds` times, each pass on the previous output, keeps the length |
| Ionograms.RoundsNonNegative | Extract_Smooth_and_Normalize_Ionograms/Extract_Smooth_and_Normalize_Ionograms.py:27-28 | any number of rounds keeps a non-negative series non-negative |
| Ionograms.RoundsZero | Extract_Smooth_and_Normalize_Ionograms/Extract_Smooth_and_Normalize_Ionograms.py:27-28 | any number of rounds keeps an all-zero series all zero |
| Ionograms.NormalizeToMaxScalesBack | Extract_Smooth_and_Normalize_Ionograms/Extract_Smooth_and_Normalize_Ionograms.py:31 | multiplying the normalised series back by the maximum gives the series back |
| Ionograms.NormalizeToMaxIsOne | Extract_Smooth_and_Normalize_Ionograms/Extract_Smooth_and_Normalize_Ionograms.py:31 | when the maximum is positive, the normalised maximum is exactly 1, every sample is at most 1, and non-negative samples stay non-negative |
| Ionograms.SmoothedIonogram | Extract_Smooth_and_Normalize_Ionograms/Extract_Smooth_and_Normalize_Ionograms.py:14-33 | a successful ionogram is on the grid axis with one value per grid point; a failing interp1d fails it with the same error |
| Ionograms.SmoothedIonogramOutcome | Extract_Smooth_and_Normalize_Ionograms/Extract_Smooth_and_Normalize_Ionograms.py:21-31 | once interp1d accepts the columns, the ionogram fails with EmptySeries exactly when the grid is empty and with ZeroMaximum exactly when the smoothed series has maximum 0; otherwise it succeeds with the smoothed series divided by its maximum |
| Ionograms.ZeroColumnFails | Extract_Smooth_and_Normalize_Ionograms/Extract_Smooth_and_Normalize_Ionograms.py:21-31 | a column of zero intensities fails with ZeroMaximum on every non-empty grid and for any number of rounds |
| Ionograms.SmoothedIonogramPeaksAtOne | Extract_Smooth_and_Normalize_Ionograms/Extract_Smooth_and_Normalize_Ionograms.py:21-31 | for non-negative input, the normalised ionogram lies in [0, 1] and reaches 1 |
| Ionograms.SmoothedIonogramExample | Extract_Smooth_and_Normalize_Ionograms/Extract_Smooth_and_Normalize_Ionograms.py:14-33 | samples (0,0), (1,10), (2,0) on grid 0, 1, 2 with zero rounds give 0, 1, 0 |
| Ionograms.InterpolateAndSmooth | Extract_Smooth_and_Normalize_Ionograms/Extract_Smooth_and_Normalize_Ionograms.py:14-33 | the loop version (interpolate, smooth `rounds` times, divide by the max) computes exactly the specified ionogram, errors included |
| Ionograms.IonogramColumn | Extract_Smooth_and_Normalize_Ionograms/Extract_Smooth_and_Normalize_Ionograms.py:44-45 | a file's column carries the file's name and one value per grid point |
| Ionograms.ProcessDirectory | Extract_Smooth_and_Normalize_Ionograms/Extract_Smooth_and_Normalize_Ionograms.py:35-45 | the table is headed `COV`, holds the grid, and has one column per `.txt` file in listing order, each the file's ionogram and each of the grid's length; it fails only if some `.txt` file's ionogram fails |
| Ionograms.ColumnsForStep | Extract_Smooth_and_Normalize_Ionograms/Extract_Smooth_and_Normalize_Ionograms.py:41-45 | one more file of the listing adds its ionogram column when it is a `.txt` file and nothing otherwise |
| Ionograms.ColumnsForMatchAxis | Extract_Smooth_and_Normalize_Ionograms/Extract_Smooth_and_Normalize_Ionograms.py:44-45 | every ionogram column has one value per grid point |
| Ionograms.DefaultGridAxis | Extract_Smooth_and_Normalize_Ionograms/Extract_Smooth_and_Normalize_Ionograms.py:35-38 | the default grid (0, 20, 0.05) gives 401 points from 0 to exactly 20 |
| Ms2Spectra.MassAxisFacts | Extract_and_Comapre_MS2_Spectra/Extract_and_Compare_MS2_Spectra.py:34 | `np.arange(50, 450.1, 0.1)` has 4001 strictly increasing points from 50 to 450 |
| Ms2Spectra.ArgMin | Extract_and_Comapre_MS2_Spectra/Extract_and_Compare_MS2_Spectra.py:21 | `np.argmin`: an index of a smallest value, and every earlier value is strictly larger (the first minimum) |
| Ms2Spectra.ParentPeakUnique | Extract_and_Comapre_MS2_Spectra/Extract_and_Compare_MS2_Spectra.py:19-21 | the parent peak (nearest candidate, first of equally near ones) is unique |
| Ms2Spectra.SelectParentPeak | Extract_and_Comapre_MS2_Spectra/Extract_and_Compare_MS2_Spectra.py:19-21 | the selected peak index lies inside the spectrum |
| Ms2Spectra.SelectParentPeakIsNearest | Extract_and_Comapre_MS2_Spectra/Extract_and_Compare_MS2_Spectra.py:19-21 | no peak is selected exactly when no peak of height >= 0 is detected; otherwise the selected one minimises abs(mass - parent mass) among the peaks, and the first wins a tie |
| Ms2Spectra.ArgMinIsParentPeak | Extract_and_Comapre_MS2_Spectra/Extract_and_Compare_MS2_Spectra.py:21 | the peak at the first minimum of the distances is the parent peak |
| Ms2Spectra.FindParentPeakArea | Extract_and_Comapre_MS2_Spectra/Extract_and_Compare_MS2_Spectra.py:17-25 | the only failure of find_parent_peak_area is NoPeakFound |
| Ms2Spectra.ParentPeakAreaIsHeight | Extract_and_Comapre_MS2_Spectra/Extract_and_Compare_MS2_Spectra.py:17-25 | the "area" is the height at the parent peak (not an integral) and is >= 0; it fails exactly when no peak is detected |
| Ms2Spectra.InterpolateAndNormalize | Extract_and_Comapre_MS2_Spectra/Extract_and_Compare_MS2_Spectra.py:27-39 | a measured spectrum lies on the m/z axis with one intensity per axis point |
| Ms2Spectra.MeasuredSpectrumSamples | Extract_and_Comapre_MS2_Spectra/Extract_and_Compare_MS2_Spectra.py:33-35 | the intensities are the extrapolating interpolant evaluated along the axis, and a failing interp1d fails the measurement |
| Ms2Spectra.MeasuredSpectrumPeak | Extract_and_Comapre_MS2_Spectra/Extract_and_Compare_MS2_Spectra.py:37-39 | the area is the height of the resampled spectrum's parent peak; once interp1d succeeds, the measurement fails exactly when no peak is detected, with NoPeakFound |
| Ms2Spectra.Rescaled | Extract_and_Comapre_MS2_Spectra/Extract_and_Compare_MS2_Spectra.py:75 | rescaling keeps the spectrum's length |
| Ms2Spectra.RescaledParentPeak | Extract_and_Comapre_MS2_Spectra/Extract_and_Compare_MS2_Spectra.py:74-77 | after rescaling, the sample at the parent peak equals the group maximum |
| Ms2Spectra.RescaledAtMaximumUnchanged | Extract_and_Comapre_MS2_Spectra/Extract_and_Compare_MS2_Spectra.py:71-75 | the member holding the maximum is scaled by exactly 1 |
| Ms2Spectra.GroupColumnsReachGroupMax | Extract_and_Comapre_MS2_Spectra/Extract_and_Compare_MS2_Spectra.py:71-77 | in every written column of a group the parent peak sits at the group's largest parent peak height, a member with that height is unchanged, and each column is as long as the axis |
| Ms2Spectra.MeasureGroup | Extract_and_Comapre_MS2_Spectra/Extract_and_Compare_MS2_Spectra.py:64-68 | the measuring loop succeeds exactly when every file measures, and then holds each file's spectrum in order |
| Ms2Spectra.RescaleGroup | Extract_and_Comapre_MS2_Spectra/Extract_and_Compare_MS2_Spectra.py:71-77 | the rescaling loop succeeds exactly when the group is non-empty and has no zero height, and then gives each member the column `Rescaled(spectrum, max height)` under its own name; otherwise it reports EmptySeries or ZeroReferenceHeight |
| Ms2Spectra.NormalizeGroup | Extract_and_Comapre_MS2_Spectra/Extract_and_Compare_MS2_Spectra.py:63-77 | normalising one compound's group succeeds exactly when the group can be normalised, and then yields its rescaled columns in file order |
| Ms2Spectra.GroupFromSpectra | Extract_and_Comapre_MS2_Spectra/Extract_and_Compare_MS2_Spectra.py:63-77 | measuring and then rescaling is normalising the group |
| Ms2Spectra.Prefix | Extract_and_Comapre_MS2_Spectra/Extract_and_Compare_MS2_Spectra.py:50 | `file.split('_')[0]`: a prefix of the name without '_', followed in the name by '_' unless it is the whole name |
| Ms2Spectra.FilesWithPrefix | Extract_and_Comapre_MS2_Spectra/Extract_and_Compare_MS2_Spectra.py:47-54 | a compound's group never holds more files than the listing |
| Ms2Spectra.FilesWithPrefixMembers | Extract_and_Comapre_MS2_Spectra/Extract_and_Compare_MS2_Spectra.py:48-54 | a group holds exactly the `.txt` files of its compound |
| Ms2Spectra.NoFilesWithPrefix | Extract_and_Comapre_MS2_Spectra/Extract_and_Compare_MS2_Spectra.py:51-54 | a compound that has not appeared has an empty group |
| Ms2Spectra.KeyOrder | Extract_and_Comapre_MS2_Spectra/Extract_and_Compare_MS2_Spectra.py:57 | the dictionary's keys, in insertion order, are distinct |
| Ms2Spectra.KeyOrderMembers | Extract_and_Comapre_MS2_Spectra/Extract_and_Compare_MS2_Spectra.py:48-54 | the keys are exactly the compounds of the `.txt` files |
| Ms2Spectra.FilesStep | Extract_and_Comapre_MS2_Spectra/Extract_and_Compare_MS2_Spectra.py:51-52 | one more file appends to its own compound's list only |
| Ms2Spectra.KeyOrderStep | Extract_and_Comapre_MS2_Spectra/Extract_and_Compare_MS2_Spectra.py:53-54 | one more file adds its compound as a new key exactly when it is new |
| Ms2Spectra.GroupSizesBump | Extract_and_Comapre_MS2_Spectra/Extract_and_Compare_MS2_Spectra.py:51-52 | one more file in one group adds one to the total size of distinct groups naming it |
| Ms2Spectra.GroupSizesSame | Extract_and_Comapre_MS2_Spectra/Extract_and_Compare_MS2_Spectra.py:49 | a file that is not `.txt` changes no group size |
| Ms2Spectra.GroupsPartitionFiles | Extract_and_Comapre_MS2_Spectra/Extract_and_Compare_MS2_Spectra.py:47-54 | grouping partitions the `.txt` files: each is in its own compound's group and in no other, and the group sizes add up to the number of `.txt` files |
| Ms2Spectra.GroupByPrefix | Extract_and_Comapre_MS2_Spectra/Extract_and_Compare_MS2_Spectra.py:47-54 | the loop builds a dictionary keyed by exactly the compounds in first-seen order, each mapped to that compound's `.txt` files in listing order |
| Ms2Spectra.ColumnsOfGroupsStep | Extract_and_Comapre_MS2_Spectra/Extract_and_Compare_MS2_Spectra.py:57-61 | one more compound appends its group's columns, or nothing when the compound is unknown |
| Ms2Spectra.ColumnsOfGroupsMatchAxis | Extract_and_Comapre_MS2_Spectra/Extract_and_Compare_MS2_Spectra.py:74-77 | every column written has one value per point of the m/z axis |
| Ms2Spectra.NormalizeGroups | Extract_and_Comapre_MS2_Spectra/Extract_and_Compare_MS2_Spectra.py:56-77 | the loop over the groups succeeds exactly when every known compound's group can be normalised; then it yields their columns group after group, and unknown compounds add nothing |
| Ms2Spectra.ProcessDirectory | Extract_and_Comapre_MS2_Spectra/Extract_and_Compare_MS2_Spectra.py:41-77 | the table is headed `Mass/Charge` and holds the m/z axis; it succeeds exactly when every known compound's group can be normalised; its columns are the groups' rescaled columns, each of the axis's length |
| Ms2Spectra.GroupsFailAt | Extract_and_Comapre_MS2_Spectra/Extract_and_Compare_MS2_Spectra.py:57-68 | one known compound whose group cannot be normalised makes the whole run fail |
| UvpdSpectra.StripStartShape | process_UVPD_mass_Spectra_for_plotting.py:7 | `lstrip`: a suffix of the line, preceded only by whitespace, and not starting with whitespace |
| UvpdSpectra.StripEndShape | process_UVPD_mass_Spectra_for_plotting.py:7 | `rstrip`: a prefix of the line, followed only by whitespace, and not ending with whitespace |
| UvpdSpectra.StripKeepsMiddle | process_UVPD_mass_Spectra_for_plotting.py:7 | `strip` keeps a contiguous middle of the line, removes only whitespace, and leaves no whitespace at either end |
| UvpdSpectra.StripIdempotent | process_UVPD_mass_Spectra_for_plotting.py:7 | stripping twice is stripping once |
| UvpdSpectra.Split | process_UVPD_mass_Spectra_for_plotting.py:7 | `str.split(d)` yields at least one piece |
| UvpdSpectra.SplitPiecesFree | process_UVPD_mass_Spectra_for_plotting.py:7 | no piece of `split(d)` contains d |
| UvpdSpectra.JoinSplit | process_UVPD_mass_Spectra_for_plotting.py:7 | joining the pieces of `split(d)` with d gives back the string |
| UvpdSpectra.SplitPiece | process_UVPD_mass_Spectra_for_plotting.py:7 | splitting a string without d gives that string alone |
| UvpdSpectra.SplitFirst | process_UVPD_mass_Spectra_for_plotting.py:7 | a d-free piece followed by d splits off as the first piece |
| UvpdSpectra.SplitJoin | process_UVPD_mass_Spectra_for_plotting.py:7 | splitting undoes joining, for pieces that contain no d |
| UvpdSpectra.ParseLine | process_UVPD_mass_Spectra_for_plotting.py:6-7 | `parse_line` yields at least one field |
| UvpdSpectra.ParseLineRoundTrip | process_UVPD_mass_Spectra_for_plotting.py:6-7 | the fields hold no delimiter and join back into the stripped line; a stripped line made from d-free pieces parses back into those pieces |
| UvpdSpectra.DelimiterFor | process_UVPD_mass_Spectra_for_plotting.py:10-15 | `.csv` selects ',' and `.txt` selects ' '; every other name is an UnsupportedFormat error |
| UvpdSpectra.ExtensionsExclusive | process_UVPD_mass_Spectra_for_plotting.py:10-13 | no name ends in both extensions, so testing `.csv` first hides nothing |
| UvpdSpectra.RowError | process_UVPD_mass_Spectra_for_plotting.py:24-26 | a row is accepted exactly when it has 2 fields and both parse as floats |
| UvpdSpectra.ReadRowsSucceeds | process_UVPD_mass_Spectra_for_plotting.py:23-28 | reading succeeds exactly when every data row can be read |
| UvpdSpectra.ReadRowsValues | process_UVPD_mass_Spectra_for_plotting.py:23-28 | a successful read has one m/z and one intensity per data row, in row order: that row's two numbers |
| UvpdSpectra.ReadRowsFirstError | process_UVPD_mass_Spectra_for_plotting.py:23-26 | a failed read reports the error of the first row that cannot be read |
| UvpdSpectra.FirstBadRow | process_UVPD_mass_Spectra_for_plotting.py:22-26 | when the rows before row i are good and row i is bad, reading fails with row i's error |
| UvpdSpectra.ReadColumns | process_UVPD_mass_Spectra_for_plotting.py:17-28 | the reading loop (skip the header, reject a row without exactly 2 numbers, append in order) computes the specified read, including the missing-header and bad-row errors |
| UvpdSpectra.ClassificationMembers | process_UVPD_mass_Spectra_for_plotting.py:39-44 | a peak is a target exactly when it is within tolerance (<=) of a target m/z; it is ignored exactly when it is near no target but near an m/z to leave alone |
| UvpdSpectra.ClassifyPeaks | process_UVPD_mass_Spectra_for_plotting.py:37-44 | the classification loop builds exactly the target and ignore lists, in peak order |
| UvpdSpectra.ScaleIntensities | process_UVPD_mass_Spectra_for_plotting.py:47-54 | the scaling loop returns a fresh array of the same length, with each sample multiplied by its one factor (peak factor, 1, or background factor); the input array is not modified |
| UvpdSpectra.ClassifiedFactor | process_UVPD_mass_Spectra_for_plotting.py:37-54 | the factor read off the classified lists is the factor the sample's own status calls for: the peak factor at a detected peak near a target, else 1 at a detected peak near an ignored m/z, else the background factor, non-peak samples included |
| UvpdSpectra.ScaleSpectrum | process_UVPD_mass_Spectra_for_plotting.py:33-54 | after peak detection, classification and scaling, each intensity is the input times the sample's factor and the length is kept |
| UvpdSpectra.ProcessFile | process_UVPD_mass_Spectra_for_plotting.py:9-56 | an unsupported extension fails before any read; a failed read fails with that read's error; otherwise the m/z column comes back as read and each intensity is multiplied by its sample's factor |

## Left out

- File reading and writing is not modelled: `pd.read_csv`, `open`, `csv.writer`, the Excel
  output and `write_to_file`. Inputs are in-memory sequences (columns for the ionogram and
  MS2 scripts, text lines for the UVPD script), and outputs are returned values.
- `os.listdir` becomes a given listing sequence; its order is whatever the caller passes.
- `print` and the `__main__` blocks are not modelled. The scripts' constants (grid,
  parent masses, axis) are `const`s; the number of smoothing rounds is a parameter.
- Floating point is not modelled: all arithmetic is exact. In particular, the IEEE length of
  `np.arange(50, 450.1, 0.1)` and of `np.arange(0, 20.05, 0.05)` is not reproduced. In exact
  arithmetic they have 4001 and 401 points.
- Division by zero is modelled as an error, where numpy produces `nan`/`inf` and carries on:
  - a zero maximum before `new_intensity / np.max(new_intensity)` makes `Ionograms.SmoothedIonogram`
    return `ZeroMaximum` (`Ionograms.NormalizeToMax` itself requires a non-zero maximum);
  - a zero parent-peak height in `RescaleGroup` is `ZeroReferenceHeight`.
- `float()` is a parameter `toFloat: string -> Option<real>`; Python's float grammar is not
  modelled.
- `csv.reader` is modelled as a plain split on the delimiter, and a blank line gives no
  fields. Quoting, escapes and line terminators are not modelled, and each line is given
  without its line ending.
- Peaks.FindPeaks: scipy's flat-plateau handling is not reproduced. A plateau reports its
  middle sample in scipy, but is no strict local maximum here. Prominence, width and distance
  options are not used by the scripts.
- Ionograms.WeightedAdjacentAveraging: requires an odd kernel length. scipy's origin rule for
  even kernels is not modelled; the script uses only `[1, 2, 1]`.
- Resample.MakeInterpolant: coordinates that are not strictly increasing are refused with
  `UnsortedCoordinates`. scipy's interp1d would sort them first, and with repeated
  coordinates it divides by zero.
- Resample.GridAxis: the grid step must be positive (`np.arange` with step <= 0 is not
  modelled).
- Ms2Spectra.InterpolateAndNormalize: the m/z axis is a parameter, so that the group lemmas
  hold for any axis. `Ms2Spectra.ProcessDirectory` passes `MassAxis`, which is
  `np.arange(50, 450.1, 0.1)`.
- Peaks.FindPeaks: states only its bounds; the exact-set property is the lemma
  `Peaks.FindPeaksExact`.
- Resample.ResampleOnto: states only its length; the per-point values follow from its body
  and the `Resample.Eval` lemmas.
- Ms2Spectra.SelectParentPeak, Ms2Spectra.FindParentPeakArea, Ms2Spectra.KeyOrder and
  Ms2Spectra.FilesWithPrefix state only bounds or error kinds in their own contracts. Their
  full properties are the lemmas beside them.
- UvpdSpectra.Split and UvpdSpectra.ParseLine state only that there is at least one piece.
  Their round trips are the lemmas `UvpdSpectra.SplitPiecesFree`, `UvpdSpectra.JoinSplit`, `UvpdSpectra.SplitJoin` and
  `UvpdSpectra.ParseLineRoundTrip`.
- UvpdSpectra.ParseLine: modelled as written. `process_file` itself reads through
  `csv.reader`, modelled as `UvpdSpectra.Fields`, and does not call `parse_line`.
- Ms2Spectra.RescaleGroup: its `EmptySeries` error cannot arise from `ProcessDirectory`,
  because every key of the grouping dictionary has at least one file.
- The COV grid is `np.arange(grid[0], grid[1] + grid[2], grid[2])`, so
  its last point lies above `grid[1]` whenever the step does not divide `grid[1] - grid[0]`.
  The grid is therefore not "every step from start up to stop"; `Resample.GridAxisOvershoot`
  shows the case (0, 1, 0.3), whose last point is 1.2.
- The other scripts of the repository are not part of this model:
  - `plot_massSpectra_from_txt.py` is plotting glue;
  - `process_mzml_files_LC_MRM.py` is mzML loading glue;
  - `generate_gaussian_peak.py` is floating-point `exp` evaluation.
