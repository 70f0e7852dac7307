/** Extract_and_Compare_MS2_Spectra: the .txt MS2 spectra of a directory are
    grouped by compound (the file name up to its first '_'); each spectrum is
    interpolated onto one m/z axis with linear extrapolation, its parent peak
    (the detected peak nearest the compound's parent mass) is measured, and
    every member of a group is rescaled so that its parent peak reaches the
    largest parent peak of the group. */
module Ms2Spectra {
  import opened Common
  import opened Peaks
  import opened Resample

  /** The parent masses the script knows, by compound name. */
  const ParentMasses: map<string, real> := map[
    "Acetylfentanyl" := 323.2,
    "Alfentanyl" := 417.2,
    "Carfentanyl" := 395.2,
    "Fentanyl" := 337.2,
    "Sufentanyl" := 387.2,
    "4-ANPP" := 281.2
  ]

  /** np.arange(50, 450.1, 0.1): the m/z axis every spectrum is put on. */
  const MassAxis: seq<real> := Arange(50.0, 450.1, 0.1)

  /** In exact arithmetic the axis runs from 50 to 450 in 4001 steps of 0.1. */
  lemma MassAxisFacts()
    ensures |MassAxis| == 4001 && MassAxis[0] == 50.0 && MassAxis[4000] == 450.0
    ensures StrictlyIncreasing(MassAxis)
  {
    ArangeInclusiveEnd(50.0, 0.1, 4000);
    ArangeIncreasing(50.0, 450.1, 0.1);
  }

  /** np.argmin: the first index holding the smallest value. */
  function ArgMin(d: seq<real>): (k: nat)
    requires |d| > 0
    ensures k < |d|
    ensures forall j :: 0 <= j < |d| ==> d[k] <= d[j]
    ensures forall j :: 0 <= j < k ==> d[k] < d[j]
  {
    if |d| == 1 then 0
    else
      var k := ArgMin(d[..|d| - 1]);
      if d[|d| - 1] < d[k] then |d| - 1 else k
  }

  /** find_peaks(intensity, height=0): a strict local maximum that is not negative. */
  predicate IsCandidate(intensity: seq<real>, q: int)
  {
    IsPeak(intensity, q, Some(0.0))
  }

  /** p is the parent peak: a candidate whose m/z is nearest the parent mass,
      and strictly nearer than every candidate before it (argmin keeps the
      first of equally near peaks). */
  ghost predicate IsParentPeak(intensity: seq<real>, mass: seq<real>, parentMass: real, p: int)
    requires |mass| == |intensity|
  {
    && IsCandidate(intensity, p)
    && (forall q :: IsCandidate(intensity, q) ==>
          Abs(mass[p] - parentMass) <= Abs(mass[q] - parentMass))
    && (forall q :: 0 <= q < p && IsCandidate(intensity, q) ==>
          Abs(mass[p] - parentMass) < Abs(mass[q] - parentMass))
  }

  /** At most one peak can be the parent peak. */
  lemma ParentPeakUnique(intensity: seq<real>, mass: seq<real>, parentMass: real, p1: int, p2: int)
    requires |mass| == |intensity|
    requires IsParentPeak(intensity, mass, parentMass, p1)
    requires IsParentPeak(intensity, mass, parentMass, p2)
    ensures p1 == p2
  {
  }

  /** `peaks[np.argmin(np.abs(mass[peaks] - parent_mass))]`, or None where
      argmin would fail on an empty peak list. */
  function SelectParentPeak(intensity: seq<real>, mass: seq<real>, parentMass: real): (r: Option<nat>)
    requires |mass| == |intensity|
    ensures r.Some? ==> r.value < |intensity|
  {
    var peaks := FindPeaks(intensity, Some(0.0));
    if |peaks| == 0 then None
    else
      var d := seq(|peaks|, k requires 0 <= k < |peaks| => Abs(mass[peaks[k]] - parentMass));
      Some(peaks[ArgMin(d)])
  }

  /** The peak selected is the parent peak: the nearest candidate, the first
      of equally near ones. */
  lemma SelectParentPeakIsNearest(intensity: seq<real>, mass: seq<real>, parentMass: real)
    requires |mass| == |intensity|
    ensures var r := SelectParentPeak(intensity, mass, parentMass);
      && (r.None? <==> forall q :: !IsCandidate(intensity, q))
      && (r.Some? ==> IsParentPeak(intensity, mass, parentMass, r.value))
  {
    var peaks := FindPeaks(intensity, Some(0.0));
    FindPeaksExact(intensity, Some(0.0));
    if |peaks| > 0 {
      var d := seq(|peaks|, k requires 0 <= k < |peaks| => Abs(mass[peaks[k]] - parentMass));
      ArgMinIsParentPeak(intensity, mass, parentMass, peaks, d, ArgMin(d));
    }
  }

  lemma ArgMinIsParentPeak(intensity: seq<real>, mass: seq<real>, parentMass: real,
                           peaks: seq<nat>, d: seq<real>, a: nat)
    requires |mass| == |intensity|
    requires peaks == FindPeaks(intensity, Some(0.0))
    requires |d| == |peaks| && a < |d|
    requires forall k :: 0 <= k < |peaks| ==> d[k] == Abs(mass[peaks[k]] - parentMass)
    requires forall j :: 0 <= j < |d| ==> d[a] <= d[j]
    requires forall j :: 0 <= j < a ==> d[a] < d[j]
    ensures IsParentPeak(intensity, mass, parentMass, peaks[a])
  {
    FindPeaksExact(intensity, Some(0.0));
    var p := peaks[a];
    assert p in peaks;
    forall q | IsCandidate(intensity, q)
      ensures Abs(mass[p] - parentMass) <= Abs(mass[q] - parentMass)
      ensures q < p ==> Abs(mass[p] - parentMass) < Abs(mass[q] - parentMass)
    {
      assert q in peaks;
      var j :| 0 <= j < |peaks| && peaks[j] == q;
      assert q < p ==> j < a;
    }
  }

  /** find_parent_peak_area: the intensity at the parent peak, i.e. its
      height. Fails when no peak is detected. */
  function FindParentPeakArea(intensity: seq<real>, mass: seq<real>, parentMass: real): (r: Result<real>)
    requires |mass| == |intensity|
    ensures r.Err? ==> r.error == NoPeakFound
  {
    match SelectParentPeak(intensity, mass, parentMass)
    case None => Err(NoPeakFound)
    case Some(p) => Ok(intensity[p])
  }

  /** The area reported is the height of the parent peak. */
  lemma ParentPeakAreaIsHeight(intensity: seq<real>, mass: seq<real>, parentMass: real)
    requires |mass| == |intensity|
    ensures var r := FindParentPeakArea(intensity, mass, parentMass);
      && (r.Err? <==> forall q :: !IsCandidate(intensity, q))
      && (r.Ok? ==> exists p :: IsParentPeak(intensity, mass, parentMass, p) && r.value == intensity[p])
      && (r.Ok? ==> 0.0 <= r.value)
  {
    SelectParentPeakIsNearest(intensity, mass, parentMass);
  }

  /** One spectrum on the m/z axis and the height of its parent peak. */
  datatype Spectrum = Spectrum(mass: seq<real>, intensity: seq<real>, parentPeakArea: real)

  /** interpolate_and_normalize: the extrapolating interpolant of the file's
      columns on the m/z axis, and its parent peak height. */
  function InterpolateAndNormalize(f: DataFile, axis: seq<real>, parentMass: real): (r: Result<Spectrum>)
    ensures r.Ok? ==> r.value.mass == axis && |r.value.intensity| == |axis|
  {
    match MakeInterpolant(f.coords, f.intensity, Extrapolate)
    case Err(e) => Err(e)
    case Ok(interp) =>
      var intensity := ResampleOnto(interp, axis);
      match FindParentPeakArea(intensity, axis, parentMass)
      case Err(e) => Err(e)
      case Ok(area) => Ok(Spectrum(axis, intensity, area))
  }

  /** A measured spectrum is the file's interpolant sampled along the m/z
      axis; it fails whenever interp1d fails. */
  lemma MeasuredSpectrumSamples(f: DataFile, axis: seq<real>, parentMass: real)
    ensures var r := InterpolateAndNormalize(f, axis, parentMass);
      && (MakeInterpolant(f.coords, f.intensity, Extrapolate).Err? ==> r.Err?)
      && (r.Ok? ==>
        && MakeInterpolant(f.coords, f.intensity, Extrapolate).Ok?
        && forall i :: 0 <= i < |axis| ==>
             r.value.intensity[i] == Eval(MakeInterpolant(f.coords, f.intensity, Extrapolate).value, axis[i]))
  {
  }

  /** The parent peak area of a measured spectrum is the height of its
      parent peak; when interp1d succeeds, it fails exactly when no peak is
      detected. */
  lemma MeasuredSpectrumPeak(f: DataFile, axis: seq<real>, parentMass: real)
    ensures var r := InterpolateAndNormalize(f, axis, parentMass);
      && (r.Ok? ==> exists p :: IsParentPeak(r.value.intensity, axis, parentMass, p)
                                && r.value.parentPeakArea == r.value.intensity[p])
      && (r.Err? && MakeInterpolant(f.coords, f.intensity, Extrapolate).Ok? ==>
            r.error == NoPeakFound
            && forall q :: !IsCandidate(ResampleOnto(MakeInterpolant(f.coords, f.intensity, Extrapolate).value, axis), q))
  {
    var interp := MakeInterpolant(f.coords, f.intensity, Extrapolate);
    if interp.Ok? {
      ParentPeakAreaIsHeight(ResampleOnto(interp.value, axis), axis, parentMass);
    }
  }

  /** `intensity * (max_parent_peak_area / parent_peak_area)`. */
  function Rescaled(s: Spectrum, groupMax: real): (r: seq<real>)
    requires s.parentPeakArea != 0.0
    ensures |r| == |s.intensity|
  {
    Scale(s.intensity, groupMax / s.parentPeakArea)
  }

  /** After rescaling, the sample at the parent peak equals the group maximum. */
  lemma RescaledParentPeak(s: Spectrum, groupMax: real, p: nat)
    requires s.parentPeakArea != 0.0
    requires p < |s.intensity| && s.intensity[p] == s.parentPeakArea
    ensures Rescaled(s, groupMax)[p] == groupMax
  {
    var h := s.parentPeakArea;
    assert Rescaled(s, groupMax)[p] == h * (groupMax / h);
  }

  /** The spectrum holding the group maximum is scaled by exactly 1. */
  lemma RescaledAtMaximumUnchanged(s: Spectrum)
    requires s.parentPeakArea != 0.0
    ensures Rescaled(s, s.parentPeakArea) == s.intensity
  {
    DivSelf(s.parentPeakArea);
  }

  /** A group can be normalised: it has members, each is measured, and no
      parent peak has height 0 (the source would divide by it). */
  ghost predicate GroupOk(files: seq<DataFile>, axis: seq<real>, parentMass: real)
  {
    && 0 < |files|
    && (forall k :: 0 <= k < |files| ==> InterpolateAndNormalize(files[k], axis, parentMass).Ok?)
    && (forall k :: 0 <= k < |files| ==> InterpolateAndNormalize(files[k], axis, parentMass).value.parentPeakArea != 0.0)
  }

  /** The parent peak heights of a group, in file order. */
  function Heights(files: seq<DataFile>, axis: seq<real>, parentMass: real): (h: seq<real>)
    requires forall k :: 0 <= k < |files| ==> InterpolateAndNormalize(files[k], axis, parentMass).Ok?
    ensures |h| == |files|
  {
    seq(|files|, k requires 0 <= k < |files| => InterpolateAndNormalize(files[k], axis, parentMass).value.parentPeakArea)
  }

  /** The column the script writes for one member of a normalised group. */
  function MemberColumn(f: DataFile, axis: seq<real>, parentMass: real, groupMax: real): Column
    requires InterpolateAndNormalize(f, axis, parentMass).Ok?
    requires InterpolateAndNormalize(f, axis, parentMass).value.parentPeakArea != 0.0
  {
    Column(f.name, Rescaled(InterpolateAndNormalize(f, axis, parentMass).value, groupMax))
  }

  ghost predicate GroupColumns(columns: seq<Column>, files: seq<DataFile>, axis: seq<real>, parentMass: real)
    requires GroupOk(files, axis, parentMass)
  {
    && |columns| == |files|
    && forall k :: 0 <= k < |files| ==>
         columns[k] == MemberColumn(files[k], axis, parentMass, Max(Heights(files, axis, parentMass)))
  }

  /** The group-normalisation promise: in every column the parent peak sits
      at the group's largest parent peak height, and a member whose own
      parent peak is that largest height is left as it was. */
  lemma GroupColumnsReachGroupMax(columns: seq<Column>, files: seq<DataFile>, axis: seq<real>, parentMass: real, k: nat)
    requires GroupOk(files, axis, parentMass) && GroupColumns(columns, files, axis, parentMass)
    requires k < |files|
    ensures var s := InterpolateAndNormalize(files[k], axis, parentMass).value;
      && |columns[k].values| == |axis|
      && (forall p :: IsParentPeak(s.intensity, axis, parentMass, p) ==>
            columns[k].values[p] == Max(Heights(files, axis, parentMass)))
      && (s.parentPeakArea == Max(Heights(files, axis, parentMass)) ==> columns[k].values == s.intensity)
  {
    var s := InterpolateAndNormalize(files[k], axis, parentMass).value;
    var m := Max(Heights(files, axis, parentMass));
    MeasuredSpectrumPeak(files[k], axis, parentMass);
    forall p | IsParentPeak(s.intensity, axis, parentMass, p)
      ensures columns[k].values[p] == m
    {
      var p0 :| IsParentPeak(s.intensity, axis, parentMass, p0) && s.parentPeakArea == s.intensity[p0];
      ParentPeakUnique(s.intensity, axis, parentMass, p, p0);
      RescaledParentPeak(s, m, p);
    }
    if s.parentPeakArea == m {
      RescaledAtMaximumUnchanged(s);
    }
  }

  /** The first loop of process_directory for one compound: every file of
      the group measured, in order; the first failure stops the run. */
  method MeasureGroup(files: seq<DataFile>, axis: seq<real>, parentMass: real) returns (r: Result<seq<Spectrum>>)
    ensures r.Ok? <==> forall k :: 0 <= k < |files| ==> InterpolateAndNormalize(files[k], axis, parentMass).Ok?
    ensures r.Ok? ==> |r.value| == |files|
    ensures r.Ok? ==> forall k :: 0 <= k < |files| ==> InterpolateAndNormalize(files[k], axis, parentMass) == Ok(r.value[k])
  {
    var spectra: seq<Spectrum> := [];
    for i := 0 to |files|
      invariant |spectra| == i
      invariant forall k :: 0 <= k < i ==>
        InterpolateAndNormalize(files[k], axis, parentMass) == Ok(spectra[k])
    {
      var s := InterpolateAndNormalize(files[i], axis, parentMass);
      if s.Err? {
        return Err(s.error);
      }
      spectra := spectra + [s.value];
    }
    r := Ok(spectra);
  }

  /** The parent peak heights of measured spectra. */
  function Areas(spectra: seq<Spectrum>): (h: seq<real>)
    ensures |h| == |spectra|
  {
    seq(|spectra|, k requires 0 <= k < |spectra| => spectra[k].parentPeakArea)
  }

  /** The maximum and the rescaling loop of process_directory: each
      spectrum, under its file name, scaled by the largest parent peak
      height over its own. */
  method RescaleGroup(names: seq<string>, spectra: seq<Spectrum>) returns (r: Result<seq<Column>>)
    requires |names| == |spectra|
    ensures r.Ok? <==> 0 < |spectra| && forall k :: 0 <= k < |spectra| ==> spectra[k].parentPeakArea != 0.0
    ensures r.Err? && |spectra| == 0 ==> r.error == EmptySeries
    ensures r.Err? && 0 < |spectra| ==> r.error == ZeroReferenceHeight
    ensures r.Ok? ==> |r.value| == |spectra|
    ensures r.Ok? ==> forall k :: 0 <= k < |spectra| ==>
      r.value[k] == Column(names[k], Rescaled(spectra[k], Max(Areas(spectra))))
  {
    if |spectra| == 0 {
      return Err(EmptySeries);
    }
    var groupMax := Max(Areas(spectra));
    var columns: seq<Column> := [];
    for i := 0 to |spectra|
      invariant |columns| == i
      invariant forall k :: 0 <= k < i ==> spectra[k].parentPeakArea != 0.0
      invariant forall k :: 0 <= k < i ==> columns[k] == Column(names[k], Rescaled(spectra[k], groupMax))
    {
      if spectra[i].parentPeakArea == 0.0 {
        return Err(ZeroReferenceHeight);
      }
      columns := columns + [Column(names[i], Rescaled(spectra[i], groupMax))];
    }
    r := Ok(columns);
  }

  /** The file names of a group, in order. */
  function Names(files: seq<DataFile>): (names: seq<string>)
    ensures |names| == |files|
  {
    seq(|files|, k requires 0 <= k < |files| => files[k].name)
  }

  /** process_directory for one known compound: measure the group, then
      normalise it to its largest parent peak. */
  method NormalizeGroup(files: seq<DataFile>, axis: seq<real>, parentMass: real) returns (r: Result<seq<Column>>)
    ensures r.Ok? <==> GroupOk(files, axis, parentMass)
    ensures r.Ok? ==> GroupColumns(r.value, files, axis, parentMass)
  {
    var measured := MeasureGroup(files, axis, parentMass);
    if measured.Err? {
      return Err(measured.error);
    }
    var spectra := measured.value;
    r := RescaleGroup(Names(files), spectra);
    GroupFromSpectra(files, axis, parentMass, spectra, r);
  }

  lemma GroupFromSpectra(files: seq<DataFile>, axis: seq<real>, parentMass: real,
                         spectra: seq<Spectrum>, r: Result<seq<Column>>)
    requires |spectra| == |files|
    requires forall k :: 0 <= k < |files| ==> InterpolateAndNormalize(files[k], axis, parentMass) == Ok(spectra[k])
    requires r.Ok? <==> 0 < |spectra| && forall k :: 0 <= k < |spectra| ==> spectra[k].parentPeakArea != 0.0
    requires r.Ok? ==> |r.value| == |spectra|
    requires r.Ok? ==> forall k :: 0 <= k < |spectra| ==>
      r.value[k] == Column(files[k].name, Rescaled(spectra[k], Max(Areas(spectra))))
    ensures r.Ok? <==> GroupOk(files, axis, parentMass)
    ensures r.Ok? ==> GroupColumns(r.value, files, axis, parentMass)
  {
    if r.Ok? {
      assert Heights(files, axis, parentMass) == Areas(spectra);
    }
  }

  /** `file.split('_')[0]`: the name up to its first '_', or all of it. */
  function Prefix(name: string): (p: string)
    ensures p <= name
    ensures '_' !in p
    ensures |p| < |name| ==> name[|p|] == '_'
  {
    if |name| == 0 || name[0] == '_' then [] else [name[0]] + Prefix(name[1..])
  }

  /** The .txt files of the listing whose compound is key, in listing order. */
  function FilesWithPrefix(listing: seq<DataFile>, key: string): (r: seq<DataFile>)
    ensures |r| <= |listing|
  {
    if listing == [] then []
    else
      var init := FilesWithPrefix(listing[..|listing| - 1], key);
      var last := listing[|listing| - 1];
      if IsTxt(last) && Prefix(last.name) == key then init + [last] else init
  }

  /** A group holds exactly the .txt files of its compound. */
  lemma {:induction false} FilesWithPrefixMembers(listing: seq<DataFile>, key: string)
    ensures forall f :: f in FilesWithPrefix(listing, key) <==> f in listing && IsTxt(f) && Prefix(f.name) == key
  {
    if listing != [] {
      assert listing == listing[..|listing| - 1] + [listing[|listing| - 1]];
      FilesWithPrefixMembers(listing[..|listing| - 1], key);
    }
  }

  lemma {:induction false} NoFilesWithPrefix(listing: seq<DataFile>, key: string)
    requires key !in KeyOrder(listing)
    ensures FilesWithPrefix(listing, key) == []
  {
    if listing != [] {
      assert listing == listing[..|listing| - 1] + [listing[|listing| - 1]];
      NoFilesWithPrefix(listing[..|listing| - 1], key);
    }
  }

  predicate Distinct(keys: seq<string>)
  {
    forall i, j :: 0 <= i < j < |keys| ==> keys[i] != keys[j]
  }

  /** The compounds of the .txt files, each once, in order of first appearance
      (the iteration order of the file_groups dictionary). */
  function KeyOrder(listing: seq<DataFile>): (r: seq<string>)
    ensures Distinct(r)
  {
    if listing == [] then []
    else
      var init := KeyOrder(listing[..|listing| - 1]);
      var last := listing[|listing| - 1];
      if IsTxt(last) && Prefix(last.name) !in init then init + [Prefix(last.name)] else init
  }

  /** The compounds listed are exactly those of the .txt files. */
  lemma {:induction false} KeyOrderMembers(listing: seq<DataFile>)
    ensures forall key :: key in KeyOrder(listing) <==>
      exists f :: f in listing && IsTxt(f) && Prefix(f.name) == key
  {
    if listing != [] {
      var init := listing[..|listing| - 1];
      assert listing == init + [listing[|listing| - 1]];
      KeyOrderMembers(init);
    }
  }

  /** Appending one file to the listing extends the list of its compound
      only. */
  lemma FilesStep(listing: seq<DataFile>, i: nat, key: string)
    requires i < |listing|
    ensures var file := listing[i];
      FilesWithPrefix(listing[..i + 1], key) ==
        if IsTxt(file) && Prefix(file.name) == key then FilesWithPrefix(listing[..i], key) + [file]
        else FilesWithPrefix(listing[..i], key)
  {
    assert listing[..i + 1][..i] == listing[..i];
  }

  /** Appending one file opens a new compound when it has none yet. */
  lemma KeyOrderStep(listing: seq<DataFile>, i: nat)
    requires i < |listing|
    ensures var file := listing[i];
      KeyOrder(listing[..i + 1]) ==
        if IsTxt(file) && Prefix(file.name) !in KeyOrder(listing[..i]) then KeyOrder(listing[..i]) + [Prefix(file.name)]
        else KeyOrder(listing[..i])
  {
    assert listing[..i + 1][..i] == listing[..i];
  }

  /** How many files the groups of `keys` hold together. */
  function GroupSizes(keys: seq<string>, listing: seq<DataFile>): nat
  {
    if keys == [] then 0
    else GroupSizes(keys[..|keys| - 1], listing) + |FilesWithPrefix(listing, keys[|keys| - 1])|
  }

  /** Adding a file to one compound's list adds one to the total over any
      list of distinct compounds that names it, and nothing otherwise. */
  lemma {:induction false} GroupSizesBump(keys: seq<string>, before: seq<DataFile>, after: seq<DataFile>, p: string)
    requires Distinct(keys)
    requires forall key :: key != p ==> FilesWithPrefix(after, key) == FilesWithPrefix(before, key)
    requires |FilesWithPrefix(after, p)| == |FilesWithPrefix(before, p)| + 1
    ensures GroupSizes(keys, after) == GroupSizes(keys, before) + (if p in keys then 1 else 0)
  {
    if keys != [] {
      var init := keys[..|keys| - 1];
      var q := keys[|keys| - 1];
      assert keys == init + [q];
      assert Distinct(init);
      assert forall j :: 0 <= j < |init| ==> init[j] == keys[j];
      assert q !in init;
      GroupSizesBump(init, before, after, p);
    }
  }

  /** Grouping partitions the .txt files: every one of them is in the
      group of its own compound and in no other, and the groups together
      hold as many files as the listing has .txt files. */
  lemma {:induction false} GroupsPartitionFiles(listing: seq<DataFile>)
    ensures forall f :: f in listing && IsTxt(f) ==>
      && Prefix(f.name) in KeyOrder(listing)
      && f in FilesWithPrefix(listing, Prefix(f.name))
    ensures forall f, key :: f in FilesWithPrefix(listing, key) ==> key == Prefix(f.name)
    ensures GroupSizes(KeyOrder(listing), listing) == |TxtFiles(listing)|
  {
    KeyOrderMembers(listing);
    forall key
      ensures forall f :: f in FilesWithPrefix(listing, key) <==> f in listing && IsTxt(f) && Prefix(f.name) == key
    {
      FilesWithPrefixMembers(listing, key);
    }
    if listing != [] {
      var init := listing[..|listing| - 1];
      var last := listing[|listing| - 1];
      assert listing == init + [last];
      GroupsPartitionFiles(init);
      var keys := KeyOrder(init);
      if IsTxt(last) {
        var p := Prefix(last.name);
        GroupSizesBump(keys, init, listing, p);
        if p !in keys {
          NoFilesWithPrefix(init, p);
          assert KeyOrder(listing) == keys + [p];
          assert (keys + [p])[..|keys|] == keys;
        }
      } else {
        assert forall key :: FilesWithPrefix(listing, key) == FilesWithPrefix(init, key);
        GroupSizesSame(keys, init, listing);
      }
    }
  }

  /** Totals agree when every compound's list does. */
  lemma {:induction false} GroupSizesSame(keys: seq<string>, before: seq<DataFile>, after: seq<DataFile>)
    requires forall key :: FilesWithPrefix(after, key) == FilesWithPrefix(before, key)
    ensures GroupSizes(keys, after) == GroupSizes(keys, before)
  {
    if keys != [] {
      GroupSizesSame(keys[..|keys| - 1], before, after);
    }
  }

  /** The grouping loop of process_directory: each .txt file is appended to
      the list of its compound, a new compound opening a new list. */
  method GroupByPrefix(listing: seq<DataFile>) returns (order: seq<string>, groups: map<string, seq<DataFile>>)
    ensures order == KeyOrder(listing)
    ensures forall key :: key in groups <==> key in order
    ensures forall key :: key in groups ==> groups[key] == FilesWithPrefix(listing, key)
  {
    order, groups := [], map[];
    for i := 0 to |listing|
      invariant order == KeyOrder(listing[..i])
      invariant forall key :: key in groups <==> key in order
      invariant forall key :: key in groups ==> groups[key] == FilesWithPrefix(listing[..i], key)
    {
      var file := listing[i];
      KeyOrderStep(listing, i);
      var before := groups;
      if IsTxt(file) {
        var compound := Prefix(file.name);
        if compound in groups {
          groups := groups[compound := groups[compound] + [file]];
        } else {
          NoFilesWithPrefix(listing[..i], compound);
          groups := groups[compound := [file]];
          order := order + [compound];
        }
      }
      forall key | key in groups
        ensures groups[key] == FilesWithPrefix(listing[..i + 1], key)
      {
        FilesStep(listing, i, key);
        if key in before {
          assert before[key] == FilesWithPrefix(listing[..i], key);
        }
      }
    }
    assert listing[..|listing|] == listing;
  }

  /** A compound process_directory normalises: one with a known parent mass. */
  predicate Known(key: string)
  {
    key in ParentMasses
  }

  /** Every known compound among `keys` forms a group that can be normalised. */
  ghost predicate GroupsOk(keys: seq<string>, listing: seq<DataFile>, axis: seq<real>)
  {
    forall j :: 0 <= j < |keys| && Known(keys[j]) ==>
      GroupOk(FilesWithPrefix(listing, keys[j]), axis, ParentMasses[keys[j]])
  }

  /** `columns` holds, compound by compound in the order of `keys`, the
      normalised columns of every known compound's group; unknown compounds
      contribute nothing. */
  ghost predicate ColumnsOfGroups(columns: seq<Column>, keys: seq<string>, listing: seq<DataFile>, axis: seq<real>)
    decreases |keys|
  {
    if keys == [] then columns == []
    else
      var init := keys[..|keys| - 1];
      var key := keys[|keys| - 1];
      if !Known(key) then ColumnsOfGroups(columns, init, listing, axis)
      else
        var files := FilesWithPrefix(listing, key);
        var cut := |columns| - |files|;
        && 0 <= cut
        && GroupOk(files, axis, ParentMasses[key])
        && ColumnsOfGroups(columns[..cut], init, listing, axis)
        && GroupColumns(columns[cut..], files, axis, ParentMasses[key])
  }

  lemma ColumnsOfGroupsStep(columns: seq<Column>, group: seq<Column>, keys: seq<string>, i: nat,
                            listing: seq<DataFile>, axis: seq<real>)
    requires i < |keys|
    requires ColumnsOfGroups(columns, keys[..i], listing, axis)
    requires Known(keys[i]) ==> GroupOk(FilesWithPrefix(listing, keys[i]), axis, ParentMasses[keys[i]])
    requires Known(keys[i]) ==> GroupColumns(group, FilesWithPrefix(listing, keys[i]), axis, ParentMasses[keys[i]])
    requires !Known(keys[i]) ==> group == []
    ensures ColumnsOfGroups(columns + group, keys[..i + 1], listing, axis)
  {
    assert keys[..i + 1][..i] == keys[..i];
    assert group == [] ==> columns + group == columns;
    assert (columns + group)[..|columns|] == columns;
    assert (columns + group)[|columns|..] == group;
  }

  lemma GroupsOkStep(keys: seq<string>, listing: seq<DataFile>, axis: seq<real>, i: nat)
    requires i < |keys| && GroupsOk(keys[..i], listing, axis)
    requires Known(keys[i]) ==> GroupOk(FilesWithPrefix(listing, keys[i]), axis, ParentMasses[keys[i]])
    ensures GroupsOk(keys[..i + 1], listing, axis)
  {
    assert forall j :: 0 <= j < i ==> keys[..i + 1][j] == keys[..i][j];
  }

  /** Each column of a normalised group has one value per axis point. */
  lemma GroupColumnsMatchAxis(columns: seq<Column>, files: seq<DataFile>, axis: seq<real>, parentMass: real)
    requires GroupOk(files, axis, parentMass) && GroupColumns(columns, files, axis, parentMass)
    ensures forall k :: 0 <= k < |columns| ==> |columns[k].values| == |axis|
  {
  }

  /** Every column written has one value per point of the axis. */
  lemma {:induction false} ColumnsOfGroupsMatchAxis(columns: seq<Column>, keys: seq<string>,
                                                    listing: seq<DataFile>, axis: seq<real>)
    requires ColumnsOfGroups(columns, keys, listing, axis)
    ensures forall k :: 0 <= k < |columns| ==> |columns[k].values| == |axis|
    decreases |keys|
  {
    if keys != [] {
      var init := keys[..|keys| - 1];
      var key := keys[|keys| - 1];
      if !Known(key) {
        ColumnsOfGroupsMatchAxis(columns, init, listing, axis);
      } else {
        var files := FilesWithPrefix(listing, key);
        var cut := |columns| - |files|;
        var front, back := columns[..cut], columns[cut..];
        ColumnsOfGroupsMatchAxis(front, init, listing, axis);
        GroupColumnsMatchAxis(back, files, axis, ParentMasses[key]);
        forall k | 0 <= k < |columns|
          ensures |columns[k].values| == |axis|
        {
          if k < cut {
            assert columns[k] == front[k];
          } else {
            assert columns[k] == back[k - cut];
          }
        }
      }
    }
  }

  /** The second half of process_directory: every known compound's group
      normalised on the axis, columns appended compound by compound. */
  method NormalizeGroups(listing: seq<DataFile>, order: seq<string>, groups: map<string, seq<DataFile>>,
                         axis: seq<real>) returns (r: Result<seq<Column>>)
    requires forall key :: key in order ==> key in groups && groups[key] == FilesWithPrefix(listing, key)
    ensures r.Ok? <==> GroupsOk(order, listing, axis)
    ensures r.Ok? ==> ColumnsOfGroups(r.value, order, listing, axis)
  {
    var columns: seq<Column> := [];
    for i := 0 to |order|
      invariant ColumnsOfGroups(columns, order[..i], listing, axis)
      invariant GroupsOk(order[..i], listing, axis)
    {
      var key := order[i];
      var group: seq<Column> := [];
      if Known(key) {
        var normalized := NormalizeGroup(groups[key], axis, ParentMasses[key]);
        if normalized.Err? {
          GroupsFailAt(order, listing, axis, i);
          return Err(normalized.error);
        }
        group := normalized.value;
      }
      ColumnsOfGroupsStep(columns, group, order, i, listing, axis);
      GroupsOkStep(order, listing, axis, i);
      columns := columns + group;
    }
    assert order[..|order|] == order;
    r := Ok(columns);
  }

  /** process_directory: group the .txt files by compound, skip compounds
      without a parent mass, normalise each remaining group on the m/z axis
      and write its columns after the axis, compound by compound. The run
      fails exactly when some known compound's group cannot be normalised. */
  method ProcessDirectory(listing: seq<DataFile>) returns (r: Result<Table>)
    ensures r.Ok? <==> GroupsOk(KeyOrder(listing), listing, MassAxis)
    ensures r.Ok? ==> r.value.axisName == "Mass/Charge" && r.value.axis == MassAxis
    ensures r.Ok? ==> ColumnsOfGroups(r.value.columns, KeyOrder(listing), listing, MassAxis)
    ensures r.Ok? ==> ColumnsMatchAxis(r.value)
  {
    var order, groups := GroupByPrefix(listing);
    var columns :- NormalizeGroups(listing, order, groups, MassAxis);
    ColumnsOfGroupsMatchAxis(columns, order, listing, MassAxis);
    r := Ok(Table("Mass/Charge", MassAxis, columns));
  }

  lemma GroupsFailAt(keys: seq<string>, listing: seq<DataFile>, axis: seq<real>, i: nat)
    requires i < |keys| && Known(keys[i])
    requires !GroupOk(FilesWithPrefix(listing, keys[i]), axis, ParentMasses[keys[i]])
    ensures !GroupsOk(keys, listing, axis)
  {
  }
}
