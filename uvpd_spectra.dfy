/** process_UVPD_mass_Spectra_for_plotting: a two-column mass spectrum is
    read from a .csv or space-separated .txt file, its peaks are detected,
    and every sample is multiplied by one factor: the peak factor at peaks
    near a target m/z, 1 at peaks near an m/z to leave alone, and the
    background factor everywhere else. */
module UvpdSpectra {
  import opened Common
  import opened Peaks

  // ---------------------------------------------------------------------
  // parse_line: str.strip followed by str.split(delimiter)
  // ---------------------------------------------------------------------

  /** Python's str.isspace for one character: the ASCII whitespace and
      separator controls, NEL, no-break space and the Unicode spaces. */
  predicate IsSpace(c: char)
  {
    || c == ' ' || c == '\t' || c == '\n' || c == '\r' || c == '\U{0B}' || c == '\U{0C}'
    || c == '\U{1C}' || c == '\U{1D}' || c == '\U{1E}' || c == '\U{1F}'
    || c == '\U{85}' || c == '\U{A0}' || c == '\U{1680}'
    || ('\U{2000}' <= c <= '\U{200A}')
    || c == '\U{2028}' || c == '\U{2029}' || c == '\U{202F}' || c == '\U{205F}' || c == '\U{3000}'
  }

  /** str.lstrip(): s without its leading whitespace. */
  function StripStart(s: string): (r: string)
    ensures |r| <= |s|
  {
    if |s| > 0 && IsSpace(s[0]) then StripStart(s[1..]) else s
  }

  /** lstrip keeps a suffix of the line, drops only whitespace, and what it
      keeps does not start with whitespace. */
  lemma {:induction false} StripStartShape(s: string)
    ensures var r := StripStart(s);
      && r == s[|s| - |r|..]
      && (forall k :: 0 <= k < |s| - |r| ==> IsSpace(s[k]))
      && (|r| > 0 ==> !IsSpace(r[0]))
  {
    if |s| > 0 && IsSpace(s[0]) {
      var rest := s[1..];
      StripStartShape(rest);
      var r := StripStart(rest);
      assert rest[|rest| - |r|..] == s[|s| - |r|..];
      forall k | 0 <= k < |s| - |r|
        ensures IsSpace(s[k])
      {
        if k > 0 {
          assert s[k] == rest[k - 1];
        }
      }
    }
  }

  /** str.rstrip(): s without its trailing whitespace. */
  function StripEnd(s: string): (r: string)
    ensures |r| <= |s|
  {
    if |s| > 0 && IsSpace(s[|s| - 1]) then StripEnd(s[..|s| - 1]) else s
  }

  /** rstrip keeps a prefix of the line, drops only whitespace, and what it
      keeps does not end with whitespace. */
  lemma {:induction false} StripEndShape(s: string)
    ensures var r := StripEnd(s);
      && r == s[..|r|]
      && (forall k :: |r| <= k < |s| ==> IsSpace(s[k]))
      && (|r| > 0 ==> !IsSpace(r[|r| - 1]))
  {
    if |s| > 0 && IsSpace(s[|s| - 1]) {
      var init := s[..|s| - 1];
      StripEndShape(init);
      var r := StripEnd(init);
      assert init[..|r|] == s[..|r|];
      forall k | |r| <= k < |s|
        ensures IsSpace(s[k])
      {
        if k < |s| - 1 {
          assert s[k] == init[k];
        }
      }
    }
  }

  /** str.strip(): the line with whitespace removed at both ends. */
  function Strip(s: string): (r: string)
  {
    StripEnd(StripStart(s))
  }

  /** strip keeps a contiguous middle of the line, removes only whitespace,
      and leaves no whitespace at either end of what it keeps. */
  lemma StripKeepsMiddle(s: string)
    ensures var r := Strip(s);
      var i := |s| - |StripStart(s)|;
      && i + |r| <= |s| && r == s[i..i + |r|]
      && (forall k :: 0 <= k < i ==> IsSpace(s[k]))
      && (forall k :: i + |r| <= k < |s| ==> IsSpace(s[k]))
      && (|r| > 0 ==> !IsSpace(r[0]) && !IsSpace(r[|r| - 1]))
  {
    var t := StripStart(s);
    var r := StripEnd(t);
    assert Strip(s) == r;
    StripStartShape(s);
    StripEndShape(t);
    MiddleOfLine(s, t, r);
  }

  /** The shape strip leaves: t is s without some leading whitespace and
      with a non-space first character, r is t without some trailing
      whitespace and with a non-space last character. */
  lemma MiddleOfLine(s: string, t: string, r: string)
    requires |t| <= |s| && t == s[|s| - |t|..]
    requires forall k :: 0 <= k < |s| - |t| ==> IsSpace(s[k])
    requires |t| > 0 ==> !IsSpace(t[0])
    requires |r| <= |t| && r == t[..|r|]
    requires forall k :: |r| <= k < |t| ==> IsSpace(t[k])
    requires |r| > 0 ==> !IsSpace(r[|r| - 1])
    ensures var i := |s| - |t|;
      && i + |r| <= |s| && r == s[i..i + |r|]
      && (forall k :: 0 <= k < i ==> IsSpace(s[k]))
      && (forall k :: i + |r| <= k < |s| ==> IsSpace(s[k]))
      && (|r| > 0 ==> !IsSpace(r[0]) && !IsSpace(r[|r| - 1]))
  {
    var i := |s| - |t|;
    forall k | 0 <= k < |r|
      ensures r[k] == s[i + k]
    {
      assert r[k] == t[k];
    }
    TrailingSpaces(s, t, i, |r|);
    if |r| > 0 {
      assert r[0] == t[0];
    }
  }

  /** Whitespace at the end of a suffix of s is whitespace at the end of s. */
  lemma TrailingSpaces(s: string, t: string, i: nat, n: nat)
    requires i <= |s| && t == s[i..] && n <= |t|
    requires forall k :: n <= k < |t| ==> IsSpace(t[k])
    ensures forall k :: i + n <= k < |s| ==> IsSpace(s[k])
  {
    forall k | i + n <= k < |s|
      ensures IsSpace(s[k])
    {
      assert s[k] == t[k - i];
    }
  }

  /** Stripping twice changes nothing more. */
  lemma StripIdempotent(s: string)
    ensures Strip(Strip(s)) == Strip(s)
  {
    var r := Strip(s);
    if |r| > 0 {
      assert !IsSpace(r[0]) && !IsSpace(r[|r| - 1]) by {
        StripKeepsMiddle(s);
      }
    }
  }

  /** The pieces joined back together, delimiter between consecutive ones. */
  function Join(parts: seq<string>, d: char): string
  {
    if |parts| == 0 then ""
    else if |parts| == 1 then parts[0]
    else parts[0] + [d] + Join(parts[1..], d)
  }

  /** str.split(d): the maximal delimiter-free pieces between occurrences of
      d, at least one (an empty string gives one empty piece). */
  function Split(s: string, d: char): (r: seq<string>)
    ensures |r| >= 1
  {
    if |s| == 0 then [""]
    else if s[0] == d then [""] + Split(s[1..], d)
    else
      var rest := Split(s[1..], d);
      [[s[0]] + rest[0]] + rest[1..]
  }

  /** No piece holds the delimiter. */
  lemma {:induction false} SplitPiecesFree(s: string, d: char)
    ensures forall k :: 0 <= k < |Split(s, d)| ==> d !in Split(s, d)[k]
  {
    if |s| > 0 {
      SplitPiecesFree(s[1..], d);
      var rest := Split(s[1..], d);
      var r := Split(s, d);
      if s[0] == d {
        assert forall k :: 1 <= k < |r| ==> r[k] == rest[k - 1];
      } else {
        assert forall k :: 1 <= k < |r| ==> r[k] == rest[k];
        assert r[0] == [s[0]] + rest[0];
      }
    }
  }

  /** Joining the pieces with the delimiter gives back the string. */
  lemma {:induction false} JoinSplit(s: string, d: char)
    ensures Join(Split(s, d), d) == s
  {
    if |s| > 0 {
      JoinSplit(s[1..], d);
      var rest := Split(s[1..], d);
      var r := Split(s, d);
      if s[0] == d {
        assert r[1..] == rest;
        assert s == [d] + s[1..];
      } else {
        assert r[1..] == rest[1..];
        assert s == [s[0]] + s[1..];
        if |rest| > 1 {
          assert Join(rest, d) == rest[0] + [d] + Join(rest[1..], d);
        }
      }
    }
  }

  /** Splitting a piece without the delimiter gives that piece alone. */
  lemma {:induction false} SplitPiece(p: string, d: char)
    requires d !in p
    ensures Split(p, d) == [p]
  {
    if |p| > 0 {
      assert d !in p[1..] by {
        assert forall k :: 0 <= k < |p| - 1 ==> p[1..][k] == p[k + 1];
      }
      SplitPiece(p[1..], d);
      assert [p[0]] + p[1..] == p;
    }
  }

  /** A delimiter-free piece followed by the delimiter splits off as the
      first piece. */
  lemma {:induction false} SplitFirst(p: string, d: char, rest: string)
    requires d !in p
    ensures Split(p + [d] + rest, d) == [p] + Split(rest, d)
  {
    var s := p + [d] + rest;
    if |p| == 0 {
      assert s[0] == d && s[1..] == rest;
    } else {
      assert d !in p[1..] by {
        assert forall k :: 0 <= k < |p| - 1 ==> p[1..][k] == p[k + 1];
      }
      SplitFirst(p[1..], d, rest);
      var tail := Split(s[1..], d);
      assert s[0] == p[0] && s[1..] == p[1..] + [d] + rest;
      assert tail == [p[1..]] + Split(rest, d);
      assert tail[0] == p[1..] && tail[1..] == Split(rest, d);
      assert Split(s, d) == [[p[0]] + tail[0]] + tail[1..];
      assert [p[0]] + p[1..] == p;
    }
  }

  /** Splitting undoes joining: pieces without the delimiter come back as
      they were (the round trip opposite to Split's own ensures). */
  lemma {:induction false} SplitJoin(parts: seq<string>, d: char)
    requires |parts| >= 1
    requires forall k :: 0 <= k < |parts| ==> d !in parts[k]
    ensures Split(Join(parts, d), d) == parts
  {
    if |parts| == 1 {
      SplitPiece(parts[0], d);
    } else {
      SplitJoin(parts[1..], d);
      SplitFirst(parts[0], d, Join(parts[1..], d));
      assert [parts[0]] + parts[1..] == parts;
    }
  }

  /** parse_line: the pieces of the stripped line between delimiters. */
  function ParseLine(line: string, d: char): (r: seq<string>)
    ensures |r| >= 1
  {
    Split(Strip(line), d)
  }

  /** The pieces parse_line returns contain no delimiter and, joined with
      it, give back the stripped line; and a stripped line rebuilt from
      delimiter-free pieces parses back into those pieces. */
  lemma ParseLineRoundTrip(line: string, d: char, parts: seq<string>)
    requires |parts| >= 1 && forall k :: 0 <= k < |parts| ==> d !in parts[k]
    ensures forall k :: 0 <= k < |ParseLine(line, d)| ==> d !in ParseLine(line, d)[k]
    ensures Join(ParseLine(line, d), d) == Strip(line)
    ensures Strip(line) == Join(parts, d) ==> ParseLine(line, d) == parts
  {
    SplitPiecesFree(Strip(line), d);
    JoinSplit(Strip(line), d);
    SplitJoin(parts, d);
  }

  // ---------------------------------------------------------------------
  // process_file: delimiter, rows, peaks, classification, scaling
  // ---------------------------------------------------------------------

  /** The delimiter chosen by the file's extension. */
  function DelimiterFor(filename: string): (r: Result<char>)
    ensures EndsWith(filename, ".csv") ==> r == Ok(',')
    ensures !EndsWith(filename, ".csv") && EndsWith(filename, ".txt") ==> r == Ok(' ')
    ensures r.Ok? <==> EndsWith(filename, ".csv") || EndsWith(filename, ".txt")
    ensures r.Err? ==> r.error == UnsupportedFormat
  {
    if EndsWith(filename, ".csv") then Ok(',')
    else if EndsWith(filename, ".txt") then Ok(' ')
    else Err(UnsupportedFormat)
  }

  /** A name cannot end in both extensions, so the first test never hides
      the second. */
  lemma ExtensionsExclusive(filename: string)
    ensures !(EndsWith(filename, ".csv") && EndsWith(filename, ".txt"))
  {
    if EndsWith(filename, ".csv") {
      assert filename[|filename| - 1] == 'v';
    }
  }

  /** The fields csv.reader yields for one line (no quoting): none for a
      blank line, otherwise the pieces between delimiters. */
  function Fields(line: string, d: char): seq<string>
  {
    if line == [] then [] else Split(line, d)
  }

  /** Why row `row` cannot be read, if it cannot: a field count other than
      2, or a field float() refuses. */
  function RowError(fields: seq<string>, row: nat, toFloat: string -> Option<real>): (r: Option<Error>)
    ensures r.None? <==> |fields| == 2 && toFloat(fields[0]).Some? && toFloat(fields[1]).Some?
  {
    if |fields| != 2 then Some(WrongColumnCount(row))
    else if toFloat(fields[0]).None? || toFloat(fields[1]).None? then Some(NotANumber(row))
    else None
  }

  /** The m/z and intensity columns of a spectrum. */
  datatype Columns = Columns(mz: seq<real>, intensity: seq<real>)

  /** The rows of the file from line `i` on, read in order; the first bad
      row stops the reading. */
  function ReadRows(lines: seq<string>, d: char, toFloat: string -> Option<real>, i: nat): Result<Columns>
    decreases |lines| - i
  {
    if |lines| <= i then Ok(Columns([], []))
    else
      var fields := Fields(lines[i], d);
      match RowError(fields, i, toFloat)
      case Some(e) => Err(e)
      case None =>
        match ReadRows(lines, d, toFloat, i + 1)
        case Err(e) => Err(e)
        case Ok(c) =>
          Ok(Columns([toFloat(fields[0]).value] + c.mz, [toFloat(fields[1]).value] + c.intensity))
  }

  /** The reading loop of process_file: the header (line 0) is skipped, an
      empty file has none. */
  function ReadData(lines: seq<string>, d: char, toFloat: string -> Option<real>): Result<Columns>
  {
    if |lines| == 0 then Err(MissingHeader) else ReadRows(lines, d, toFloat, 1)
  }

  /** Line k's row can be read. */
  predicate RowOk(lines: seq<string>, d: char, toFloat: string -> Option<real>, k: nat)
    requires k < |lines|
  {
    RowError(Fields(lines[k], d), k, toFloat).None?
  }

  /** Reading from line i succeeds exactly when every row from i on can be
      read. */
  lemma {:induction false} ReadRowsSucceeds(lines: seq<string>, d: char, toFloat: string -> Option<real>, i: nat)
    requires i <= |lines|
    decreases |lines| - i
    ensures ReadRows(lines, d, toFloat, i).Ok? <==> forall k :: i <= k < |lines| ==> RowOk(lines, d, toFloat, k)
  {
    if i < |lines| {
      ReadRowsSucceeds(lines, d, toFloat, i + 1);
      if RowOk(lines, d, toFloat, i) {
        assert ReadRows(lines, d, toFloat, i).Ok? == ReadRows(lines, d, toFloat, i + 1).Ok?;
      } else {
        assert ReadRows(lines, d, toFloat, i).Err?;
      }
    }
  }

  /** A successful read holds one m/z and one intensity per row from line
      i on, in row order: the two numbers of that row. */
  lemma {:induction false} ReadRowsValues(lines: seq<string>, d: char, toFloat: string -> Option<real>, i: nat)
    requires i <= |lines|
    requires ReadRows(lines, d, toFloat, i).Ok?
    decreases |lines| - i
    ensures var c := ReadRows(lines, d, toFloat, i).value;
      && |c.mz| == |c.intensity| == |lines| - i
      && forall k :: i <= k < |lines| ==>
           && RowOk(lines, d, toFloat, k)
           && c.mz[k - i] == toFloat(Fields(lines[k], d)[0]).value
           && c.intensity[k - i] == toFloat(Fields(lines[k], d)[1]).value
  {
    if i < |lines| {
      assert RowOk(lines, d, toFloat, i);
      ReadRowsValues(lines, d, toFloat, i + 1);
      var c := ReadRows(lines, d, toFloat, i).value;
      var rest := ReadRows(lines, d, toFloat, i + 1).value;
      var fields := Fields(lines[i], d);
      assert c.mz == [toFloat(fields[0]).value] + rest.mz;
      assert c.intensity == [toFloat(fields[1]).value] + rest.intensity;
      forall k | i <= k < |lines|
        ensures && RowOk(lines, d, toFloat, k)
                && c.mz[k - i] == toFloat(Fields(lines[k], d)[0]).value
                && c.intensity[k - i] == toFloat(Fields(lines[k], d)[1]).value
      {
        if i < k {
          assert c.mz[k - i] == rest.mz[k - (i + 1)];
          assert c.intensity[k - i] == rest.intensity[k - (i + 1)];
        }
      }
    }
  }

  /** A failed read reports the error of the first row from line i on that
      cannot be read. */
  lemma {:induction false} ReadRowsFirstError(lines: seq<string>, d: char, toFloat: string -> Option<real>, i: nat)
    requires i <= |lines|
    requires ReadRows(lines, d, toFloat, i).Err?
    decreases |lines| - i
    ensures exists k ::
      && i <= k < |lines|
      && (forall j :: i <= j < k ==> RowOk(lines, d, toFloat, j))
      && RowError(Fields(lines[k], d), k, toFloat) == Some(ReadRows(lines, d, toFloat, i).error)
  {
    if RowOk(lines, d, toFloat, i) {
      ReadRowsFirstError(lines, d, toFloat, i + 1);
      var e := ReadRows(lines, d, toFloat, i + 1).error;
      var k :| i + 1 <= k < |lines|
        && (forall j :: i + 1 <= j < k ==> RowOk(lines, d, toFloat, j))
        && RowError(Fields(lines[k], d), k, toFloat) == Some(e);
      assert forall j :: i <= j < k ==> RowOk(lines, d, toFloat, j);
    }
  }

  /** When rows 1 to i - 1 can be read and row i cannot, reading stops at
      row i with that row's error. */
  lemma FirstBadRow(lines: seq<string>, d: char, toFloat: string -> Option<real>, i: nat)
    requires 1 <= i < |lines|
    requires forall j :: 1 <= j < i ==> RowOk(lines, d, toFloat, j)
    requires !RowOk(lines, d, toFloat, i)
    ensures ReadData(lines, d, toFloat) == Err(RowError(Fields(lines[i], d), i, toFloat).value)
  {
    ReadRowsSucceeds(lines, d, toFloat, 1);
    ReadRowsFirstError(lines, d, toFloat, 1);
    var r := ReadData(lines, d, toFloat);
    var k :| 1 <= k < |lines|
      && (forall j :: 1 <= j < k ==> RowOk(lines, d, toFloat, j))
      && RowError(Fields(lines[k], d), k, toFloat) == Some(r.error);
    assert !RowOk(lines, d, toFloat, k);
    assert k <= i;
    assert i <= k;
  }

  /** The reading loop, as process_file runs it: skip the header, then one
      row per line, each split into exactly two numbers appended in order. */
  method ReadColumns(lines: seq<string>, d: char, toFloat: string -> Option<real>) returns (r: Result<Columns>)
    ensures r == ReadData(lines, d, toFloat)
    ensures r.Ok? ==> |r.value.mz| == |r.value.intensity| == |lines| - 1
  {
    if |lines| == 0 {
      return Err(MissingHeader);
    }
    var mz: seq<real> := [];
    var intensity: seq<real> := [];
    for i := 1 to |lines|
      invariant |mz| == |intensity| == i - 1
      invariant forall k :: 1 <= k < i ==>
        && RowOk(lines, d, toFloat, k)
        && mz[k - 1] == toFloat(Fields(lines[k], d)[0]).value
        && intensity[k - 1] == toFloat(Fields(lines[k], d)[1]).value
    {
      var row := Fields(lines[i], d);
      if |row| != 2 {
        FirstBadRow(lines, d, toFloat, i);
        return Err(WrongColumnCount(i));
      }
      var x := toFloat(row[0]);
      var y := toFloat(row[1]);
      if x.None? || y.None? {
        FirstBadRow(lines, d, toFloat, i);
        return Err(NotANumber(i));
      }
      assert RowOk(lines, d, toFloat, i);
      mz := mz + [x.value];
      intensity := intensity + [y.value];
    }
    AllRowsRead(lines, d, toFloat, mz, intensity);
    r := Ok(Columns(mz, intensity));
  }

  /** Columns holding, for every data row in order, that row's two numbers
      are what reading the file gives. */
  lemma AllRowsRead(lines: seq<string>, d: char, toFloat: string -> Option<real>, mz: seq<real>, intensity: seq<real>)
    requires 0 < |lines|
    requires |mz| == |intensity| == |lines| - 1
    requires forall k :: 1 <= k < |lines| ==>
      && RowOk(lines, d, toFloat, k)
      && mz[k - 1] == toFloat(Fields(lines[k], d)[0]).value
      && intensity[k - 1] == toFloat(Fields(lines[k], d)[1]).value
    ensures ReadData(lines, d, toFloat) == Ok(Columns(mz, intensity))
  {
    ReadRowsSucceeds(lines, d, toFloat, 1);
    ReadRowsValues(lines, d, toFloat, 1);
    var c := ReadRows(lines, d, toFloat, 1).value;
    forall n | 0 <= n < |mz|
      ensures mz[n] == c.mz[n] && intensity[n] == c.intensity[n]
    {
      assert RowOk(lines, d, toFloat, n + 1);
    }
    assert mz == c.mz && intensity == c.intensity;
  }

  /** `any(abs(mz - t) <= tolerance for t in list)`. */
  predicate Near(mz: real, list: seq<real>, tolerance: real)
  {
    exists k :: 0 <= k < |list| && Abs(mz - list[k]) <= tolerance
  }

  /** The peaks near a target m/z, in peak order. */
  function TargetPeaks(mz: seq<real>, peaks: seq<nat>, targets: seq<real>, tolerance: real): seq<nat>
    requires forall k :: 0 <= k < |peaks| ==> peaks[k] < |mz|
  {
    if peaks == [] then []
    else
      var init := TargetPeaks(mz, peaks[..|peaks| - 1], targets, tolerance);
      var p := peaks[|peaks| - 1];
      if Near(mz[p], targets, tolerance) then init + [p] else init
  }

  /** The peaks near no target but near an m/z to leave alone, in peak order. */
  function IgnoredPeaks(mz: seq<real>, peaks: seq<nat>, targets: seq<real>, ignores: seq<real>,
                        tolerance: real): seq<nat>
    requires forall k :: 0 <= k < |peaks| ==> peaks[k] < |mz|
  {
    if peaks == [] then []
    else
      var init := IgnoredPeaks(mz, peaks[..|peaks| - 1], targets, ignores, tolerance);
      var p := peaks[|peaks| - 1];
      if !Near(mz[p], targets, tolerance) && Near(mz[p], ignores, tolerance) then init + [p] else init
  }

  /** Target is tested first: a peak is a target exactly when it is near a
      target m/z, and ignored exactly when it is near no target but near an
      m/z to leave alone; so no peak is both. */
  lemma {:induction false} ClassificationMembers(mz: seq<real>, peaks: seq<nat>, targets: seq<real>,
                                                 ignores: seq<real>, tolerance: real)
    requires forall k :: 0 <= k < |peaks| ==> peaks[k] < |mz|
    ensures forall i :: i in TargetPeaks(mz, peaks, targets, tolerance) <==>
      i in peaks && Near(mz[i], targets, tolerance)
    ensures forall i :: i in IgnoredPeaks(mz, peaks, targets, ignores, tolerance) <==>
      i in peaks && !Near(mz[i], targets, tolerance) && Near(mz[i], ignores, tolerance)
  {
    if peaks != [] {
      var init := peaks[..|peaks| - 1];
      assert peaks == init + [peaks[|peaks| - 1]];
      ClassificationMembers(mz, init, targets, ignores, tolerance);
    }
  }

  /** The classification loop of process_file over the detected peaks. */
  method ClassifyPeaks(mz: seq<real>, peaks: seq<nat>, targets: seq<real>, ignores: seq<real>, tolerance: real)
    returns (targetIndices: seq<nat>, ignoreIndices: seq<nat>)
    requires forall k :: 0 <= k < |peaks| ==> peaks[k] < |mz|
    ensures targetIndices == TargetPeaks(mz, peaks, targets, tolerance)
    ensures ignoreIndices == IgnoredPeaks(mz, peaks, targets, ignores, tolerance)
  {
    targetIndices, ignoreIndices := [], [];
    for i := 0 to |peaks|
      invariant targetIndices == TargetPeaks(mz, peaks[..i], targets, tolerance)
      invariant ignoreIndices == IgnoredPeaks(mz, peaks[..i], targets, ignores, tolerance)
    {
      assert peaks[..i + 1][..i] == peaks[..i];
      var peak := peaks[i];
      if Near(mz[peak], targets, tolerance) {
        targetIndices := targetIndices + [peak];
      } else if Near(mz[peak], ignores, tolerance) {
        ignoreIndices := ignoreIndices + [peak];
      }
    }
    assert peaks[..|peaks|] == peaks;
  }

  /** The factor the scaling loop applies at index i. */
  function Factor(i: nat, targetIndices: seq<nat>, ignoreIndices: seq<nat>,
                  peakFactor: real, backgroundFactor: real): real
  {
    if i in targetIndices then peakFactor
    else if i in ignoreIndices then 1.0
    else backgroundFactor
  }

  /** The scaling loop: a copy of the intensities, each multiplied in place
      by its factor; the input array is left as it was. */
  method ScaleIntensities(intensity: array<real>, targetIndices: seq<nat>, ignoreIndices: seq<nat>,
                          peakFactor: real, backgroundFactor: real) returns (scaled: array<real>)
    ensures fresh(scaled) && scaled.Length == intensity.Length
    ensures forall i :: 0 <= i < intensity.Length ==>
      scaled[i] == intensity[i] * Factor(i, targetIndices, ignoreIndices, peakFactor, backgroundFactor)
  {
    scaled := new real[intensity.Length];
    for j := 0 to intensity.Length
      invariant forall k :: 0 <= k < j ==> scaled[k] == intensity[k]
    {
      scaled[j] := intensity[j];
    }
    for i := 0 to scaled.Length
      invariant forall k :: 0 <= k < i ==>
        scaled[k] == ScaledSample(intensity[k], k, targetIndices, ignoreIndices, peakFactor, backgroundFactor)
      invariant forall k :: i <= k < scaled.Length ==> scaled[k] == intensity[k]
    {
      var x := scaled[i];
      if i in targetIndices {
        scaled[i] := x * peakFactor;
      } else if i in ignoreIndices {
        scaled[i] := x * 1.0;
      } else {
        scaled[i] := x * backgroundFactor;
      }
    }
    forall i | 0 <= i < intensity.Length
      ensures scaled[i] == intensity[i] * Factor(i, targetIndices, ignoreIndices, peakFactor, backgroundFactor)
    {
      ScaledSampleIsProduct(intensity[i], i, targetIndices, ignoreIndices, peakFactor, backgroundFactor);
    }
  }

  /** One step of the scaling loop: the sample multiplied by the factor of
      the first list its index is in. */
  function ScaledSample(x: real, i: nat, targetIndices: seq<nat>, ignoreIndices: seq<nat>,
                        peakFactor: real, backgroundFactor: real): real
  {
    if i in targetIndices then x * peakFactor
    else if i in ignoreIndices then x * 1.0
    else x * backgroundFactor
  }

  lemma ScaledSampleIsProduct(x: real, i: nat, targetIndices: seq<nat>, ignoreIndices: seq<nat>,
                              peakFactor: real, backgroundFactor: real)
    ensures ScaledSample(x, i, targetIndices, ignoreIndices, peakFactor, backgroundFactor)
      == x * Factor(i, targetIndices, ignoreIndices, peakFactor, backgroundFactor)
  {
  }

  /** The factor process_file applies at sample i, stated without the index
      lists: the peak factor at a detected peak near a target m/z, 1 at a
      detected peak near an m/z to leave alone (and no target), the
      background factor everywhere else. */
  function SampleFactor(data: Columns, i: nat, targets: seq<real>, ignores: seq<real>, tolerance: real,
                        height: Option<real>, peakFactor: real, backgroundFactor: real): real
    requires i < |data.mz| == |data.intensity|
  {
    if IsPeak(data.intensity, i, height) && Near(data.mz[i], targets, tolerance) then peakFactor
    else if IsPeak(data.intensity, i, height) && Near(data.mz[i], ignores, tolerance) then 1.0
    else backgroundFactor
  }

  /** The factor the scaling loop applies, read off the classified peak
      lists, is the factor the sample's own peak status calls for. */
  lemma ClassifiedFactor(data: Columns, i: nat, targets: seq<real>, ignores: seq<real>, tolerance: real,
                         height: Option<real>, peakFactor: real, backgroundFactor: real)
    requires i < |data.mz| == |data.intensity|
    ensures var peaks := FindPeaks(data.intensity, height);
      Factor(i, TargetPeaks(data.mz, peaks, targets, tolerance),
             IgnoredPeaks(data.mz, peaks, targets, ignores, tolerance), peakFactor, backgroundFactor)
      == SampleFactor(data, i, targets, ignores, tolerance, height, peakFactor, backgroundFactor)
  {
    var peaks := FindPeaks(data.intensity, height);
    FindPeaksExact(data.intensity, height);
    ClassificationMembers(data.mz, peaks, targets, ignores, tolerance);
  }

  /** `scaled` is the intensity column of `data` with each sample multiplied
      by its factor. */
  predicate ScaledBy(scaled: seq<real>, data: Columns, targets: seq<real>, ignores: seq<real>, tolerance: real,
                     height: Option<real>, peakFactor: real, backgroundFactor: real)
    requires |data.mz| == |data.intensity|
  {
    && |scaled| == |data.intensity|
    && forall i :: 0 <= i < |scaled| ==>
         scaled[i] == data.intensity[i] * SampleFactor(data, i, targets, ignores, tolerance, height, peakFactor, backgroundFactor)
  }

  /** The peak detection, classification and scaling steps of process_file
      on columns already read: each intensity is multiplied by its sample's
      factor. */
  method ScaleSpectrum(data: Columns, targets: seq<real>, ignores: seq<real>, tolerance: real,
                       height: Option<real>, peakFactor: real, backgroundFactor: real)
    returns (scaled: seq<real>)
    requires |data.mz| == |data.intensity|
    ensures ScaledBy(scaled, data, targets, ignores, tolerance, height, peakFactor, backgroundFactor)
  {
    var n := |data.intensity|;
    var peaks := FindPeaks(data.intensity, height);
    var targetIndices, ignoreIndices := ClassifyPeaks(data.mz, peaks, targets, ignores, tolerance);
    var values := new real[n](i requires 0 <= i < n => data.intensity[i]);
    var result := ScaleIntensities(values, targetIndices, ignoreIndices, peakFactor, backgroundFactor);
    scaled := result[..];
    assert forall i :: 0 <= i < |scaled| ==>
      scaled[i] == data.intensity[i] * Factor(i, targetIndices, ignoreIndices, peakFactor, backgroundFactor);
    ScaledByClassification(scaled, data, targets, ignores, tolerance, height, peakFactor, backgroundFactor);
  }

  /** Scaling each sample by the factor its classified index lists give is
      scaling it by its sample's factor. */
  lemma ScaledByClassification(scaled: seq<real>, data: Columns, targets: seq<real>, ignores: seq<real>,
                               tolerance: real, height: Option<real>, peakFactor: real, backgroundFactor: real)
    requires |scaled| == |data.mz| == |data.intensity|
    requires var peaks := FindPeaks(data.intensity, height);
      forall i :: 0 <= i < |scaled| ==>
        scaled[i] == data.intensity[i] * Factor(i, TargetPeaks(data.mz, peaks, targets, tolerance),
                                                IgnoredPeaks(data.mz, peaks, targets, ignores, tolerance),
                                                peakFactor, backgroundFactor)
    ensures ScaledBy(scaled, data, targets, ignores, tolerance, height, peakFactor, backgroundFactor)
  {
    forall i | 0 <= i < |scaled|
      ensures scaled[i] == data.intensity[i] * SampleFactor(data, i, targets, ignores, tolerance, height, peakFactor, backgroundFactor)
    {
      ClassifiedFactor(data, i, targets, ignores, tolerance, height, peakFactor, backgroundFactor);
    }
  }

  /** process_file, on the lines of the file: choose the delimiter, read the
      columns, then scale the intensities. The m/z column comes back as
      read, and each intensity multiplied by its sample's factor. */
  method ProcessFile(filename: string, lines: seq<string>, toFloat: string -> Option<real>,
                     ignores: seq<real>, targets: seq<real>, peakFactor: real, backgroundFactor: real,
                     tolerance: real, height: Option<real>) returns (r: Result<Columns>)
    ensures DelimiterFor(filename).Err? ==> r == Err(UnsupportedFormat)
    ensures DelimiterFor(filename).Ok? ==>
      var data := ReadData(lines, DelimiterFor(filename).value, toFloat);
      && (data.Err? ==> r == Err(data.error))
      && (data.Ok? ==>
            && |data.value.mz| == |data.value.intensity|
            && r.Ok?
            && r.value.mz == data.value.mz
            && ScaledBy(r.value.intensity, data.value, targets, ignores, tolerance, height, peakFactor, backgroundFactor))
  {
    var delimiter := DelimiterFor(filename);
    if delimiter.Err? {
      return Err(UnsupportedFormat);
    }
    var data := ReadColumns(lines, delimiter.value, toFloat);
    if data.Err? {
      return Err(data.error);
    }
    var scaled := ScaleSpectrum(data.value, targets, ignores, tolerance, height, peakFactor, backgroundFactor);
    r := Ok(Columns(data.value.mz, scaled));
  }
}
