/** Shared vocabulary of the three scripts: optional values, the error kinds
    the scripts raise (or, for a division by zero, would produce as NaN or
    infinity), and the numeric helpers numpy supplies (sum, maximum, absolute
    value) written over exact reals. */
module Common {

  datatype Option<+T> = None | Some(value: T)

  /** Every way a run of one of the scripts stops instead of producing a
      table. Row numbers count the header as row 0. */
  datatype Error =
    | LengthMismatch          // interp1d: x and y columns of different length
    | TooFewPoints            // interp1d: fewer than two samples
    | UnsortedCoordinates     // coordinates not strictly increasing
    | EmptySeries             // np.max / max() of nothing
    | ZeroMaximum             // dividing a series by a maximum of 0
    | NoPeakFound             // argmin over an empty peak list
    | ZeroReferenceHeight     // dividing by a reference peak height of 0
    | UnsupportedFormat       // file extension other than .csv or .txt
    | MissingHeader           // next(reader) on an empty file
    | WrongColumnCount(row: nat)
    | NotANumber(row: nat)

  datatype Result<+T> = Ok(value: T) | Err(error: Error) {
    predicate IsFailure() { Err? }

    function PropagateFailure<U>(): Result<U>
      requires Err?
    {
      Err(error)
    }

    function Extract(): T
      requires Ok?
    {
      value
    }
  }

  function Abs(x: real): (r: real)
    ensures 0.0 <= r && (r == x || r == -x)
  {
    if x < 0.0 then -x else x
  }

  /** np.sum, left to right. */
  function Sum(s: seq<real>): real
  {
    if |s| == 0 then 0.0 else s[0] + Sum(s[1..])
  }

  /** Every element multiplied by the same factor (numpy broadcasting). */
  function Scale(s: seq<real>, c: real): (r: seq<real>)
    ensures |r| == |s|
  {
    seq(|s|, i requires 0 <= i < |s| => s[i] * c)
  }

  /** A sequence whose entries are those of s times c sums to Sum(s) * c. */
  lemma {:induction false} SumScale(r: seq<real>, s: seq<real>, c: real)
    requires |r| == |s|
    requires forall i :: 0 <= i < |s| ==> r[i] == s[i] * c
    ensures Sum(r) == Sum(s) * c
  {
    if |s| > 0 {
      SumScale(r[1..], s[1..], c);
      assert r[0] + Sum(r[1..]) == s[0] * c + Sum(s[1..]) * c;
    }
  }

  /** Every element divided by the same non-zero divisor (numpy broadcasting). */
  function Divide(s: seq<real>, d: real): (r: seq<real>)
    requires d != 0.0
    ensures |r| == |s|
  {
    seq(|s|, i requires 0 <= i < |s| => s[i] / d)
  }

  lemma {:induction false} SumDivide(s: seq<real>, d: real)
    requires d != 0.0
    ensures Sum(Divide(s, d)) == Sum(s) / d
  {
    if |s| > 0 {
      forall i | 0 <= i < |s| - 1
        ensures Divide(s, d)[1..][i] == Divide(s[1..], d)[i]
      {
        assert Divide(s, d)[i + 1] == s[i + 1] / d;
      }
      assert Divide(s, d)[1..] == Divide(s[1..], d);
      SumDivide(s[1..], d);
      DivAdd(s[0], Sum(s[1..]), d);
    }
  }

  lemma DivAdd(a: real, b: real, d: real)
    requires d != 0.0
    ensures a / d + b / d == (a + b) / d
  {
  }

  lemma DivAtMostOne(a: real, m: real)
    requires a <= m && 0.0 < m
    ensures a / m <= 1.0
  {
  }

  lemma DivNonNegative(a: real, m: real)
    requires 0.0 <= a && 0.0 < m
    ensures 0.0 <= a / m
  {
  }

  lemma DivTimes(a: real, d: real)
    requires d != 0.0
    ensures a / d * d == a
  {
  }

  /** Multiplying back by d undoes a division by d. */
  lemma ScaleUndoesDivide(s: seq<real>, d: real)
    requires d != 0.0
    ensures Scale(Divide(s, d), d) == s
  {
    var r := Scale(Divide(s, d), d);
    forall i | 0 <= i < |s|
      ensures r[i] == s[i]
    {
      DivTimes(s[i], d);
    }
  }

  lemma DivSelf(m: real)
    requires m != 0.0
    ensures m / m == 1.0
  {
  }

  lemma MulNonNegative(a: real, b: real)
    requires 0.0 <= a && 0.0 <= b
    ensures 0.0 <= a * b
  {
  }

  lemma {:induction false} SumNonNegative(s: seq<real>)
    requires forall i :: 0 <= i < |s| ==> 0.0 <= s[i]
    ensures 0.0 <= Sum(s)
  {
    if |s| > 0 {
      SumNonNegative(s[1..]);
    }
  }

  predicate NonNegative(s: seq<real>)
  {
    forall i :: 0 <= i < |s| ==> 0.0 <= s[i]
  }

  predicate AllZero(s: seq<real>)
  {
    forall i :: 0 <= i < |s| ==> s[i] == 0.0
  }

  /** np.max and Python's max(): the largest element of a non-empty series. */
  function Max(s: seq<real>): (m: real)
    requires |s| > 0
    ensures m in s
    ensures forall i :: 0 <= i < |s| ==> s[i] <= m
  {
    if |s| == 1 then s[0]
    else
      var m := Max(s[..|s| - 1]);
      if m < s[|s| - 1] then s[|s| - 1] else m
  }

  /** Python's str.endswith. */
  predicate EndsWith(s: string, suffix: string)
  {
    |suffix| <= |s| && s[|s| - |suffix|..] == suffix
  }

  /** A named column of the output spreadsheet. */
  datatype Column = Column(name: string, values: seq<real>)

  /** The spreadsheet a script writes: the shared axis under its header,
      then one column per processed file. */
  datatype Table = Table(axisName: string, axis: seq<real>, columns: seq<Column>)

  predicate ColumnsMatchAxis(t: Table)
  {
    forall k :: 0 <= k < |t.columns| ==> |t.columns[k].values| == |t.axis|
  }

  /** One exported data file of a directory listing, after its two columns
      (coordinate and intensity) have been read. */
  datatype DataFile = DataFile(name: string, coords: seq<real>, intensity: seq<real>)

  predicate IsTxt(f: DataFile)
  {
    EndsWith(f.name, ".txt")
  }

  /** The files of a listing that `file.endswith('.txt')` keeps, in listing order. */
  function TxtFiles(listing: seq<DataFile>): (r: seq<DataFile>)
    ensures |r| <= |listing|
    ensures forall f :: f in r <==> f in listing && IsTxt(f)
  {
    if listing == [] then []
    else
      var init := TxtFiles(listing[..|listing| - 1]);
      var last := listing[|listing| - 1];
      assert listing == listing[..|listing| - 1] + [last];
      if IsTxt(last) then init + [last] else init
  }
}
