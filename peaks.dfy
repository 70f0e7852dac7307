/** Peak detection as the scripts use scipy.signal.find_peaks: the indices of
    strict local maxima, optionally only those at least a given height. */
module Peaks {
  import opened Common

  /** Index i is a detected peak of x: an interior sample strictly above both
      neighbours, and not below the height threshold when one is given. */
  predicate IsPeak(x: seq<real>, i: int, height: Option<real>)
  {
    && 0 < i < |x| - 1
    && x[i - 1] < x[i]
    && x[i + 1] < x[i]
    && (height.Some? ==> height.value <= x[i])
  }

  predicate StrictlyAscending(r: seq<nat>)
  {
    forall k, l :: 0 <= k < l < |r| ==> r[k] < r[l]
  }

  /** The peaks of x at index `from` or later, in ascending order. */
  function PeaksFrom(x: seq<real>, height: Option<real>, from: nat): (r: seq<nat>)
    decreases |x| - from
    ensures forall k :: 0 <= k < |r| ==> from <= r[k] < |x|
  {
    if |x| <= from then []
    else if IsPeak(x, from, height) then [from] + PeaksFrom(x, height, from + 1)
    else PeaksFrom(x, height, from + 1)
  }

  /** PeaksFrom lists its peaks in ascending order, each once. */
  lemma {:induction false} PeaksFromAscending(x: seq<real>, height: Option<real>, from: nat)
    decreases |x| - from
    ensures StrictlyAscending(PeaksFrom(x, height, from))
  {
    if from < |x| {
      PeaksFromAscending(x, height, from + 1);
      var rest := PeaksFrom(x, height, from + 1);
      if IsPeak(x, from, height) {
        var r := [from] + rest;
        assert forall k :: 1 <= k < |r| ==> r[k] == rest[k - 1];
      }
    }
  }

  /** PeaksFrom lists exactly the peaks at `from` or later. */
  lemma {:induction false} PeaksFromMembers(x: seq<real>, height: Option<real>, from: nat)
    decreases |x| - from
    ensures forall j :: j in PeaksFrom(x, height, from) <==> from <= j && IsPeak(x, j, height)
  {
    if from < |x| {
      PeaksFromMembers(x, height, from + 1);
    }
  }

  /** find_peaks(x, height=height)[0]. */
  function FindPeaks(x: seq<real>, height: Option<real>): (r: seq<nat>)
    ensures forall k :: 0 <= k < |r| ==> r[k] < |x|
  {
    PeaksFrom(x, height, 0)
  }

  /** find_peaks reports every peak index exactly once, in ascending order,
      and nothing else. */
  lemma FindPeaksExact(x: seq<real>, height: Option<real>)
    ensures var r := FindPeaks(x, height);
      && StrictlyAscending(r)
      && forall j :: j in r <==> IsPeak(x, j, height)
  {
    PeaksFromAscending(x, height, 0);
    PeaksFromMembers(x, height, 0);
  }
}
