/** `_find_tide_peaks`: strict local maxima ("high tides") and minima ("low
    tides") over the interior of a time-ordered series of water levels. */
module Peaks {
  import opened Samples

  datatype PeakKind = High | Low

  /** Index i is a peak of the given kind: an interior index whose level is
      strictly above (High) or strictly below (Low) both neighbours. The first
      and last index never qualify, and neither does any point of a plateau. */
  predicate IsPeak(v: seq<real>, kind: PeakKind, i: int) {
    1 <= i < |v| - 1 &&
    match kind
    case High => v[i] > v[i - 1] && v[i] > v[i + 1]
    case Low => v[i] < v[i - 1] && v[i] < v[i + 1]
  }

  predicate StrictlyIncreasing(s: seq<int>) {
    forall p, q :: 0 <= p < q < |s| ==> s[p] < s[q]
  }

  /** The peak indices of `kind` found by scanning indices 1 .. hi - 1 in order. */
  function PeaksBelow(v: seq<real>, kind: PeakKind, hi: int): seq<int>
    decreases hi
  {
    if hi <= 1 then []
    else PeaksBelow(v, kind, hi - 1) + (if IsPeak(v, kind, hi - 1) then [hi - 1] else [])
  }

  /** The peak indices of `kind` in the whole series, in increasing order. */
  function PeakIndices(v: seq<real>, kind: PeakKind): seq<int> {
    PeaksBelow(v, kind, |v| - 1)
  }

  lemma {:induction false} PeaksBelowCharacterised(v: seq<real>, kind: PeakKind, hi: int)
    ensures forall i :: i in PeaksBelow(v, kind, hi) <==> i < hi && IsPeak(v, kind, i)
    ensures StrictlyIncreasing(PeaksBelow(v, kind, hi))
    ensures forall p :: 0 <= p < |PeaksBelow(v, kind, hi)| ==> PeaksBelow(v, kind, hi)[p] < hi
    decreases hi
  {
    if hi > 1 {
      PeaksBelowCharacterised(v, kind, hi - 1);
    }
  }

  lemma {:induction false} NoPeaksBelow(v: seq<real>, kind: PeakKind, hi: int)
    requires forall i :: i < hi ==> !IsPeak(v, kind, i)
    ensures PeaksBelow(v, kind, hi) == []
    decreases hi
  {
    if hi > 1 {
      NoPeaksBelow(v, kind, hi - 1);
    }
  }

  /** The scan reports exactly the peaks, each once, in increasing order, and
      never the first or last index. */
  lemma PeakIndicesCharacterised(v: seq<real>, kind: PeakKind)
    ensures forall i :: i in PeakIndices(v, kind) <==> IsPeak(v, kind, i)
    ensures StrictlyIncreasing(PeakIndices(v, kind))
    ensures forall i :: i in PeakIndices(v, kind) ==> 1 <= i <= |v| - 2
    ensures forall p :: 0 <= p < |PeakIndices(v, kind)| ==> 1 <= PeakIndices(v, kind)[p] <= |v| - 2
  {
    PeaksBelowCharacterised(v, kind, |v| - 1);
    var idx := PeakIndices(v, kind);
    assert forall p :: 0 <= p < |idx| ==> idx[p] in idx;
  }

  /** A series of fewer than three readings has no peaks of either kind. */
  lemma ShortSeriesHasNoPeaks(v: seq<real>, kind: PeakKind)
    requires |v| < 3
    ensures PeakIndices(v, kind) == []
  {
    PeaksBelowCharacterised(v, kind, |v| - 1);
  }

  /** No index is both a high and a low peak. */
  lemma HighAndLowDisjoint(v: seq<real>)
    ensures forall i :: !(i in PeakIndices(v, High) && i in PeakIndices(v, Low))
  {
    PeakIndicesCharacterised(v, High);
    PeakIndicesCharacterised(v, Low);
  }

  predicate NonDecreasing(v: seq<real>) {
    forall i :: 0 <= i < |v| - 1 ==> v[i] <= v[i + 1]
  }

  predicate NonIncreasing(v: seq<real>) {
    forall i :: 0 <= i < |v| - 1 ==> v[i] >= v[i + 1]
  }

  /** A monotone series (in particular a constant one) has no peaks at all. */
  lemma MonotoneSeriesHasNoPeaks(v: seq<real>, kind: PeakKind)
    requires NonDecreasing(v) || NonIncreasing(v)
    ensures PeakIndices(v, kind) == []
  {
    forall i ensures !IsPeak(v, kind, i) {
      if 1 <= i < |v| - 1 {
        assert v[i - 1] <= v[i] <= v[i + 1] || v[i - 1] >= v[i] >= v[i + 1];
      }
    }
    NoPeaksBelow(v, kind, |v| - 1);
  }

  /** The two index loops of the extractor: one pass for high peaks, one for
      low peaks, each appending qualifying interior indices in order. */
  method FindTidePeaks(v: seq<real>) returns (high: seq<int>, low: seq<int>)
    ensures high == PeakIndices(v, High)
    ensures low == PeakIndices(v, Low)
  {
    high := [];
    var i := 1;
    while i < |v| - 1
      invariant i == 1 || i <= |v| - 1
      invariant high == PeaksBelow(v, High, i)
    {
      if v[i] > v[i - 1] && v[i] > v[i + 1] {
        high := high + [i];
      }
      i := i + 1;
    }
    low := [];
    i := 1;
    while i < |v| - 1
      invariant i == 1 || i <= |v| - 1
      invariant low == PeaksBelow(v, Low, i)
    {
      if v[i] < v[i - 1] && v[i] < v[i + 1] {
        low := low + [i];
      }
      i := i + 1;
    }
  }

  /** The readings at the given indices, as the extractor reports them. */
  function PeakSamples(series: seq<Sample>, idx: seq<int>): (r: seq<Sample>)
    requires forall p :: 0 <= p < |idx| ==> 0 <= idx[p] < |series|
    ensures |r| == |idx|
    ensures forall p :: 0 <= p < |idx| ==> r[p] == series[idx[p]]
  {
    seq(|idx|, p requires 0 <= p < |idx| => series[idx[p]])
  }

  /** The peak readings of `kind` of a series, in series order. */
  function PeaksOf(series: seq<Sample>, kind: PeakKind): (r: seq<Sample>)
    ensures |r| == |PeakIndices(Levels(series), kind)|
  {
    PeakIndicesCharacterised(Levels(series), kind);
    PeakSamples(series, PeakIndices(Levels(series), kind))
  }

  /** The peaks of a time-ordered series are themselves in time order, and
      the p-th is the reading at the p-th peak index. */
  lemma PeaksOfOrdered(series: seq<Sample>, kind: PeakKind)
    requires SortedByTime(series)
    ensures var idx := PeakIndices(Levels(series), kind);
      (forall p :: 0 <= p < |idx| ==> 1 <= idx[p] <= |series| - 2) &&
      (forall p :: 0 <= p < |idx| ==> PeaksOf(series, kind)[p] == series[idx[p]]) &&
      SortedByTime(PeaksOf(series, kind))
  {
    PeakIndicesCharacterised(Levels(series), kind);
  }

  /** The example series 1.0, 1.2, 1.5, 1.3, 1.1, 1.4 has its only high peak
      at index 2 and its only low peak at index 4. */
  lemma ExamplePeaks()
    ensures PeakIndices([1.0, 1.2, 1.5, 1.3, 1.1, 1.4], High) == [2]
    ensures PeakIndices([1.0, 1.2, 1.5, 1.3, 1.1, 1.4], Low) == [4]
  {
  }
}
