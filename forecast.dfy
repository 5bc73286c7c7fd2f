/** `_predict_next_peak`: extrapolates the next peak of one kind from the mean gap
    between consecutive detected peaks and the mean level of the latest
    ones. */
module Forecast {
  import opened Wrappers
  import opened Samples
  import opened Peaks
  import opened Statistics

  /** How many of the latest peaks the predicted level averages. */
  const RecentPeakCount: nat := 3

  /** A predicted peak. Its time is an exact instant in milliseconds; the
      confidence label is fixed. */
  datatype PeakForecast = PeakForecast(time: real, predictedLevel: real, kind: PeakKind, confidence: string)

  /** Sum of the consecutive differences t[1] - t[0], ..., t[n-1] - t[n-2]. */
  function GapSum(t: seq<int>): int {
    if |t| < 2 then 0 else GapSum(t[..|t| - 1]) + (t[|t| - 1] - t[|t| - 2])
  }

  /** Mean of the consecutive differences of at least two timestamps. */
  function MeanCycle(t: seq<int>): real
    requires |t| >= 2
  {
    (GapSum(t) as real) / ((|t| - 1) as real)
  }

  /** The consecutive differences telescope to last minus first. */
  lemma {:induction false} GapSumTelescopes(t: seq<int>)
    requires |t| >= 1
    ensures GapSum(t) == t[|t| - 1] - t[0]
    decreases |t|
  {
    if |t| >= 2 {
      GapSumTelescopes(t[..|t| - 1]);
    }
  }

  /** The last peak's time plus the mean cycle between peaks. */
  function NextPeakTime(peaks: seq<Sample>): real
    requires |peaks| >= 2
  {
    (peaks[|peaks| - 1].timestamp as real) + MeanCycle(Times(peaks))
  }

  /** The levels of the latest min(3, k) peaks. */
  function RecentPeakLevels(peaks: seq<Sample>): (r: seq<real>)
    ensures |peaks| > 0 ==> |r| > 0
    ensures |r| == if |peaks| < RecentPeakCount then |peaks| else RecentPeakCount
    ensures forall j :: 0 <= j < |r| ==> r[j] == peaks[|peaks| - |r| + j].level
  {
    var n := if |peaks| < RecentPeakCount then |peaks| else RecentPeakCount;
    Levels(peaks)[|peaks| - n..]
  }

  /** No forecast from fewer than two peaks; otherwise the last peak's time
      plus the mean cycle, at the mean level of the latest peaks. */
  function PredictNextPeak(peaks: seq<Sample>, kind: PeakKind): (r: Option<PeakForecast>)
    ensures r.None? <==> |peaks| < 2
    ensures r.Some? ==> r.value.kind == kind && r.value.confidence == "medium"
    ensures r.Some? ==> r.value.predictedLevel == Mean(RecentPeakLevels(peaks))
  {
    if |peaks| < 2 then None
    else
      Some(PeakForecast(
        NextPeakTime(peaks),
        Mean(RecentPeakLevels(peaks)),
        kind,
        "medium"))
  }

  /** The predicted time is t_last + (t_last - t_first) / (k - 1). */
  lemma ForecastTime(peaks: seq<Sample>, kind: PeakKind)
    requires |peaks| >= 2
    ensures var first, last := peaks[0].timestamp, peaks[|peaks| - 1].timestamp;
      PredictNextPeak(peaks, kind).value.time
        == (last as real) + ((last - first) as real) / ((|peaks| - 1) as real)
  {
    NextPeakTimeTelescopes(peaks);
  }

  lemma NextPeakTimeTelescopes(peaks: seq<Sample>)
    requires |peaks| >= 2
    ensures var first, last := peaks[0].timestamp, peaks[|peaks| - 1].timestamp;
      NextPeakTime(peaks) == (last as real) + ((last - first) as real) / ((|peaks| - 1) as real)
  {
    var t := Times(peaks);
    GapSumTelescopes(t);
    assert GapSum(t) == peaks[|peaks| - 1].timestamp - peaks[0].timestamp;
  }

  /** For peaks in time order the forecast is never before the last peak,
      and strictly after it unless the first and last peak share a timestamp. */
  lemma ForecastNotBeforeLastPeak(peaks: seq<Sample>, kind: PeakKind)
    requires |peaks| >= 2 && SortedByTime(peaks)
    ensures var last := peaks[|peaks| - 1].timestamp;
      PredictNextPeak(peaks, kind).value.time >= last as real &&
      (peaks[0].timestamp < last ==> PredictNextPeak(peaks, kind).value.time > last as real)
  {
    assert PredictNextPeak(peaks, kind).value.time == NextPeakTime(peaks);
    NextPeakTimeTelescopes(peaks);
    var first, last := peaks[0].timestamp, peaks[|peaks| - 1].timestamp;
    assert first <= last;
    QuotientSign((last - first) as real, (|peaks| - 1) as real);
  }

  lemma QuotientSign(d: real, m: real)
    requires m > 0.0
    ensures d >= 0.0 ==> d / m >= 0.0
    ensures d > 0.0 ==> d / m > 0.0
  {
  }

  /** The predicted level lies between the lowest and highest of the latest
      peak levels it averages. */
  lemma ForecastLevelWithinRecentPeaks(peaks: seq<Sample>, kind: PeakKind)
    requires |peaks| >= 2
    ensures var recent := RecentPeakLevels(peaks);
      Min(recent) <= PredictNextPeak(peaks, kind).value.predictedLevel <= Max(recent)
  {
    MeanBetweenMinAndMax(RecentPeakLevels(peaks));
  }

  /** When the latest peaks all stand at the same level, that level is the
      predicted one. */
  lemma ForecastLevelOfEqualPeaks(peaks: seq<Sample>, kind: PeakKind, v: real)
    requires |peaks| >= 2
    requires forall i :: |peaks| - |RecentPeakLevels(peaks)| <= i < |peaks| ==> peaks[i].level == v
    ensures PredictNextPeak(peaks, kind).value.predictedLevel == v
  {
    var recent := RecentPeakLevels(peaks);
    assert forall j :: 0 <= j < |recent| ==> recent[j] == peaks[|peaks| - |recent| + j].level;
    MeanBounds(recent, v, v);
  }
}
