/** `process_station_data`: validates one station's raw batch, builds the
    ordered series and composes peaks, forecasts, alert, trend, statistics and
    the recent window into one result. `process_all_stations` maps that over a
    batch of stations. */
module Processor {
  import opened Wrappers
  import opened Config
  import opened Samples
  import opened Peaks
  import opened Forecast
  import opened Alerts
  import opened Trend
  import opened Statistics

  /** How many of the latest readings the result carries for display. */
  const DataPointLimit: nat := 48

  /** A raw batch as the acquisition layer delivers it. A missing or empty
      station id is None or Some(""); a missing sample list is []. */
  datatype RawStationData = RawStationData(stationId: Option<string>, points: seq<Sample>)

  /** The analytic snapshot of one station. `lastUpdated` is the clock
      reading supplied by the caller. */
  datatype StationResult = StationResult(
    stationId: string,
    info: StationConfig,
    current: Sample,
    nextHighTide: Option<PeakForecast>,
    nextLowTide: Option<PeakForecast>,
    alert: Alert,
    trend: TrendResult,
    statistics: Stats,
    dataPoints: seq<Sample>,
    lastUpdated: int)

  /** The latest min(limit, n) readings of a series, in order. */
  function RecentWindow(series: seq<Sample>, limit: nat): (r: seq<Sample>)
    ensures |r| == if |series| < limit then |series| else limit
    ensures forall j :: 0 <= j < |r| ==> r[j] == series[|series| - |r| + j]
  {
    var k := if |series| < limit then |series| else limit;
    series[|series| - k..]
  }

  /** The display loop: copies the latest readings, oldest first. */
  method FormatDataPoints(series: seq<Sample>, limit: nat := DataPointLimit) returns (points: seq<Sample>)
    ensures points == RecentWindow(series, limit)
  {
    var start := if |series| < limit then 0 else |series| - limit;
    points := [];
    var i := start;
    while i < |series|
      invariant start <= i <= |series|
      invariant points == series[start..i]
    {
      points := points + [series[i]];
      i := i + 1;
    }
  }

  /** The guard that decides whether a station is processed at all. */
  predicate Processable(raw: RawStationData) {
    raw.stationId.Some? && raw.stationId.value in Stations && raw.points != []
  }

  /** The snapshot of a configured station from its non-empty ordered series:
      the current reading is the last one. */
  function AssembleResult(id: string, series: seq<Sample>, now: int): (r: StationResult)
    requires id in Stations && series != []
    ensures r.stationId == id && r.info == Stations[id] && r.lastUpdated == now
    ensures r.current == series[|series| - 1]
  {
    var info := Stations[id];
    var current := series[|series| - 1];
    var levels := Levels(series);
    StationResult(
      id,
      info,
      current,
      PredictNextPeak(PeaksOf(series, High), High),
      PredictNextPeak(PeaksOf(series, Low), Low),
      CheckAlert(current.level, info),
      CalculateTrend(levels),
      CalculateStatistics(levels),
      RecentWindow(series, DataPointLimit),
      now)
  }

  /** Empty result for an unknown or missing station id or an empty batch;
      otherwise the snapshot of the time-ordered series. */
  function ProcessStationData(raw: RawStationData, now: int): (r: Option<StationResult>)
    ensures r.None? <==> !Processable(raw)
    ensures r.Some? ==> r.value.stationId == raw.stationId.value
    ensures r.Some? ==> r.value.info == Stations[raw.stationId.value] && r.value.lastUpdated == now
  {
    if raw.stationId.None? || raw.stationId.value !in Stations then None
    else if raw.points == [] then None
    else Some(AssembleResult(raw.stationId.value, SortByTime(raw.points), now))
  }

  /** The current reading is the latest reading of the batch, and the alert
      tier follows from its level and the station's thresholds. */
  lemma CurrentIsLatestReading(raw: RawStationData, now: int)
    requires Processable(raw)
    ensures var res := ProcessStationData(raw, now).value;
      res.current in raw.points &&
      (forall x :: x in raw.points ==> x.timestamp <= res.current.timestamp) &&
      res.alert.level == res.current.level &&
      (res.alert.Tier() == Critical <==> res.current.level >= res.info.floodThreshold) &&
      (res.alert.Tier() == Warning <==>
        res.info.warningThreshold <= res.current.level < res.info.floodThreshold) &&
      res.statistics.min <= res.current.level <= res.statistics.max
  {
    var series := SortByTime(raw.points);
    var res := AssembleResult(raw.stationId.value, series, now);
    ProcessedIsAssembled(raw, now);
    LastIsLatest(raw.points);
    assert res.current == series[|series| - 1];
    assert res.alert == CheckAlert(res.current.level, res.info);
    assert res.statistics == CalculateStatistics(Levels(series));
    assert Levels(series)[|series| - 1] == res.current.level;
  }

  /** The display window holds the latest min(48, n) readings of the batch in
      time order, and ends with the current reading. */
  lemma DataPointsAreLatestReadings(raw: RawStationData, now: int)
    requires Processable(raw)
    ensures var res := ProcessStationData(raw, now).value;
      |res.dataPoints| == (if |raw.points| < DataPointLimit then |raw.points| else DataPointLimit) &&
      SortedByTime(res.dataPoints) &&
      (forall x :: x in res.dataPoints ==> x in raw.points) &&
      res.dataPoints[|res.dataPoints| - 1] == res.current &&
      multiset(res.dataPoints) <= multiset(raw.points) &&
      (forall x :: x in multiset(raw.points) - multiset(res.dataPoints) ==>
         x.timestamp <= res.dataPoints[0].timestamp)
  {
    var series := SortByTime(raw.points);
    var res := AssembleResult(raw.stationId.value, series, now);
    ProcessedIsAssembled(raw, now);
    SortKeepsReadings(raw.points);
    assert res.dataPoints == RecentWindow(series, DataPointLimit);
    RecentWindowOrdered(series, DataPointLimit);
    RecentWindowIsLatest(series, DataPointLimit);
    assert multiset(series) == multiset(raw.points);
  }

  /** The window of a time-ordered series is time-ordered and holds only
      readings of the series. */
  lemma RecentWindowOrdered(series: seq<Sample>, limit: nat)
    requires SortedByTime(series)
    ensures SortedByTime(RecentWindow(series, limit))
    ensures forall x :: x in RecentWindow(series, limit) ==> x in series
  {
    var k := if |series| < limit then |series| else limit;
    assert RecentWindow(series, limit) == series[|series| - k..];
  }

  /** The window holds the latest readings: every reading of the series left
      out of it is no later than the window's first reading. */
  lemma RecentWindowIsLatest(series: seq<Sample>, limit: nat)
    requires SortedByTime(series) && series != [] && limit > 0
    ensures var w := RecentWindow(series, limit);
      |w| > 0 && multiset(w) <= multiset(series) &&
      forall x :: x in multiset(series) - multiset(w) ==> x.timestamp <= w[0].timestamp
  {
    var w := RecentWindow(series, limit);
    var k := |series| - |w|;
    var older := series[..k];
    assert w == series[k..];
    assert series == older + w;
    assert multiset(series) - multiset(w) == multiset(older);
    OlderNotLater(series, k);
  }

  /** In a time-ordered series, the readings before position k are no later
      than the reading at k. */
  lemma OlderNotLater(series: seq<Sample>, k: nat)
    requires SortedByTime(series) && k < |series|
    ensures forall x :: x in multiset(series[..k]) ==> x.timestamp <= series[k].timestamp
  {
    forall x | x in multiset(series[..k])
      ensures x.timestamp <= series[k].timestamp
    {
      assert x in series[..k];
      var i :| 0 <= i < k && series[..k][i] == x;
      assert series[i] == x;
    }
  }


  /** For a time-ordered series, the forecast of one kind exists exactly
      when there are at least two peaks of that kind, and it never precedes
      the last of them. */
  lemma ForecastFollowsPeaks(series: seq<Sample>, kind: PeakKind)
    requires SortedByTime(series)
    ensures var peaks := PeaksOf(series, kind);
      var f := PredictNextPeak(peaks, kind);
      (f.Some? <==> |peaks| >= 2) &&
      (|peaks| >= 2 ==> f.Some? && f.value.time >= peaks[|peaks| - 1].timestamp as real)
  {
    var peaks := PeaksOf(series, kind);
    PeaksOfOrdered(series, kind);
    assert SortedByTime(peaks);
    if |peaks| >= 2 {
      ForecastNotBeforeLastPeak(peaks, kind);
    }
  }

  /** A processed station's snapshot is assembled from the time-ordered
      permutation of its batch. */
  lemma ProcessedIsAssembled(raw: RawStationData, now: int)
    requires Processable(raw)
    ensures ProcessStationData(raw, now) == Some(AssembleResult(raw.stationId.value, SortByTime(raw.points), now))
  {
  }

  /** The forecast of the given kind carried by a snapshot. */
  function NextTide(res: StationResult, kind: PeakKind): Option<PeakForecast> {
    match kind
    case High => res.nextHighTide
    case Low => res.nextLowTide
  }

  /** In a snapshot, the forecast of each kind exists exactly when the series
      has at least two peaks of that kind, and never precedes the last one. */
  lemma ForecastsFollowPeaks(id: string, series: seq<Sample>, now: int, kind: PeakKind)
    requires id in Stations && series != [] && SortedByTime(series)
    ensures var f, peaks := NextTide(AssembleResult(id, series, now), kind), PeaksOf(series, kind);
      (f.Some? <==> |peaks| >= 2) &&
      (|peaks| >= 2 ==> f.Some? && f.value.time >= peaks[|peaks| - 1].timestamp as real)
  {
    assert NextTide(AssembleResult(id, series, now), kind) == PredictNextPeak(PeaksOf(series, kind), kind);
    ForecastFollowsPeaks(series, kind);
  }

  /** The entries of a keyed list whose result is present, in order, with the
      result unwrapped. */
  function KeepPresent<R>(entries: seq<(string, Option<R>)>): seq<(string, R)> {
    if entries == [] then []
    else
      var rest := KeepPresent(entries[..|entries| - 1]);
      var e := entries[|entries| - 1];
      match e.1
      case Some(r) => rest + [(e.0, r)]
      case None => rest
  }

  /** Extending a keyed list by one entry extends its kept entries by that
      entry exactly when its result is present. */
  lemma KeepPresentExtends<R>(entries: seq<(string, Option<R>)>)
    requires entries != []
    ensures var e := entries[|entries| - 1];
      KeepPresent(entries) ==
        KeepPresent(entries[..|entries| - 1]) + (if e.1.Some? then [(e.0, e.1.value)] else [])
  {
  }

  /** The positions of a keyed list whose result is present, in order. */
  function PresentPositions<R>(entries: seq<(string, Option<R>)>): seq<int> {
    if entries == [] then []
    else
      PresentPositions(entries[..|entries| - 1]) +
      (if entries[|entries| - 1].1.Some? then [|entries| - 1] else [])
  }

  /** The present positions are exactly those holding a result, in
      increasing order. */
  lemma {:induction false} PresentPositionsCharacterised<R>(entries: seq<(string, Option<R>)>)
    ensures var sel := PresentPositions(entries);
      StrictlyIncreasing(sel) &&
      (forall p :: 0 <= p < |sel| ==> 0 <= sel[p] < |entries|) &&
      (forall j :: 0 <= j < |entries| ==> (j in sel <==> entries[j].1.Some?))
    decreases |entries|
  {
    if entries != [] {
      var n := |entries| - 1;
      var init := entries[..n];
      var prev := PresentPositions(init);
      var sel := PresentPositions(entries);
      PresentPositionsCharacterised(init);
      assert sel == prev + (if entries[n].1.Some? then [n] else []);
      assert forall j :: 0 <= j < n ==> init[j] == entries[j];
      assert forall p :: 0 <= p < |prev| ==> prev[p] < n;
      assert n !in prev;
    }
  }

  /** The p-th kept entry is the entry at the p-th present position, with the
      same key and its result unwrapped. */
  lemma {:induction false} KeepPresentAtPositions<R>(entries: seq<(string, Option<R>)>)
    ensures var out, sel := KeepPresent(entries), PresentPositions(entries);
      |out| == |sel| &&
      forall p :: 0 <= p < |sel| ==>
        (0 <= sel[p] < |entries| && out[p].0 == entries[sel[p]].0 && entries[sel[p]].1 == Some(out[p].1))
    decreases |entries|
  {
    if entries != [] {
      var init := entries[..|entries| - 1];
      KeepPresentAtPositions(init);
      assert forall j :: 0 <= j < |init| ==> init[j] == entries[j];
    }
  }

  /** Each batch key paired with the result of processing its raw data. */
  function StationResults(batch: seq<(string, RawStationData)>, now: int): (r: seq<(string, Option<StationResult>)>)
    ensures |r| == |batch|
    ensures forall j :: 0 <= j < |batch| ==> r[j] == (batch[j].0, ProcessStationData(batch[j].1, now))
  {
    seq(|batch|, j requires 0 <= j < |batch| => (batch[j].0, ProcessStationData(batch[j].1, now)))
  }

  /** The processed stations of a batch, keyed as in the batch and in batch
      order; stations with an empty result are left out. */
  function KeepProcessed(batch: seq<(string, RawStationData)>, now: int): seq<(string, StationResult)> {
    KeepPresent(StationResults(batch, now))
  }

  /** The batch output is a sub-sequence of the input: its entries come from
      increasing input positions sel[p], with that entry's key and that
      entry's own result (so no other station affects it); an input entry is
      kept exactly when its station produced a result. */
  lemma KeepProcessedSelects(batch: seq<(string, RawStationData)>, now: int)
    ensures var out, sel := KeepProcessed(batch, now), PresentPositions(StationResults(batch, now));
      |out| == |sel| && StrictlyIncreasing(sel) &&
      (forall p :: 0 <= p < |sel| ==> 0 <= sel[p] < |batch|) &&
      (forall p :: 0 <= p < |sel| ==>
         out[p].0 == batch[sel[p]].0 && ProcessStationData(batch[sel[p]].1, now) == Some(out[p].1)) &&
      (forall j :: 0 <= j < |batch| ==> (j in sel <==> Processable(batch[j].1)))
  {
    PresentPositionsCharacterised(StationResults(batch, now));
    KeepPresentAtPositions(StationResults(batch, now));
  }

  /** No key occurs twice in a keyed list. */
  predicate DistinctKeys<V>(m: seq<(string, V)>) {
    forall p, q :: 0 <= p < q < |m| ==> m[p].0 != m[q].0
  }

  /** A batch with distinct keys (as every dictionary has) gives an output
      with distinct keys. */
  lemma KeepProcessedKeysDistinct(batch: seq<(string, RawStationData)>, now: int)
    requires DistinctKeys(batch)
    ensures DistinctKeys(KeepProcessed(batch, now))
  {
    KeepProcessedSelects(batch, now);
  }

  /** The batch loop over a dictionary of raw station data (so its keys are
      distinct). Looking up the display name of every batch key before
      processing fails on a key that is not a configured station, so every
      key must be one. */
  method ProcessAllStations(batch: seq<(string, RawStationData)>, now: int)
    returns (processed: seq<(string, StationResult)>)
    requires DistinctKeys(batch)
    requires forall j :: 0 <= j < |batch| ==> batch[j].0 in Stations
    ensures processed == KeepProcessed(batch, now)
    ensures DistinctKeys(processed)
  {
    ghost var results := StationResults(batch, now);
    processed := [];
    for j := 0 to |batch|
      invariant processed == KeepPresent(results[..j])
    {
      var entry := batch[j];
      var result := ProcessStationData(entry.1, now);
      assert results[j] == (entry.0, result);
      KeepPresentExtends(results[..j + 1]);
      assert results[..j + 1][..j] == results[..j] && results[..j + 1][j] == results[j];
      if result.Some? {
        processed := processed + [(entry.0, result.value)];
      }
    }
    assert results[..|batch|] == results;
    assert processed == KeepProcessed(batch, now);
    KeepProcessedKeysDistinct(batch, now);
  }

  /** In a batch with distinct keys, a station's key is in the output
      exactly when its own raw data can be processed: an entry with a
      missing or unconfigured inner station id or an empty sample list
      leaves no trace, and every other entry is there. */
  lemma KeyKeptIffProcessable(batch: seq<(string, RawStationData)>, now: int, j: nat)
    requires DistinctKeys(batch) && j < |batch|
    ensures var out := KeepProcessed(batch, now);
      (exists p :: 0 <= p < |out| && out[p].0 == batch[j].0) <==> Processable(batch[j].1)
  {
    var out, sel := KeepProcessed(batch, now), PresentPositions(StationResults(batch, now));
    KeepProcessedSelects(batch, now);
    if p :| 0 <= p < |out| && out[p].0 == batch[j].0 {
      assert batch[sel[p]].0 == batch[j].0;
      assert sel[p] == j;
    }
    if Processable(batch[j].1) {
      assert j in sel;
      var p :| 0 <= p < |sel| && sel[p] == j;
      assert out[p].0 == batch[j].0;
    }
  }

  /** A station whose sample list is empty is absent from the output of any
      batch with distinct keys. */
  lemma EmptyBatchStationOmitted(batch: seq<(string, RawStationData)>, now: int, j: nat)
    requires DistinctKeys(batch) && j < |batch| && batch[j].1.points == []
    ensures forall p :: 0 <= p < |KeepProcessed(batch, now)| ==>
      KeepProcessed(batch, now)[p].0 != batch[j].0
  {
    KeyKeptIffProcessable(batch, now, j);
  }
}
