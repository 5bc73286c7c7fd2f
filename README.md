# Mekong water-level processor — a Dafny model

This project models `WaterLevelProcessor` from `data_processor.py`: the
per-station analysis that turns a batch of `(timestamp_ms, value)` gauge
readings into an analytic snapshot, and the batch loop that applies it to
every station. A snapshot holds:

- the current reading;
- the next high and low tide forecasts;
- a threshold alert;
- a short-window trend;
- descriptive statistics;
- the latest 48 readings.

Water levels are exact `real`s and timestamps are `int` epoch milliseconds.
The station table of `config.py` is a constant map.

Modules, one per component of the processor:

- `Config` (config.dfy): the `STATIONS` table and its threshold ordering.
- `Samples` (samples.dfy): readings and the time-ordered series. This is the
  sort inside `_convert_to_dataframe`.
- `Peaks` (peaks.dfy): `_find_tide_peaks`. It is an imperative method with
  the source's two index loops, proved equal to the specification function
  `PeakIndices`.
- `Forecast` (forecast.dfy): `_predict_next_peak`.
- `Alerts` (alerts.dfy): `_check_alert`.
- `Trend` (trend.dfy): `_calculate_trend`, an ordinary least-squares slope
  against the sample index.
- `Statistics` (statistics.dfy): `_calculate_statistics` without the
  standard deviation.
- `Processor` (processor.dfy): `process_station_data`, the display loop of
  `_format_data_points` as a method, and `process_all_stations` as a method
  with a loop.
- `Wrappers` (wrappers.dfy): the `Option` type for "empty result".

`ProcessStationData` is a function: it only composes the other parts. It uses
the specification functions `PeakIndices` and `RecentWindow`. The methods
`FindTidePeaks` and `FormatDataPoints` are proved to compute exactly those
functions.

## Behaviour of the code worth noting

The model follows the code in each case below.

- Unknown batch keys: `process_all_stations` looks up `self.stations[station_id]`
  for every batch key before any guard runs (data_processor.py:338). A key that
  is not a configured station therefore raises `KeyError`. It is not skipped.
  The model states this as a precondition of `ProcessAllStations`: every key
  must be configured.
- Batch keys: the batch is a dictionary (data_processor.py:325), so its
  keys are distinct. `ProcessAllStations` takes this as a precondition and
  keeps it in its output.
- Sorting: `sort_values` (data_processor.py:129) uses pandas' default sort,
  which is not stable. The model only promises an ordered permutation.
  `SortedPermutationUnique` shows that this determines the series exactly
  when timestamps are distinct.
- Forecast time: the forecast is only guaranteed to be no earlier than the
  last peak. It is strictly later whenever the first and last peaks have
  different timestamps. When all peaks share one timestamp, the mean gap is
  0 and the forecast time equals the last peak's time.
- Standard deviation: the code uses pandas' sample standard deviation
  (divisor n − 1). For a single reading it is NaN, not 0.

## Model

| member | source | states |
|---|---|---|
| `Config.ConfiguredThresholdsOrdered` | config.py:10-46 | every configured station has flood threshold ≥ warning threshold > 0 |
| `Samples.SortByTime` | data_processor.py:129 | the series is ordered by timestamp and is a permutation of the batch (same multiset, same length) |
| `Samples.SortedPermutationUnique` | data_processor.py:129 | two ordered series with the same readings and distinct timestamps are equal, so the unstable sort still gives one result |
| `Samples.SortOfSortedIsIdentity` | data_processor.py:129 | sorting an already ordered series with distinct timestamps returns it unchanged |
| `Samples.SortKeepsReadings` | data_processor.py:129 | a reading is in the sorted series iff it is in the batch |
| `Samples.LastIsLatest` | data_processor.py:63-64 | the last reading of the sorted series belongs to the batch, and no reading of the batch is later |
| `Peaks.PeakIndicesCharacterised` | data_processor.py:149-158 | i is reported iff 1 ≤ i ≤ n−2 and v[i] is strictly above (high) or strictly below (low) both neighbours; the index list strictly increases; the ends are never reported |
| `Peaks.ShortSeriesHasNoPeaks` | data_processor.py:150 | fewer than three readings give no peaks of either kind |
| `Peaks.HighAndLowDisjoint` | data_processor.py:149-158 | no index is both a high and a low peak |
| `Peaks.MonotoneSeriesHasNoPeaks` | data_processor.py:149-158 | a non-decreasing or non-increasing series, including a constant one, has no peaks |
| `Peaks.FindTidePeaks` | data_processor.py:145-158 | the two index loops return exactly the high and the low peak indices |
| `Peaks.PeaksOfOrdered` | data_processor.py:160-161 | the peak readings of a time-ordered series are in time order, and the p-th one is the reading at the p-th peak index |
| `Peaks.ExamplePeaks` | data_processor.py:149-158 | the series 1.0, 1.2, 1.5, 1.3, 1.1, 1.4 has high peaks [2] and low peaks [4] |
| `Statistics.Max` | data_processor.py:287 | the maximum is one of the levels and no level exceeds it |
| `Statistics.Min` | data_processor.py:288 | the minimum is one of the levels and no level is below it |
| `Statistics.MeanBounds` | data_processor.py:289 | the mean of levels that all lie in [lo, hi] also lies in [lo, hi] |
| `Statistics.MeanBetweenMinAndMax` | data_processor.py:289 | min ≤ mean ≤ max |
| `Statistics.CalculateStatistics` | data_processor.py:286-291 | max and min are attained and bound every level; the mean is the arithmetic mean and lies in [min, max]; range = max − min ≥ 0 |
| `Statistics.ConstantSeriesStatistics` | data_processor.py:286-291 | a constant series v gives max = min = mean = v and range 0 |
| `Forecast.GapSumTelescopes` | data_processor.py:185-186 | the consecutive peak-time differences sum to last minus first |
| `Forecast.RecentPeakLevels` | data_processor.py:197 | the levels averaged are those of the latest min(3, k) peaks, in order, and there is one whenever there is a peak |
| `Forecast.PredictNextPeak` | data_processor.py:180-205 | there is no forecast iff there are fewer than two peaks; a forecast keeps its kind and the fixed "medium" confidence, and its level is the mean of the latest ≤ 3 peak levels |
| `Forecast.ForecastTime` | data_processor.py:185-194 | predicted time = t_last + (t_last − t_first)/(k − 1) |
| `Forecast.ForecastNotBeforeLastPeak` | data_processor.py:185-194 | for time-ordered peaks the forecast is ≥ t_last, and > t_last when t_first < t_last |
| `Forecast.ForecastLevelWithinRecentPeaks` | data_processor.py:197 | the predicted level lies between the min and max of the latest ≤ 3 peak levels |
| `Forecast.ForecastLevelOfEqualPeaks` | data_processor.py:197 | latest peaks at a common level v predict level v |
| `Alerts.CheckAlert` | data_processor.py:218-240 | CRITICAL iff level ≥ flood; WARNING iff warning ≤ level < flood; NORMAL otherwise, with a distance to warning that is > 0 and equals warning − level; equality counts as the higher tier; the reported figures are the level and the threshold reached |
| `Alerts.AlertMonotone` | data_processor.py:222-234 | with flood ≥ warning, a higher level never gives a lower tier |
| `Alerts.AlertBands` | data_processor.py:222-240 | with flood ≥ warning the tiers are exactly the bands below warning, [warning, flood), and at or above flood |
| `Alerts.TanChauAboveFlood` | data_processor.py:222-227 | Tan Chau at 4.6 m is CRITICAL, reporting 4.6 and flood threshold 4.5 |
| `Trend.TrendWindow` | data_processor.py:248 | the window is the latest min(6, n) levels, in order |
| `Trend.SquaredDeviationPositive` | data_processor.py:254-257 | with two or more indices the fit's denominator is positive, so the slope is always defined |
| `Trend.IndexMeanIsMean` | data_processor.py:254 | the centre of the fit is the mean of the indices 0 .. k−1 |
| `Trend.CalculateTrend` | data_processor.py:248-268 | fewer than 2 readings give "unknown" with rate 0; otherwise the rate is the least-squares slope of the window, rising iff > 0.05, falling iff < −0.05, stable otherwise |
| `Trend.SlopeOfLine` | data_processor.py:254-257 | the least-squares slope of levels a + b·i is exactly b |
| `Trend.CrossTermsOfLine` | data_processor.py:254-257 | on levels a + b·i each term (i − x̄)(y_i − ȳ) of the numerator is b times the term (i − x̄)² of the denominator |
| `Trend.ConstantWindowIsStable` | data_processor.py:248-268 | a constant window gives slope 0 and "stable" |
| `Trend.ExampleTrend` | data_processor.py:248-268 | the window 1.0, 1.2, 1.5, 1.3, 1.1, 1.4 has slope 3/70 and is stable |
| `Processor.RecentWindow` | data_processor.py:303 | the window has min(limit, n) readings, equal in order to the last ones of the series |
| `Processor.RecentWindowOrdered` | data_processor.py:303 | the window of an ordered series is ordered and holds only series readings |
| `Processor.FormatDataPoints` | data_processor.py:303-313 | the display loop returns exactly the latest min(limit, n) readings, oldest first |
| `Processor.ProcessStationData` | data_processor.py:43-60 | the result is empty iff the station id is missing or unconfigured or the batch is empty; otherwise it carries that station and its configuration |
| `Processor.AssembleResult` | data_processor.py:62-110 | the snapshot carries the station and its configuration and the clock value, and its current reading is the last reading of the series |
| `Processor.CurrentIsLatestReading` | data_processor.py:62-83 | the current reading is the latest reading of the batch; the alert tier follows from its level and the station thresholds; min ≤ current level ≤ max |
| `Processor.DataPointsAreLatestReadings` | data_processor.py:108 | the display window holds min(48, n) batch readings (a sub-multiset of the batch), is time-ordered, ends with the current reading, and every batch reading left out is no later than its first reading |
| `Processor.RecentWindowIsLatest` | data_processor.py:303 | the readings of an ordered series left out of the window are a multiset none of whose readings is later than the window's first |
| `Processor.ForecastFollowsPeaks` | data_processor.py:67-71 | for an ordered series a forecast exists iff there are ≥ 2 peaks of its kind, and it is not earlier than the last of them |
| `Processor.ForecastsFollowPeaks` | data_processor.py:66-71 | the same for each forecast stored in a snapshot |
| `Processor.PresentPositionsCharacterised` | data_processor.py:341-342 | the positions kept are exactly those with a non-empty result, in increasing order |
| `Processor.KeepPresentAtPositions` | data_processor.py:341-342 | the p-th kept entry has the key and the result of the input entry at the p-th kept position |
| `Processor.KeepProcessedSelects` | data_processor.py:335-348 | the output is a sub-sequence of the batch in batch order; a key is kept iff its station's result is non-empty; each kept result depends only on that entry's raw data |
| `Processor.KeepProcessedKeysDistinct` | data_processor.py:335-348 | a batch with distinct keys gives an output with distinct keys |
| `Processor.ProcessAllStations` | data_processor.py:335-348 | the batch loop returns exactly the kept results, with distinct keys; the batch is a dictionary (distinct keys) and every key must be a configured station |
| `Processor.KeyKeptIffProcessable` | data_processor.py:43-54 | in a batch with distinct keys, a key appears in the output iff its raw data has a configured inner station id and a non-empty sample list |
| `Processor.EmptyBatchStationOmitted` | data_processor.py:52-54 | a station with an empty sample list is absent from the output of any batch with distinct keys |

## Left out

- Time-zone handling and rendering are not modelled: the UTC+7 conversion, ISO strings and `_format_time_vn` (data_processor.py:120-123, 319-323). An instant is its millisecond count.
- Floating point is not modelled: rounding to 2 or 4 decimals, and the `rate_description` and Vietnamese label strings. Levels are exact reals.
- Standard deviation (data_processor.py:290) is left out. It needs a square root, uses the n − 1 divisor, and is NaN for one reading.
- Alert message text is not modelled. The model keeps the tier and the figures the message reports (level, threshold, distance to warning); the station name is not kept in the alert.
- Logging is left out.
- Missing or null fields are not modelled: a reading's `int` timestamp and `real` level are always present. The source behaves as follows, and none of it is in the model:
  - When no point has a `timestamp` (or no point has a `value`), the column lookup at data_processor.py:120 or 126 raises. The exception is caught (data_processor.py:134-136), the frame is empty and the station gets no result (data_processor.py:59-60).
  - A point with a null `value`, or without one while other points have it, becomes NaN. Chart gaps deliver such points (`value: point.y`, mrc_scraper.py:111-113). A NaN level is never a peak (data_processor.py:151, 157). The maximum, minimum and mean skip it (data_processor.py:287-289). A NaN current level fails both threshold comparisons and is NORMAL (data_processor.py:222-235).
  - A point without a `timestamp` while other points have one becomes NaT. The sort puts it last (data_processor.py:129), so it becomes the current time (data_processor.py:64). Formatting it raises at data_processor.py:93 and 323, and nothing catches that exception in `process_station_data` or `process_all_stations`.
- ProcessStationData: timestamps are unbounded integers. pandas turns them into nanosecond datetimes (data_processor.py:120), which fails outside roughly the years 1677–2262; the exception is caught (data_processor.py:134-136), the frame is empty and the station gets no result (data_processor.py:59-60). The model processes every timestamp.
- PredictNextPeak: the forecast instant last peak + mean gap (data_processor.py:194) raises when it leaves that same datetime range; the exception is caught and there is no forecast (data_processor.py:207-209). The model gives a forecast for any two or more peaks.
- `last_updated` reads the clock (data_processor.py:109). The model takes it as the parameter `now`. ProcessAllStations: gives every result in a batch the same `now`, while the source reads the clock once per station.
- PredictNextPeak: the forecast time is an exact real number of milliseconds. pandas' `Timedelta` mean rounds it to whole nanoseconds, and that rounding is not modelled.
- FormatDataPoints: each point's timestamp is modelled as the reading's own millisecond count. The source recomputes it as `int(timestamp() * 1000)` through floating-point seconds, and that truncation is not modelled.
- CalculateStatistics: requires a non-empty series. Its only caller never passes an empty one; on an empty frame pandas would give NaN.
- The acquisition, HTTP and scheduling layers are outside the analysis core: `mrc_scraper.py`, `app.py`, `scheduler.py`, and the non-station settings of `config.py`.
