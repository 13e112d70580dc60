# Cardio-protective dashboard, phase 1: the daily metric pipeline in Dafny

This project models the metric-derivation core of a personal health dashboard.
The dashboard reads health-export payloads and builds one daily table from them.
The model covers these steps:

- **Metric series.** Each named metric (heart-rate variability, resting heart rate, respiratory rate, breathing disturbances, mindful minutes, alcohol) becomes a series keyed by day. Same-day values are summed for mindful minutes and alcohol and averaged for the rest.
- **Sleep.** Sleep analysis gives mean total and awake hours per day. A derived sleep score in 0..100 comes from clipped expressions.
- **Workouts.** Each workout's heart-rate buckets are sorted by time and classified into five calibrated zones. A workout yields zone minutes, cardio minutes, a zone-2 share and HRR1. HRR1 is the peak heart rate minus the first bucket at least a minute after the peak, or minus the last bucket when no such bucket exists. Workouts are then aggregated per day.
- **Daily table.** The nine per-source tables are outer-joined on the day. The result is ordered by day.
- **Dashboard rules.** On top of the daily table the dashboard adds:
  - the target classifier `status`;
  - 7-value and 30-value rolling means of HRV and resting heart rate, and their baseline deltas;
  - the HRV and RHR trend flags.

Modules, one per file:

| Module | What it models |
|---|---|
| `Common` | Optional values, timestamps, days, and the filter-and-map shape of every skip-incomplete loop |
| `Payload` | How a payload, its metrics and its workouts are shaped |
| `Zones` | The zone table and the first-match classifier |
| `Aggregate` | Per-day sum and mean, written as a fold proved equal to the reference function `Aggregate.ByDay` |
| `TimeSort` | The in-place stable insertion sort of samples, proved equal to a functional sort that is sorted, a permutation and stable |
| `Extract` | `extract_metric_series` and `extract_sleep_analysis` |
| `SleepScore` | `derive_sleep_score` |
| `Workouts` | `compute_zone_minutes_and_hrr1` |
| `Daily` | `build_phase1_daily`: source tables, the outer join and the final ordering |
| `Trends` | The rolling means, the deltas, the left merge into the displayed rows, and the flags |
| `Targets` | `status` |

Representation choices:

- Time is integer seconds of the wall-clock reading. The timezone offset is discarded, never applied.
- A day is the number of whole days since 1970-01-01: `ToDay(t) == t / 86400`, which is floor division.
- A missing or undefined value (`None`, NaN) is a missing key or `None`.
- Numbers are unbounded `real`s.

Two consequences of the code worth stating:

- **Rolling windows count positions.** The rolling means count positions in the series of present values, not calendar days (`app.py:103-106`). The short mean is defined from the fourth present value on. It averages the last min(7, k+1) values, which can span more than a week.
- **Full duration score at 7.5 h.** The duration ratio is clipped at 7.5 h, so the 9 h clip never changes the score (`SleepScore.ScoreClosedForm`).

## Model

| member | source | states |
|---|---|---|
| `Common.ToDay` | src/compute_phase1.py:24-29 | a timestamp's day is the one whose midnight is at or before it and whose next midnight is after it |
| `Zones.FirstMatch` | src/compute_phase1.py:14-22 | the zone is UNK exactly when no band matches; otherwise it is the zone of the first matching band |
| `Zones.ClassifyZoneBands` | src/compute_phase1.py:6-22 | Z1 iff hr <= 105, Z2 iff 106 <= hr <= 122, Z3 iff 123..135, Z4 iff 136..148, Z5 iff hr >= 149; UNK exactly in the gaps (105,106), (122,123), (135,136), (148,149) |
| `Zones.BandsDisjoint` | src/compute_phase1.py:6-12 | no heart rate matches two bands, so the table's order never matters |
| `Zones.IntegerBpmClassified` | src/compute_phase1.py:6-22 | every whole-number bpm falls in some zone |
| `Extract.CollectRows` | src/compute_phase1.py:36-48 | the nested payload/metric/point loop appends exactly the rows of the reference function `Extract.PayloadRows`, in order |
| `Extract.CollectPoints` | src/compute_phase1.py:42-48 | the point loop of one metric entry appends exactly the points the reader keeps, in order, to the rows so far (the same loop reads sleep points at lines 73-83) |
| `Extract.CollectMetrics` | src/compute_phase1.py:39-48 | the metric loop of one payload appends, in order, the kept points of every metric entry of the requested name and nothing for other names |
| `Extract.PayloadRowsMembership` | src/compute_phase1.py:37-48 | a row is collected iff some payload has a metric of that name with a point the reader accepts for that row |
| `Extract.PolicyFor` | src/compute_phase1.py:54-59 | a metric is summed per day iff it is mindful_minutes or alcohol_consumption; all other metrics are averaged |
| `Extract.ExtractMetricSeries` | src/compute_phase1.py:31-61 | the result is the per-day sum or mean of the collected rows |
| `Extract.MetricSeriesDays` | src/compute_phase1.py:36-59 | a day is in the series iff some matching point has a date on that day and a value under the key |
| `Extract.SameDayAggregation` | src/compute_phase1.py:54-59 | two same-day values 5 and 3 give 8 for alcohol and 4 for HRV |
| `Extract.ExtractSleepAnalysis` | src/compute_phase1.py:63-88 | the result is the per-day mean of total and awake hours over points with a date and a totalSleep; a missing awake counts as 0 |
| `Extract.SleepDayWithinRows` | src/compute_phase1.py:76-88 | each day's total and awake figures lie within any bounds that hold for every row's total and awake, respectively |
| `Aggregate.AggregateByDay` | src/compute_phase1.py:57-59 | the fold's running sums and counts give exactly the per-day sum or mean over the rows of each day that has rows |
| `Aggregate.MeanWithinBounds` | src/compute_phase1.py:59 | a day's mean lies between any lower and upper bound of all the values |
| `SleepScore.Clip` | src/compute_phase1.py:100-106 | the clipped value lies in [lo, hi]; it equals x inside the range and the nearer bound outside |
| `SleepScore.Score` | src/compute_phase1.py:99-106 | the derived score lies in [0, 100] |
| `SleepScore.ScoreClosedForm` | src/compute_phase1.py:100-106 | score = 70·min(max(total,0),7.5)/7.5 + 30 − 30·min(max(awake,0),1) |
| `SleepScore.ScoreMonotoneInTotal` | src/compute_phase1.py:100-101 | more sleep never lowers the score |
| `SleepScore.ScoreAntitoneInAwake` | src/compute_phase1.py:103-106 | more awake time never raises the score |
| `SleepScore.ScoreFixedPoints` | src/compute_phase1.py:90-106 | (0 h, 0 h) scores 30, (7.5 h, 0 h) scores 100, (7.5 h, 1 h) scores 70 |
| `SleepScore.DeriveSleepScore` | src/compute_phase1.py:90-107 | the scores have exactly the sleep table's days, and each score lies in [0, 100] |
| `TimeSort.SortInPlace` | src/compute_phase1.py:135 | after the in-place insertion sort the array equals the functional sort of its old contents |
| `TimeSort.SortProperties` | src/compute_phase1.py:135 | the functional sort keeps the length, is ordered by time, is a permutation, and keeps the input order of equal times (stable) |
| `TimeSort.SortedUnchanged` | src/compute_phase1.py:135 | input already in time order is returned as it is |
| `Workouts.CollectSamples` | src/compute_phase1.py:126-131 | the buckets kept are exactly those with both an Avg and a date, in order |
| `Workouts.TallyZones` | src/compute_phase1.py:141-145 | the counting loop yields, per zone, the number of samples classified into it |
| `Workouts.ZonesPartition` | src/compute_phase1.py:141-147 | the five zone counts plus the UNK count add up to the number of samples |
| `Workouts.TallyCountsClassified` | src/compute_phase1.py:141-147 | cardio minutes + unclassified samples = all samples |
| `Workouts.TallySorted` | src/compute_phase1.py:135-147 | sorting does not change the zone counts or the UNK count |
| `Workouts.PeakIndex` | src/compute_phase1.py:163-164 | the peak index is in range, its bpm is a maximum, and every earlier bpm is strictly below it (the first maximum) |
| `Workouts.FirstAtOrAfter` | src/compute_phase1.py:165-173 | the first index from the peak whose time is at least the target; the last index when there is none |
| `Workouts.FindRecovery` | src/compute_phase1.py:167-173 | the search loop returns the bpm at the recovery index |
| `Workouts.AnalyseWorkout` | src/compute_phase1.py:121-178 | collecting, sorting the array in place, counting and the HRR1 search give exactly the specified summary, or none |
| `Workouts.SkippedIff` | src/compute_phase1.py:122-149 | a workout is skipped iff it has fewer than 5 complete buckets or none of them is in a zone |
| `Workouts.SummaryFacts` | src/compute_phase1.py:141-160 | a kept workout's zone counts are those of its samples; cardio = their sum > 0 and cardio + UNK = all samples; zone-2 share in [0, 100]; HRR1 >= 0 |
| `Workouts.Hrr1Facts` | src/compute_phase1.py:162-178 | HRR1 = peak − recovery, where the recovery sample comes at or after the first maximum; it is the first sample 60 s or more later, else the last sample |
| `Workouts.DayOfLatestSample` | src/compute_phase1.py:138 | without an end time, a workout belongs to the day of its latest bucket |
| `Workouts.RecoveryExample` | src/compute_phase1.py:162-178 | five buckets of 100, 140, 150, 120 and 110 bpm at t0, +30, +60, +90 and +150 s: the peak is 150 at t0+60 s; the recovery bucket is 110 at t0+150 s, the first at least 60 s after the peak; HRR1 = 40 whatever the end time |
| `Workouts.SummariseSorted` | src/compute_phase1.py:137-178 | on the non-empty sample list that follows the sort, the day choice, zone count, all-UNK skip and HRR1 search give exactly `Workouts.SummaryOf`: none when no sample is in a zone, otherwise the summary of that day, counts, share and HRR1 |
| `Workouts.SummariseWorkouts` | src/compute_phase1.py:120-178 | the loop over one payload's workouts yields exactly the summaries of the workouts that are kept, in order |
| `Workouts.CollectSummaries` | src/compute_phase1.py:118-178 | the loop over payloads and workouts yields exactly the kept summaries, in order |
| `Workouts.SummariesMembership` | src/compute_phase1.py:118-178 | a summary is produced iff some payload has a workout that summarises to it |
| `Workouts.SummariesValid` | src/compute_phase1.py:147-178 | every produced summary is valid: cardio = zone sum > 0, share in [0, 100], HRR1 >= 0 |
| `Workouts.SumZonesByDay` | src/compute_phase1.py:183-185 | the per-day fold gives each day's summed zone and cardio minutes, and the share recomputed from those sums |
| `Workouts.ComputeZoneMinutesAndHrr1` | src/compute_phase1.py:109-190 | the two results are the per-day zone table and the per-day mean HRR1 of the kept workouts |
| `Workouts.DailySums` | src/compute_phase1.py:183-185 | a day's cardio minutes equal its summed zone minutes, and they are positive on every day that has a workout |
| `Workouts.DailyTables` | src/compute_phase1.py:180-190 | both tables have the same days; every daily cardio = zone sum > 0 (so the divide-by-zero guard never applies); every share in [0, 100]; every daily HRR1 >= 0 |
| `Workouts.ZoneDays` | src/compute_phase1.py:151-184 | a day has zone minutes iff some kept workout is assigned to it |
| `Daily.SourcesDisjoint` | src/compute_phase1.py:194-207 | the nine source tables never share a column and each holds only its own columns |
| `Daily.MergeOuter` | src/compute_phase1.py:207-212 | the merge loop yields the specified fold, skipping empty tables |
| `Daily.MergeAllNone` | src/compute_phase1.py:208-215 | there is no base exactly when every table is empty |
| `Daily.MergeAllShape` | src/compute_phase1.py:209-212 | the joined table has exactly the days of the sources, and the columns of the non-empty sources |
| `Daily.MergeAllCellsFrom` | src/compute_phase1.py:212 | every joined cell comes from some source that has that cell, with that source's value |
| `Daily.MergeAllCellTo` | src/compute_phase1.py:212 | with disjoint columns, every source cell reaches the joined table unchanged |
| `Daily.SortedDays` | src/compute_phase1.py:217 | the days in strictly ascending order, each exactly once |
| `Daily.ToFrame` | src/compute_phase1.py:214-217 | the output has one row per joined day, strictly ascending, each with that day's cells; with no base it has no rows and no value columns |
| `Daily.DailyFrameUnique` | src/compute_phase1.py:217 | any two outputs that meet that description are equal, so the description fixes the table |
| `Daily.BuildPhase1Daily` | src/compute_phase1.py:192-218 | the result is the day-ordered outer join of the nine sources computed from the payloads |
| `Daily.NoDataNoRows` | src/compute_phase1.py:214-215 | with every source empty, the result is the empty table |
| `Daily.DailyCellsFrom` | src/compute_phase1.py:206-217 | every cell of the daily table comes from one source with that source's value |
| `Daily.DailyCellsTo` | src/compute_phase1.py:206-217 | every cell of every source appears, unchanged, on its day's row |
| `Trends.PresentMembership` | app.py:103 | `dropna` keeps a (day, value) point iff some row of that day has that value in the column |
| `Trends.PresentIncreasing` | app.py:103 | dropping rows keeps the days strictly ascending |
| `Trends.RollingDefined` | app.py:98-106 | a rolling mean at position k is defined iff k+1 >= min_periods, and is then the mean of the last min(n, k+1) values |
| `Trends.RollingWithinBounds` | app.py:98-106 | a rolling mean lies within any bounds of the series |
| `Trends.Delta` | app.py:107-115 | the delta is undefined iff either mean is undefined (or the baseline is zero for a percentage); baseline + difference = short mean, and baseline·(100 + pct) = 100·short mean |
| `Trends.PercentChangeSign` | app.py:107 | with a positive baseline the HRV delta is negative iff the short mean is below the baseline, and is <= −p iff the short mean is at most (1 − p/100)·baseline |
| `Trends.TrendCellsFacts` | app.py:103-115 | the short mean is present from the fourth value, with its rolling value; the delta is present iff defined, with its value |
| `Trends.TrendTableAt` | app.py:103-108 | on ascending days, a point's day maps to that point's trend cells |
| `Trends.WithTrend` | app.py:102-116 | without the source column nothing changes; otherwise the two trend columns are added and the row count is kept |
| `Trends.AddTrends` | app.py:102-116 | the two blocks, in order, rebind the displayed rows to the HRV and then the RHR trend merge |
| `Trends.WithTrendKeeps` | app.py:108-116 | a trend merge keeps every row's day and every cell outside its two columns |
| `Trends.WithTrendCells` | app.py:102-116 | a displayed row whose day is at position k of the full-history series gets the short mean iff k+1 >= 4, with the position-k mean; it gets the delta iff that is defined; a row whose day has no value gains neither |
| `Trends.HrvFlag` | app.py:152-156 | off target iff delta <= −10, borderline iff −10 < delta <= −5, on target iff there is no delta or delta > −5 |
| `Trends.RhrFlag` | app.py:166-170 | off target iff delta >= 3, borderline iff 2 <= delta < 3, on target iff there is no delta or delta < 2 |
| `Targets.Status` | app.py:21-44 | the rating is always one of (On target, green), (Borderline, orange), (Off target, red) |
| `Targets.RangeBestBands` | app.py:29-32 | range_best: on target iff in [g0, g1); borderline iff outside it but in [g0−1, g0) or [g1, g1+1]; otherwise off target |
| `Targets.GreenThenYellowBands` | app.py:22-42 | with no direction, higher_better or lower_better: on target iff in green; borderline iff not green but yellow; otherwise off target |
| `Targets.DirectionsAlike` | app.py:22-42 | higher_better and lower_better rate every value alike, and a missing direction means higher_better |
| `Targets.UnknownDirection` | app.py:44 | any other direction is always borderline |
| `Targets.RedBandUnused` | app.py:25-44 | the red band never changes a rating |

## Left out

- Timestamp parsing (`dateutil`) and timezone stripping are not modelled. Timestamps arrive as integer seconds of the wall-clock reading. `_to_day` is modelled as floor division by 86400.
- `src/load_healthautoexport.py` is not part of this model, because it is file-system and JSON I/O. Its accessors are folded into `Payload.RootOf`, which picks the `data` object when present.
- JSON decoding is not modelled. A field's value is either a number or absent. Values that `float()` would reject, and NaN heart rates, are not represented.
- A metric point whose `date` key is present but null is skipped in the model. The source passes it to `_to_day`, which raises.
- Null container values make the source raise; the model gives them a result instead:
  - a null `data` wrapper, where `p.get("data", p)` returns None and the next `.get` raises (`src/compute_phase1.py:38-39, 69-70, 119-120`); the model reads such a payload as flat;
  - a null `metrics` list, `workouts` list or metric `data` list, where `for … in None` raises (`src/compute_phase1.py:39, 42, 70, 73, 120`); the model reads each as empty.
  Null is read as absent, as in the source, only for `heartRateData`, `Avg`, a bucket's `date`, `qty`, `totalSleep`, `awake` and `end`.
- Floating-point rounding is not modelled. All arithmetic is exact over `real`.
- pandas' `_x`/`_y` column suffixing on the join is not modelled. `Daily.SourcesDisjoint` proves that the nine sources never share a column, so it never applies.
- The row order between the join steps is not modelled, only the final `sort_values("date")`. Dates within one table are unique map keys.
- `Trends.Delta`: a percentage change against a zero baseline is undefined here. pandas gives ±inf, or NaN for 0/0.
- `Trends.RollingAt` requires `min_periods <= window`, which pandas enforces by raising. Window sizes other than the source's 7 and 30 are not used.
- The workout `name` field is read by the source but never used, and is not modelled.
- The Streamlit and Plotly presentation is not modelled: tiles, plots, `latest_val`, `add_target_bands`, the debug output and the Zone 3 creep messages.
  - The display window (`app.py:90-93`) is not modelled. The displayed rows `dff` are a parameter of `Trends.AddTrends`.
  - The flags take the latest delta as an `Option` parameter.
- `load_targets` (YAML I/O) is not modelled. A target arrives as a `TargetSpec` record.
  - A `direction` key that is present but null cannot be represented. The source would rate such a target borderline.

