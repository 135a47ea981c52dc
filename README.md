# Energy telemetry analyzers, modelled in Dafny

The repository receives batches of electrical telemetry records from an
energy-metering API. Each record is a JSON object, possibly wrapped in a
`dadoEnergia` envelope. Four analyzers turn one batch into a JSON-ready report:

- **voltage RMS** (`analise_tensao_rms.py`);
- **current RMS** (`analise_corrente_rms.py`);
- **active and reactive power** (`analise_potencia_ativa_reativa.py`);
- **demand profile** (`analise_demanda_perfil.py`).

Each analyzer runs much the same pipeline:

1. Normalise the input. The current, power and demand analyzers accept one
   object or a list, unwrapping `dadoEnergia` when it holds an object. The
   voltage analyzer takes a list only and replaces each object by its
   `dadoEnergia` value, or by an empty object when there is none
   (analise_tensao_rms.py:109).
2. Parse the timestamps. A bad timestamp becomes an invalid marker, never an error.
3. Sort the batch by time, invalid timestamps last.
4. Coerce the cells to numbers.
5. Summarise each channel (mean, sample deviation, min, max, count).
6. Detect a nominal level from a median. Voltage snaps it to 110/220/380 V.
7. Classify values against the band `[level·(1−tol), level·(1+tol)]`.
8. Fit a least-squares trend per channel. The current, power and demand
   analyzers guard the fit (fewer than two points or zero spread give no
   line). The voltage fit has no spread guard, so a zero-spread phase makes
   that analysis fail (`Trend.PlainTrend`).
9. Flag z-score anomalies.
10. Build the `meta` block: record count and period. The current, power and
    demand analyzers add the parsed and invalid timestamp counts; the
    voltage analyzer adds the detected level instead (`Voltage.VoltageMeta`).

The demand analyzer also:

- chooses the demand column, or sums the phases;
- averages the demand into hourly or daily buckets;
- builds hour-of-day and day-of-week profiles;
- reports the top five peaks;
- detects events and anomalies on the buckets.

The model is split by concern:

- **Shared pieces:**
  - `Records`: input normalisation.
  - `Frames`: the data frame, coercion, sorting, timestamp counts.
  - `Stats`: statistics and the median.
  - `Nominal`: level detection.
  - `Limits`: the band and the event loops.
  - `Trend`: the guarded fit.
  - `Anomaly`: z-scores.
  - `Output`: the chart and `meta`.
  - `Native`: `_to_native`.
  - `DateFormat`: the voltage analyzer's `strptime` format and timestamp order.
- **The four analyzers:** `Voltage`, `Current`, `Power`, plus `DemandSeries` and `Demand` for demand.

How values are represented:

- Numbers are `real`; a missing value (NaN/None) is `None`.
- A timestamp is an instant in seconds (`Option<nat>`); `None` is NaT.
- A standard deviation is carried as the sample variance (n−1 denominator). The z-score test `|v−μ|/σ > thr` becomes `(v−μ)² > thr²·σ²`, so no square root is needed.
- Two library calls are parameters (`Records.Parsers`): pandas' `pd.to_datetime` and the string-to-number coercion of `pd.to_numeric`.
- `np.polyfit` is the closed-form ordinary-least-squares line. It is proved to be the unique least-squares line.

## Model

| member | source | states |
|---|---|---|
| Records.Unwrap | analise_corrente_rms.py:36-38 | a record whose `dadoEnergia` value is an object yields that object, any other object yields itself |
| Records.NormalizeInput | analise_corrente_rms.py:31-49 | None gives []; an object gives one record (unwrapped); a list gives its objects unwrapped, in order, non-objects dropped, never more than the list's length; anything else gives [] |
| Records.NormalizedLength | analise_corrente_rms.py:39-48 | the normalised list has one entry per object of the input, so it is never longer than the input |
| Records.NormalizedAppend | analise_corrente_rms.py:41-47 | normalising a concatenation normalises each part and concatenates the results |
| Records.NormalizedAt | analise_corrente_rms.py:41-47 | the object at input position i lands, unwrapped, at position (number of objects before i) |
| Records.NormalizedKeepsOrder | analise_corrente_rms.py:39-48 | two objects keep their relative order in the output |
| Frames.ToNumeric | analise_corrente_rms.py:204-206 | `pd.to_numeric(errors='coerce')` on one cell: numbers stay, booleans become 1/0, null, lists and objects become missing |
| Frames.Column | analise_corrente_rms.py:215 | one value per row; a column the frame lacks (`df.get(f, empty)`) reads as all missing |
| Frames.Cells | analise_corrente_rms.py:229-234 | a row's values for a list of channels, one per channel in channel order |
| Frames.SelectedMembers | analise_potencia_ativa_reativa.py:217 | `[c for c in cands if c in df.columns]` holds exactly the candidates that are columns |
| Frames.SelectedOrder | analise_potencia_ativa_reativa.py:217 | the selection keeps the candidates' relative order |
| Frames.SelectedDistinct | analise_potencia_ativa_reativa.py:215-225 | distinct candidates give a selection without duplicates |
| Frames.SelectedAppend | analise_potencia_ativa_reativa.py:215-225 | selecting from a concatenation concatenates the selections (the `+=` steps) |
| Frames.Times | analise_corrente_rms.py:216 | the parsed-timestamp column, one entry per row |
| Frames.SortByTimeCorrect | analise_corrente_rms.py:200-201 | the sort is a permutation of the rows with valid timestamps non-decreasing and every NaT after every valid timestamp |
| Frames.SortedValidPrefix | analise_corrente_rms.py:200-201 | after the sort, row i has a valid timestamp exactly when i is below the parsed count |
| Frames.RawRows | analise_corrente_rms.py:193-206 | one row per record, in record order, with its parsed timestamp and coerced cells |
| Frames.KeysOfMembers | analise_corrente_rms.py:193 | the frame's columns are exactly the keys some record has |
| Frames.FrameOfRecords | analise_corrente_rms.py:192-206 | the frame has one row per record, is sorted by time, and is a permutation of the records' rows |
| Frames.FrameColumns | analise_corrente_rms.py:195-200 | the columns are the records' keys plus the date column the analyzer adds |
| Frames.ParsedCount | analise_corrente_rms.py:267 | `timestamps_parsed` never exceeds the number of rows |
| Frames.InvalidCount | analise_corrente_rms.py:268 | `timestamps_parsed + timestamps_invalid == registros` |
| Frames.PeriodStart | analise_corrente_rms.py:263 | `periodo_inicio` is None iff no timestamp parsed, otherwise it is a row's timestamp no later than any valid one |
| Frames.PeriodEnd | analise_corrente_rms.py:264 | `periodo_fim` is None iff no timestamp parsed, otherwise it is a row's timestamp no earlier than any valid one |
| Stats.Present | analise_corrente_rms.py:83 | `dropna()` is never longer than the column |
| Stats.PresentMembers | analise_corrente_rms.py:83 | the present values are exactly the non-missing cells, empty iff every cell is missing |
| Stats.MinOf | analise_corrente_rms.py:92 | the minimum is one of the values and at most each of them |
| Stats.MaxOf | analise_corrente_rms.py:93 | the maximum is one of the values and at least each of them |
| Stats.MeanBetween | analise_corrente_rms.py:90-93 | the mean lies between the minimum and the maximum |
| Stats.VarianceNonNegative | analise_corrente_rms.py:91 | the sample variance (square of `std()`) is never negative |
| Stats.PresentBetween | analise_corrente_rms.py:90-93 | every present value of a column lies between its minimum and maximum |
| Stats.Summarize | analise_corrente_rms.py:76-96 | one row of every statistics table (also `estatisticas_demanda`): `Amostras` is the non-missing count, 0 iff the column is absent or all missing, and then every statistic is None; otherwise Média, Mín and Máx are the mean, minimum and maximum of the present values, Mín ≤ Média ≤ Máx and every value lies within [Mín, Máx]; the deviation exists iff there are two samples, and it is then the sample variance of the present values, non-negative |
| Stats.SummaryTable | analise_tensao_rms.py:41-59 | one row per channel (phase, or power component), in channel order, each the summary of that channel's column alone |
| Stats.SortAscCorrect | analise_corrente_rms.py:74 | the median's sort is an ascending permutation of the samples |
| Stats.MedianBetween | analise_corrente_rms.py:74 | the median lies between the pooled minimum and maximum |
| Stats.MedianSplits | analise_corrente_rms.py:74 | at least half the samples are at most the median and at least half at least it |
| Stats.MedianBetweenMiddles | analise_corrente_rms.py:74 | the median lies between the two middle sorted samples (equal for odd counts) |
| Stats.PooledEmpty | analise_corrente_rms.py:68-73 | the pooled samples are empty iff every phase cell of every row is missing |
| Nominal.MedianLevel | analise_corrente_rms.py:63-74 | None iff no phase has a value; otherwise the median of the pooled samples, unsnapped, between their min and max |
| Nominal.NearestIndex | analise_tensao_rms.py:37 | `min(levels, key=abs(x - med))`: an index of minimal distance, and the first such index (ties go to the earlier level) |
| Nominal.Snap | analise_tensao_rms.py:37 | the snapped level is one of 110/220/380 and no other level is closer |
| Nominal.SnapThresholds | analise_tensao_rms.py:37 | 110 up to 165, 220 up to 300, 380 above (ties at 165 and 300 go to the lower level) |
| Nominal.VoltageLevel | analise_tensao_rms.py:29-38 | None exactly when no phase has a value; otherwise the standard level nearest the pooled median |
| Nominal.TotalPowerLevel | analise_potencia_ativa_reativa.py:130-140 | None if `potencia_ativa_tot` is absent or all missing; otherwise the unsnapped median of the column, between its min and max |
| Limits.Classify | analise_corrente_rms.py:139-148 | shared by the three analyzers with their own tags: None iff the value is missing; under iff strictly below low; over iff not below low and strictly above high; ok otherwise |
| Limits.BandInclusive | analise_corrente_rms.py:142-148 | for a non-negative level and tolerance, ok iff low ≤ v ≤ high, so both edges are ok |
| Limits.DetectEvents | analise_corrente_rms.py:237-256 | no level gives no events; otherwise the events of every row and channel (the power analyzer passes only `potencia_ativa_tot`), rows in order |
| Limits.ScanRow | analise_corrente_rms.py:248-256 | the inner loop yields the events of one row, channel by channel |
| Limits.RowEventsSound | analise_corrente_rms.py:248-256 | every event of a row names one of its channels, carries that cell's value, and its tag is under or over as the value classifies |
| Limits.EventsSound | analise_tensao_rms.py:142-153 | every event comes from one (row, phase) pair strictly outside the band |
| Limits.RowEventsComplete | analise_corrente_rms.py:248-256 | a cell strictly below (above) the band yields its under (over) event |
| Limits.EventsComplete | analise_tensao_rms.py:142-153 | every (row, phase) pair strictly outside the band yields an event |
| Trend.Points | analise_corrente_rms.py:103 | the masked pairs are never more than the rows |
| Trend.PointsMembers | analise_corrente_rms.py:103 | the mask keeps exactly the rows with both a timestamp and a value |
| Trend.MinTime | analise_corrente_rms.py:106 | `times[mask].min()` is a point's instant, no later than any |
| Trend.MaxTime | analise_corrente_rms.py:117 | the largest instant, used by `np.ptp` |
| Trend.Elapsed | analise_corrente_rms.py:106 | each abscissa is the point's seconds since the earliest point |
| Trend.Values | analise_corrente_rms.py:107 | the ordinates are the points' values, in order |
| Trend.SolvesNormalEquations | analise_corrente_rms.py:121 | the closed-form slope and intercept solve the normal equations of a degree-1 fit |
| Trend.NormalEquationsUnique | analise_corrente_rms.py:121 | nothing else solves them |
| Trend.OlsIsLeastSquares | analise_corrente_rms.py:121 | the fitted line is a least-squares line |
| Trend.OlsUnique | analise_corrente_rms.py:121 | and the only one |
| Trend.SpreadDet | analise_corrente_rms.py:117-121 | a positive spread of the times makes the normal equations solvable |
| Trend.FitLine | analise_corrente_rms.py:98-126 | too few points iff fewer than two masked rows; zero spread iff at least two but all at one instant; otherwise the least-squares line of value against elapsed seconds |
| Trend.GuardedTrend | analise_corrente_rms.py:98-126 | (also every power component) the null pair iff fewer than two points or zero spread; the slope and intercept are present together; a present pair is the least-squares line |
| Trend.PlainTrend | analise_tensao_rms.py:62-69 | without the spread guard: fails iff there are at least two points and all of them lie at one instant (zero spread); fewer than two points give the null pair; otherwise the same line as the guarded fit |
| Anomaly.Flagged | analise_corrente_rms.py:136-137 | every flagged index is an index of the column |
| Anomaly.FlaggedExactly | analise_corrente_rms.py:136-137 | the flagged indices ascend strictly and are exactly the present values with \|z\| > thr |
| Anomaly.ZScoreAnomalies | analise_corrente_rms.py:128-137 | for every analyzer: [] when fewer than two samples (σ is NaN) or σ = 0; otherwise exactly the indices of present values with \|z\| > thr, ascending |
| Anomaly.ZScoreTest | analise_corrente_rms.py:136-137 | the squared test agrees with \|(v−μ)/σ\| > thr for every σ > 0 |
| Anomaly.VarianceZeroIffConstant | analise_corrente_rms.py:133-135 | σ = 0 exactly when every sample equals the mean |
| Anomaly.ConstantColumnNoAnomalies | analise_corrente_rms.py:128-137 | a column whose present values are all equal has no anomalies |
| Native.KeyText | analise_potencia_ativa_reativa.py:161 | `str(k)` of a string key is the key |
| Native.Assign | analise_potencia_ativa_reativa.py:161 | storing a key in a dict overrides its entry in place or appends it, leaving other keys alone |
| Native.AssignKeys | analise_potencia_ativa_reativa.py:161 | storing keeps keys distinct and the key present |
| Native.Build | analise_potencia_ativa_reativa.py:161 | a dict comprehension has distinct keys and no more entries than pairs |
| Native.BuildDistinct | analise_potencia_ativa_reativa.py:161 | with distinct keys the dict is the pairs in order |
| Native.BuildKeys | analise_potencia_ativa_reativa.py:161 | the dict's keys are exactly the pairs' keys |
| Native.BuildValues | analise_potencia_ativa_reativa.py:161 | every entry of the dict is one of the pairs |
| Native.ToNative | analise_potencia_ativa_reativa.py:155-189 | lists, tuples and arrays keep their length; dicts get distinct string keys; NaN floats and NaT become None; ints, finite floats, strings, booleans and None are kept |
| Native.ListsKeepOrder | analise_potencia_ativa_reativa.py:162-170 | a list is converted element by element, in order |
| Native.StringKeyedDict | analise_potencia_ativa_reativa.py:160-161 | a dict with distinct string keys keeps its entries and their order, values converted |
| Native.ToNativeFixes | analise_potencia_ativa_reativa.py:155-189 | converting an already converted value gives it back (idempotence) |
| Native.ToNativeWellFormed | analise_potencia_ativa_reativa.py:155-189 | every converted value has distinct dict keys throughout |
| Output.BuildGraph | analise_corrente_rms.py:219-234 | one chart point per row, in row order, with the row's timestamp and channel values, so a sorted frame gives a time-ordered chart |
| Output.MetaOf | analise_corrente_rms.py:260-269 | parsed + invalid = records; the period is None iff nothing parsed, otherwise its start is not after its end; the level and tolerance are passed through |
| Current.AnalyzeCurrent | analise_corrente_rms.py:186-277 | records = normalised input length; one table row, trend and anomaly list per phase, each from that phase's column; a time-ordered chart with one point per row; events only when a level was detected, and then exactly the out-of-band (row, phase) pairs |
| Power.SelectComponents | analise_potencia_ativa_reativa.py:214-225 | exactly the known components present, in the order active phases, active total, reactive phases, reactive total, without duplicates |
| Power.KnownDistinct | analise_potencia_ativa_reativa.py:215-225 | the eight component names are pairwise different |
| Power.AnalyzePower | analise_potencia_ativa_reativa.py:192-297 | the component list as above; one table row, trend and anomaly list per component; a time-ordered chart; events only with a level and only on `potencia_ativa_tot` |
| DateFormat.Split | analise_tensao_rms.py:24 | splitting at a separator: None iff it is absent, otherwise the text before its first occurrence and the rest |
| DateFormat.SkipSpaces | analise_tensao_rms.py:24 | the `\s+` between date and time consumes exactly the leading whitespace |
| DateFormat.ParseText | analise_tensao_rms.py:24 | every datetime `strptime` accepts for `%d/%m/%Y %H:%M:%S` is a valid calendar datetime |
| DateFormat.ParseFromMonth | analise_tensao_rms.py:24 | the month step only yields valid datetimes |
| DateFormat.ParseFromYear | analise_tensao_rms.py:24 | the year step only yields valid datetimes |
| DateFormat.ParseClock | analise_tensao_rms.py:24 | the clock step only yields valid datetimes |
| DateFormat.Build | analise_tensao_rms.py:24 | a result is built only from fields matching their directives that form a valid datetime (no day 31 of April, no 29 February outside leap years, no second 60) |
| DateFormat.ParseDt | analise_tensao_rms.py:20-26 | None and non-strings give None without raising; a result is a valid datetime |
| DateFormat.Pad2Reads | analise_tensao_rms.py:134 | a two-digit field reads back as its number |
| DateFormat.Year4Reads | analise_tensao_rms.py:134 | a four-digit year matches `%Y` and reads back as its number |
| DateFormat.PaddedFieldsMatch | analise_tensao_rms.py:134 | the zero-padded fields `strftime` writes match the `strptime` directives |
| DateFormat.ParseFormat | analise_tensao_rms.py:16-26 | formatting a valid datetime with `DATE_FMT` and parsing it back returns the same datetime |
| DateFormat.FormatShape | analise_tensao_rms.py:16 | the formatted text is day/month/year, a space, then the clock |
| DateFormat.ClockReads | analise_tensao_rms.py:24 | the formatted clock parses back to the datetime's fields |
| DateFormat.BuildReads | analise_tensao_rms.py:24 | the formatted fields of a valid datetime build it again |
| DateFormat.ToSecondsOrder | analise_tensao_rms.py:113 | sorting by instant is sorting by calendar order, and equal instants are equal datetimes |
| DateFormat.VoltageStamp | analise_tensao_rms.py:112 | the voltage timestamp is valid exactly when `parse_dt` succeeds, and is its instant |
| Voltage.VoltageRecords | analise_tensao_rms.py:109 | a list of objects (with object envelopes) maps element by element to the envelope content, or to an empty record without one; anything else fails |
| Voltage.VoltageFrame | analise_tensao_rms.py:108-127 | the frame exists iff the records can be read, some record has `data_coleta` and every phase is a column |
| Voltage.MaxDeviation | analise_tensao_rms.py:80 | `max(abs(v - avg))` is at least every deviation and equals one of them |
| Voltage.Percent | analise_tensao_rms.py:80 | `d / avg * 100`: zero iff d is zero, non-negative for d ≥ 0 and avg > 0 |
| Voltage.Unbalance | analise_tensao_rms.py:72-81 | missing iff fewer than two phase values or mean 0; otherwise the largest deviation as a percent of the mean, ≥ 0 when the mean is positive |
| Voltage.UnbalanceZeroIffBalanced | analise_tensao_rms.py:72-81 | the unbalance is 0 exactly when all present phases are equal |
| Voltage.DeviationZero | analise_tensao_rms.py:80 | the largest deviation is zero exactly when every value equals the centre |
| Voltage.EqualToMean | analise_tensao_rms.py:77-80 | every value equals the mean exactly when all values are equal |
| Voltage.PhaseTrends | analise_tensao_rms.py:125-127 | the loop succeeds iff no phase's fit hits a zero spread, and then gives each phase's guarded trend |
| Voltage.BuildVoltageGraph | analise_tensao_rms.py:129-140 | one point per row with its timestamp, phases, total active power and unbalance (present iff two phases with a non-zero mean); time-ordered for a sorted frame |
| Voltage.AnalyzeRows | analise_tensao_rms.py:119-176 | succeeds iff every phase fit succeeds, and then reports the level, table, trends, chart (each row's timestamp, phases, total active power and unbalance), events (gated on the level) and anomalies of the sorted rows |
| Voltage.AnalyzeVoltage | analise_tensao_rms.py:108-176 | fails when the frame cannot be built; otherwise as above, with records = input length, a level among 110/220/380 and a time-ordered chart |
| DemandSeries.ChooseDemandField | analise_demanda_perfil.py:127-147 | a non-empty field name that is a column wins; else `potencia_ativa_tot`, else `potencia_ap_tot`; None iff none of these applies; a result is always a column |
| DemandSeries.FirstPresent | analise_demanda_perfil.py:162-164 | the first candidate that is a column, None iff none is |
| DemandSeries.SourceOf | analise_demanda_perfil.py:150-166 | the chosen column if present; else the sum of the active phases present; else the first alternate `potencia_ap_*` column; else no source, exactly when none of those exists |
| DemandSeries.RowSum | analise_demanda_perfil.py:160 | `sum(axis=1, min_count=1)`: missing iff every phase cell is missing, otherwise the sum of the present ones |
| DemandSeries.PresentNonEmpty | analise_demanda_perfil.py:160 | a row has something to sum iff some cell is present |
| DemandSeries.DemandValues | analise_demanda_perfil.py:150-166 | one demand value per row: the column, the row sums, or all missing |
| DemandSeries.KeyOf | analise_demanda_perfil.py:181-183 | a bucket key k places the instant in [k·w, k·w + w); the hour of day is below 24 and the weekday below 7 |
| DemandSeries.InGroupMembers | analise_demanda_perfil.py:259 | a group holds exactly the values whose instant has its key |
| DemandSeries.GroupMean | analise_demanda_perfil.py:259 | the mean of a group is None iff the group is empty, otherwise between its min and max |
| DemandSeries.Width | analise_demanda_perfil.py:180-183 | 'hour' gives 3600 s buckets, anything else 86400 s |
| DemandSeries.BucketAt | analise_demanda_perfil.py:181-183 | bucket k starts at k·w and its mean is None iff no sample falls in it, otherwise between the samples' min and max |
| DemandSeries.LastBucket | analise_demanda_perfil.py:181-184 | the last bucket is not before the first |
| DemandSeries.Aggregate | analise_demanda_perfil.py:169-185 | empty iff no timestamp parsed; otherwise one bucket per key from the first to the last (gaps included), each the bucket of its key |
| DemandSeries.AggregateContiguous | analise_demanda_perfil.py:181-184 | consecutive buckets start exactly one width apart |
| DemandSeries.AggregateAscending | analise_demanda_perfil.py:184 | the buckets are strictly ascending by start |
| DemandSeries.AggregateEnds | analise_demanda_perfil.py:175-184 | the first bucket contains the earliest timestamp and the last bucket the latest |
| DemandSeries.AggregateCovers | analise_demanda_perfil.py:175-183 | every row with a valid timestamp falls in one of the buckets, the one of its key |
| DemandSeries.GroupHolds | analise_demanda_perfil.py:255-259 | every (timestamp, value) pair is counted in its own group, which therefore has a mean |
| DemandSeries.Profile | analise_demanda_perfil.py:253-269 | `perfil_horario` and `perfil_diario`: [] without valid pairs; otherwise 24 (7) entries for hours 0..23 (weekdays 0..6) in order, None exactly for a group without samples, else between its min and max |
| DemandSeries.ProfileCovers | analise_demanda_perfil.py:253-269 | every pair is counted in the entry of its own hour (weekday), which has a mean |
| Demand.Means | analise_demanda_perfil.py:245 | the values of the aggregated series, one per bucket |
| Demand.PresentBuckets | analise_demanda_perfil.py:191 | `dropna()` of the buckets is never longer than the series |
| Demand.PresentBucketsMembers | analise_demanda_perfil.py:191 | it holds exactly the buckets with a mean |
| Demand.InsertDesc | analise_demanda_perfil.py:192 | inserting adds exactly one peak |
| Demand.InsertDescSorted | analise_demanda_perfil.py:192 | inserting into a non-increasing list keeps it non-increasing |
| Demand.SortDesc | analise_demanda_perfil.py:192 | `sort_values(ascending=False)` is a non-increasing permutation |
| Demand.PeaksCorrect | analise_demanda_perfil.py:188-200 | min(n, present count) peaks, non-increasing, drawn from the present buckets, and no bucket left out is larger than a peak kept |
| Demand.PrefixDominates | analise_demanda_perfil.py:192 | after a descending sort, `.head(n)` dominates the rest |
| Demand.PeaksFromBuckets | analise_demanda_perfil.py:194-199 | every peak is the start and mean of a bucket |
| Demand.TopPeaks | analise_demanda_perfil.py:188-200 | the loop builds exactly the top-n list, with the properties above |
| Demand.DemandLevel | analise_demanda_perfil.py:282-283 | None iff no bucket has a mean; otherwise the median of the bucket means, between their min and max |
| Demand.BucketEvents | analise_demanda_perfil.py:286-300 | at most one event per bucket |
| Demand.BucketEventsSound | analise_demanda_perfil.py:286-300 | every event is a bucket with a mean strictly outside the band, tagged 'queda_demanda' below and 'pico_demanda' above |
| Demand.BucketEventsComplete | analise_demanda_perfil.py:286-300 | every bucket strictly outside the band has its event; missing buckets are skipped |
| Demand.DetectDemandEvents | analise_demanda_perfil.py:281-300 | no events without a level; otherwise the events of the buckets against the median |
| Demand.AnomalyStartsExact | analise_demanda_perfil.py:278 | the anomaly labels are exactly the starts of the buckets whose mean is more than thr deviations from the mean |
| Demand.AnomalyStartsAscending | analise_demanda_perfil.py:278 | the labels ascend |
| Demand.AnomalousExactly | analise_demanda_perfil.py:82-91 | the z-score positions on the bucket means are exactly the anomalous buckets |
| Demand.AnomalyPositions | analise_demanda_perfil.py:82-91 | the anomalies as `anomalias_indices` promises them: the positions of exactly the anomalous buckets, ascending, one for each label the code collects and pointing at that label's bucket |
| Demand.FlaggedBucketRaises | analise_demanda_perfil.py:91 | eleven hourly buckets with means 0, …, 0, 11 at threshold 3: only the last bucket is flagged, so the labels are not empty and the analysis as written raises |
| Demand.Starts | analise_demanda_perfil.py:241 | the bucket starts as timestamps, one per bucket |
| Demand.TimeLabels | analise_demanda_perfil.py:275 | `pd.Series(index_agg)` is labelled 0, 1, … |
| Demand.ValueLabels | analise_demanda_perfil.py:275 | `series_agg` is labelled by the bucket starts |
| Demand.Shared | analise_demanda_perfil.py:59 | a label-aligned `&` can only be true on labels both sides carry |
| Demand.AsWrittenNeverFits | analise_demanda_perfil.py:275 | as written, the aligned mask is empty and the aggregate trend is always the null pair |
| Demand.AsWrittenMissesTrend | analise_demanda_perfil.py:275 | two hourly buckets with means 1 and 2: as written the null pair, yet a line fits |
| Demand.AggregateTrend | analise_demanda_perfil.py:58-79 | the null pair iff fewer than two buckets with a mean or zero spread; otherwise the least-squares line of mean against elapsed seconds |
| Demand.AggregateTrendFits | analise_demanda_perfil.py:58-79 | two buckets with a mean and different starts give a line |
| Demand.FieldUsedMislabels | analise_demanda_perfil.py:307 | columns {potencia_ap_1}, no field name: the series is that column, yet `field_used` says 'soma_fases' |
| Demand.SourceLabel | analise_demanda_perfil.py:307 | None iff there is no source; 'soma_fases' for the phase sum; the column's name otherwise |
| Demand.SourceLabelDescribes | analise_demanda_perfil.py:307 | a column label names the column the series is; it agrees with the code whenever the series is the chosen column or the phase sum; None means an all-missing series |
| Demand.DemandMetaOf | analise_demanda_perfil.py:302-311 | parsed + invalid = records; the period is None iff nothing parsed and otherwise ordered |
| Demand.DescribedShape | analise_demanda_perfil.py:241-311 | a report that describes a frame has one record per row, `field_used` the chosen column or 'soma_fases', the null trend, profiles of 0 or 24 (7) entries, contiguous buckets and at most five non-increasing peaks |
| Demand.DemandFrameSize | analise_demanda_perfil.py:213-220 | the frame has one row per normalised record |
| Demand.AnalyzeRows | analise_demanda_perfil.py:227-311 | raises iff some bucket is flagged (the `int` of an instant label); otherwise the report is, part by part, the statistics, profiles, buckets, peaks, events of the demand series, with `field_used` and the trend as the code writes them: the null trend, no anomalies, and a label always present |
| Demand.AnalyzeDemand | analise_demanda_perfil.py:203-322 | raises iff some bucket of the sorted frame is flagged; otherwise the report describes the sorted frame as the code writes it: records = normalised input length, `field_used` the chosen column or else 'soma_fases', the null trend, no anomalies, profiles of 0 or 24 (7) entries, contiguous buckets, at most five non-increasing peaks |

## Left out

- Correlations (`df.corr()`, analise_tensao_rms.py:157-158): floating-point library numerics.
- Rendering of instants as `%d/%m/%Y %H:%M` text in charts, events, peaks, `time_series_agg` and `meta`. The model reports the instants themselves. `strftime` is modelled only for the voltage format and its round trip with `parse_dt`, and only for four-digit years.
- The `time_series_agg` loop (analise_demanda_perfil.py:244-250) only renders each bucket start as text. The model reports the buckets themselves (`Report.aggregated`).
- `pd.to_datetime` and string-to-number coercion are parameters (`Records.Parsers`). A null date cell is NaT whatever the parameter does (`Frames.RowOf`). Instants before 1970 and time zones are not modelled.
- `parse_dt` is modelled for ASCII input. Unicode digits and whitespace, which `strptime` also accepts, are not.
- Floating point: numbers are exact reals. The finite-value mask of the trend guards (analise_corrente_rms.py:110-112) never removes anything, because every modelled value is finite. NaN appears only as `None` (and as `Native.Float.NaN` in `_to_native`).
- Stats.Summarize: reports the sample variance where the source reports the standard deviation, because the square root is left out. Its non-negativity is proved; the z-score test is proved equivalent to the test on σ.
- Trend.FitLine: `np.polyfit` is the exact least-squares line. Its numerical failure modes are not modelled, except the voltage analyzer's zero-spread case (`Trend.PlainTrend` fails). That case is believed to raise there, for lack of a guard.
- Voltage.AnalyzeVoltage: every error path (a non-list input, a non-object item, missing `data_coleta` or phase columns, a zero-spread fit) is one failure value. Which exception Python raises is not distinguished.
- Frames.SortByTime: rows with equal timestamps keep their input order (a stable insertion). pandas' default `sort_values` (quicksort) leaves their order unspecified, so the model fixes one of the orders pandas may produce.
- Demand.TopPeaks: ties are ordered by a stable insertion. pandas' default sort does not promise an order among equal values.
- Demand.AnomalyStartsExact: the labels are bucket start instants, which is what the code collects before its `int(...)`. The report never carries them: `int` of a timestamp label is taken to raise `TypeError`, so `Demand.AnalyzeRows` fails whenever one exists (see the findings). Which exception is raised is not distinguished.
- DemandSeries.KeyOf: hours and weekdays come from instants counted from 1970-01-01 (a Thursday) in UTC.
- DemandSeries.DemandValues: a `field_name` naming a column the coercion leaves alone (`data_inc`, `data_inc_dt`, the id columns) reads as missing, instead of whatever `astype(float)` would do with it.
- Demand.AnalyzeDemand: the report follows the code as written, so its trend is always the null pair and `field_used` is 'soma_fases' whenever no column was chosen. The intended behaviour is modelled and proved beside it (`Demand.AggregateTrend`, `Demand.SourceLabel`, `Demand.AnomalyPositions`; see the findings).
- `_to_native` is modelled on its own (`Native`). The analyzers' reports are built from model values that are already native.

Where the repository's own description of the analyzers and the code disagree, the model follows the code:

- Resampling fills the empty buckets between the first and the last with missing means; it does not drop them.
- With the n−1 deviation, one outlier among n samples has |z| at most (n−1)/√n. So `[10, 10, 10, 10, 100]` has no anomaly at threshold 3: its z is about 1.79.

## Findings

| source | as written | input that shows it | evidently intended | confidence | as-written member | corrected member |
|---|---|---|---|---|---|---|
| analise_demanda_perfil.py:275 | `tendencia_linear_simples(pd.Series(index_agg), series_agg)`: the times carry a 0, 1, … index and the values a timestamp index. The mask `~times.isna() & ~series.isna()` (line 59) aligns the two on their labels and is false everywhere, so the aggregate trend is always the null pair | two hourly buckets with means 1.0 and 2.0 | fit the bucket means against the bucket starts | high (not executed) | Demand.AsWrittenMissesTrend | Demand.AggregateTrendFits |
| analise_demanda_perfil.py:307 | `field_used` is 'soma_fases' whenever no column was chosen, even when the series came from an apparent-power column (lines 162-164) or from nothing (line 166) | columns {potencia_ap_1}, `field_name` None | name the column the series was taken from, and None when there was none | high (not executed) | Demand.FieldUsedMislabels | Demand.SourceLabelDescribes |
| analise_demanda_perfil.py:91 | `[int(i) for i in zs[zs.abs() > z_thr].index.tolist()]` on the aggregated series, whose labels are timestamps (line 184): `int` of a `Timestamp` raises `TypeError`, so the analysis fails whenever a bucket is flagged | eleven hourly buckets with means 0, …, 0, 11 and `z_thr` 3 (last z ≈ 3.02) | report the positions of the flagged buckets in the aggregated series, as the `anomalias_indices` key says | medium (not executed) | Demand.FlaggedBucketRaises | Demand.AnomalyPositions |
