# Level-1 quality control of weather-station readings, in Dafny

This project models the level-1 quality-control (QC) classifier of a weather-station data pipeline (`QC/qc_level_1.py`). The classifier takes a table of sensor readings, one row per device and timestamp, and enriches every row:

- duplicate (device_id, timestamp) rows are dropped;
- the minutes since the device's previous reading are computed;
- negative rain increments are clamped to 0;
- pressure is converted to hPa when the table's median looks like Pa;
- temperature, humidity, wind speed, wind direction, "wind direction requires wind" and 15-minute rain are graded against the threshold record `thr`;
- the temperature step against the device's previous reading is graded;
- per device-day row counts (over 96 expected readings) and rain totals are joined back and graded;
- the names of the failed checks (value -2) and the warning checks (value 0) are collected, in a fixed column order.

Each Spark column expression becomes a Dafny function over `seq<Reading>`, and the table operations become functions with lemmas. Spark's NULL handling is modelled explicitly (module `SqlValues`):

- every sensor column is an `Option<real>`;
- comparisons with NULL give NULL;
- `&` and `|` follow three-valued logic;
- `F.when` fires only on TRUE;
- `F.sum` skips NULLs.

Values are exact `real`s and timestamps are integer seconds.

Modules, one per concern of the source file:

- `SqlValues`: nullable values and SQL three-valued logic.
- `Thresholds`: the `thr` record and the Busia values.
- `Encoding`: `qc_encode_col`.
- `Readings`: the row type, `parse_and_dedup`, `clean_negative_rain` and `convert_pressure_hpa`.
- `Lag`: the window `lag` by device and timestamp, `compute_time_diff` and `compute_tair_step`.
- `Checks`: the row-wise checks.
- `Daily`: `compute_daily_metrics` and the availability arithmetic.
- `Collect`: `collect_qc_check_results`.
- `Level1`: `qc_check_level1` and the end-to-end properties.

The model reproduces the code's behaviour, including these quirks:

- The OK condition of `qc_encode_col` is dead: both of its branches yield 1.
- The warning conditions of the temperature, humidity, wind-speed, temperature-step and daily-rain checks enclose their OK bands. So every present, in-range value is a WARNING (0), and only NULL gives OK (1).
- The time-gap check has its own codes: 0 is regular and -1 is irregular. The collector lists value 0 as a warning. So a regular gap is listed as a warning and an irregular one is listed nowhere.
- A row whose `date` is NULL gets NULL daily aggregates, because the left join cannot match a NULL key. Its availability is therefore 0 and its daily rain check is 1.

Further consequences of the code as written:

- There is no per-reading `valid` flag and no hard/warning classification of checks; the collector only lists names by value.
- A reading 61 minutes after its predecessor gets `QC_time_gap = -1`, which appears in no list.
- The wind-direction range is inclusive at both ends, 360 included.
- The 15-minute rain check compares with absolute thresholds and does not scale them by the elapsed time.
- The daily checks are graded onto every row of the day; no separate daily table is produced.

## Model

| member | source | states |
|---|---|---|
| `Encoding.Encode` | QC/qc_level_1.py:27-47 | the code is -2 exactly when the fail condition is given and TRUE, else 0 exactly when the warn condition is given and TRUE, else 1 (a NULL condition falls through); always one of -2, 0, 1 |
| `Encoding.EncodeIgnoresCondOk` | QC/qc_level_1.py:35 | the OK condition never changes the code |
| `SqlValues.SumNonNull` | QC/qc_level_1.py:258 | the SQL sum is NULL exactly when every value is NULL, and otherwise equals the total of the present values (`PresentTotal`, a front-to-back fold) |
| `SqlValues.SumNonNullAppend` | QC/qc_level_1.py:258 | the sum of a concatenation is the SQL sum of the parts' sums, so a group's total does not depend on how it is split |
| `SqlValues.PresentTotalAppend` | QC/qc_level_1.py:258 | the total of the present values is additive over concatenation |
| `SqlValues.SumNonNullNonNegative` | QC/qc_level_1.py:258 | a sum of non-negative values is non-negative |
| `Thresholds.BusiaBandsNested` | QC/qc_level_1.py:13-24 | in the Busia record every warning band lies inside its physical range, every warning level is at most its failure level, Min_daily_avail is in (0, 1], and Rain_min_inc is at most 0 |
| `Readings.Dedup` | QC/qc_level_1.py:50-60 | after de-duplication no two rows share (device_id, timestamp), the set of keys equals the input's, and every row is an input row |
| `Readings.DedupIdempotent` | QC/qc_level_1.py:58-59 | de-duplicating twice is de-duplicating once |
| `Readings.CleanRain` | QC/qc_level_1.py:124-129 | a cleaned rain value is NULL iff the input is, never negative, equal to the input when that is non-negative, and exactly 0.0 when the input is negative |
| `Readings.CleanNegativeRain` | QC/qc_level_1.py:124-129 | cleaning keeps the row count and every column but rain, keeps NULL rain NULL, sets negative rain to exactly 0.0 and leaves rows with non-negative rain unchanged |
| `Readings.CleanNegativeRainIdempotent` | QC/qc_level_1.py:124-129 | cleaning is idempotent |
| `Readings.CleanNegativeRainKeepsKeys` | QC/qc_level_1.py:128 | cleaning keeps the key set and key uniqueness |
| `Readings.ConvertPressureHpa` | QC/qc_level_1.py:91-109 | with a median above 2000 a present pressure becomes a value that times 100 gives the input; otherwise the pressure is unchanged; NULL stays NULL |
| `Lag.Predecessor` | QC/qc_level_1.py:68-71 | the lag row is of the same device, strictly earlier, and no other earlier row of the device is later; there is none exactly for the device's first row |
| `Lag.PredecessorUnique` | QC/qc_level_1.py:68 | with unique keys the window predecessor is unique |
| `Lag.TimeDiff` | QC/qc_level_1.py:63-74 | the time difference is NULL exactly for a device's first row and strictly positive otherwise |
| `Lag.TimeDiffOfPredecessor` | QC/qc_level_1.py:70-72 | with unique keys the time difference is the predecessor's gap in seconds over 60 |
| `Lag.TairStepOf` | QC/qc_level_1.py:227-234 | the step is NULL on a device's first row, needs the row's temperature, and with unique keys equals this temperature minus the predecessor's |
| `Lag.ScheduleDeterminesLag` | QC/qc_level_1.py:68-72 | lag, time difference and first-row status depend only on device ids and timestamps |
| `Checks.TimeGap` | QC/qc_level_1.py:77-87 | -1 exactly when the time difference is present and outside the inclusive [min_gap, max_gap]; 0 otherwise, NULL included |
| `Checks.TairRange` | QC/qc_level_1.py:138-147 | -2 below Tair_min_phy or above Tair_max_phy, 0 for every temperature inside that range, 1 only for NULL |
| `Checks.RhRange` | QC/qc_level_1.py:151-160 | -2 outside [RH_min_phy, RH_max_phy], 0 inside it, 1 only for NULL |
| `Checks.WindSpeedRange` | QC/qc_level_1.py:164-173 | -2 outside [Wind_min_phy, Wind_max_phy], 0 inside it, 1 only for NULL |
| `Checks.WindDirRange` | QC/qc_level_1.py:177-185 | -2 outside the inclusive [WindDir_min_phy, WindDir_max_phy], 1 inside it or for NULL, never 0 |
| `Checks.WindDirRequiresWind` | QC/qc_level_1.py:188-197 | 0 exactly when the wind speed is present and below WindDir_requires_wind, 1 otherwise |
| `Checks.Rain15Min` | QC/qc_level_1.py:214-223 | -2 below Rain_min_inc or above Rain_max_15min, 0 in (Rain_warn_15min, Rain_max_15min], 1 for NULL or a value in range up to Rain_warn_15min |
| `Checks.TairStep` | QC/qc_level_1.py:237-246 | -2 when the absolute step exceeds Tair_max_step_fail, 0 when it does not, 1 only for a NULL step |
| `Checks.DailyAvailability` | QC/qc_level_1.py:265-270 | 1 exactly when the daily fraction is present and at least Min_daily_avail, 0 otherwise |
| `Checks.RainDaily` | QC/qc_level_1.py:273-283 | -2 above Rain_max_daily, 0 for any present total up to it, 1 only for NULL |
| `Checks.BusiaTemperatureBands` | QC/qc_level_1.py:13-15 | with the Busia thresholds every temperature in [10, 45], the band [12, 36] included, is 0, others -2, NULL 1 |
| `Checks.BusiaRainBands` | QC/qc_level_1.py:18 | with the Busia thresholds a non-negative 15-minute rain is -2 above 40, 0 in (20, 40], 1 in [0, 20] |
| `Daily.DayRows` | QC/qc_level_1.py:256 | a device-day group holds exactly the table's rows with that device and date, each as many times as it occurs in the table |
| `Daily.DailyValidFrac` | QC/qc_level_1.py:256-261 | the fraction is NULL exactly for a NULL date; otherwise 96 times it is the device-day's row count, and it is positive |
| `Daily.DailyRainMm` | QC/qc_level_1.py:256-261 | the daily rain is NULL for a NULL date; otherwise it is the SQL sum of the rain values of the row's device-day group (NULL only if all of them are NULL, else their total), so it is present whenever the row's own rain is |
| `Daily.DailySharedWithinDay` | QC/qc_level_1.py:250-262 | rows of the same device and date carry the same fraction and rain total |
| `Daily.DailyRainNonNegative` | QC/qc_level_1.py:258 | over clamped rain, a daily total is never negative |
| `Daily.AvailabilityByCount` | QC/qc_level_1.py:257 | availability is 1 exactly when the date is present and the day's row count is at least 96 * Min_daily_avail |
| `Daily.BusiaAvailabilityNeeds77` | QC/qc_level_1.py:265-270 | with Min_daily_avail = 0.8 a day is available exactly when it has at least 77 rows |
| `Collect.QcColumnsDistinct` | QC/qc_level_1.py:290-301 | the check column list has ten names, none repeated |
| `Collect.NamesWithCode` | QC/qc_level_1.py:303-313 | the selected names keep the column order, include every name whose value matches, and include no other |
| `Collect.CollectQcCheckResults` | QC/qc_level_1.py:284-318 | a column is in the failed list exactly when its value is -2 and in the warning list exactly when it is 0; both lists keep the order of qc_columns |
| `Collect.FailedAndWarningsDisjoint` | QC/qc_level_1.py:303-313 | no name is in both lists |
| `Collect.TimeGapListing` | QC/qc_level_1.py:310-313 | QC_time_gap is a failure only for -2 and a warning exactly for 0, so a -1 gap is in neither list |
| `Level1.QcCheckLevel1` | QC/qc_level_1.py:352-383 | the output has one row per de-duplicated key, holding the cleaned reading; keys are unique and every input key survives; rain is non-negative; the name lists are the collector's lists for the row's flags, so they keep the order of qc_columns, hold no other names and no repeats, and list a column exactly when its flag is -2 (failed) or 0 (warning) |
| `Level1.Level1Columns` | QC/qc_level_1.py:358-377 | each derived column of an output row (time difference, temperature step, daily fraction, daily rain, hPa pressure) is its function over the output readings, and the ten flags are the ten checks applied to the row's readings and those columns |
| `Level1.TableIsCleaned` | QC/qc_level_1.py:358-361 | the output readings are exactly the cleaned de-duplicated rows, with the same devices and timestamps |
| `Level1.Level1TimeGap` | QC/qc_level_1.py:358-360 | a device's first row has no time difference and gap 0; later rows have a positive difference, and their gap is -1 exactly when the predecessor is under 840 or over 960 seconds earlier |
| `Level1.Level1RainFailsOnlyAboveMax` | QC/qc_level_1.py:361-370 | with Rain_min_inc at most 0 the 15-minute rain fails exactly above Rain_max_15min, and the daily total is non-negative |
| `Level1.Level1BusiaRainFailsOnlyAbove40` | QC/qc_level_1.py:13-24 | with the Busia thresholds the 15-minute rain check of an output row fails exactly above 40 |
| `Level1.Level1TairStep` | QC/qc_level_1.py:372-373 | a first row's step check is 1; a later row with both temperatures is -2 when the temperature moved by more than Tair_max_step_fail and 0 otherwise |
| `Level1.Level1Daily` | QC/qc_level_1.py:376-377 | rows of one device-day share their aggregates; availability is 1 exactly when the day has at least 96 * Min_daily_avail rows |
| `Level1.Level1Listing` | QC/qc_level_1.py:381 | failed and warning lists are disjoint; QC_time_gap is never failed and is a warning exactly when the gap is regular |
| `Level1.Level1TemperatureListing` | QC/qc_level_1.py:365-381 | QC_Tair_range is listed as failed exactly outside the physical range and as a warning exactly inside it |

## Left out

- String-to-timestamp parsing (`F.to_timestamp`) is not modelled. Timestamps arrive as integer seconds and are never NULL, so `F.count` of the timestamp column counts every row of a group.
- `Lag.TimeDiff`: sub-second timestamps are not modelled. The source de-duplicates and orders on full-precision timestamps and casts them to whole seconds only to take the difference, so two readings of a device less than a second apart stay distinct rows there, the later one with a time difference of 0.0 or 1/60 minute, depending on whether the two fall in the same whole second, and `QC_time_gap = -1` either way. With integer-second timestamps the model cannot represent such a pair, which is why its time difference is strictly positive.
- A NULL `device_id` is not modelled; the key columns are always present.
- Which of several duplicate rows `dropDuplicates` keeps is unspecified in Spark. The model keeps the first one, and only key uniqueness, key preservation and "every row is an input row" are claimed.
- Spark does not define the row order of its output. The model keeps the de-duplicated rows in input order.
- `Lag.Predecessor`: on a table with duplicate keys, Spark orders rows with equal timestamps arbitrarily, so its lag may return a row with the same timestamp. The model considers only strictly earlier rows. The pipeline de-duplicates first, and there the two agree (`Lag.PredecessorUnique`).
- The approximate median of `convert_pressure_hpa` (`approxQuantile`, with its exception turned into "no median") is a parameter of the model, not computed.
- Floating-point behaviour (rounding, NaN) is not modelled; values are exact reals.
- Sensor columns that no check reads (UV index, gust, light, rain accumulation) pass through unchanged and are not part of the row type.
- The commented-out expected-pressure and pressure-range checks and the commented-out earlier pipeline are not modelled.
- `config/config.py` repeats the threshold record and holds no logic; `Thresholds.Busia` states those values once.
- The code has no streaming state, per-device history buffer, min/max/avg daily aggregate, anomaly score or sink; none is modelled.
