# Quick-Prophet core in Dafny

This project models the two pieces of Quick-Prophet that do the work: the
`BatchCOVIDLogisticProphet` orchestrator and the `add_weekday_features` helper.

The orchestrator:

- checks its `group_cols` argument;
- builds a holiday calendar from a fixed COVID-19 block and an optional "data lag" block that covers the most recent `datalag` weeks;
- on `fit`, splits the data by the values of the grouping columns and trains one logistic-growth Prophet model per group.

Before each group is trained, its grouping columns are dropped. Every remaining column other than `ds` and `y` is registered as an extra regressor. Constant `floor` and `cap` columns are then assigned.

`add_weekday_features` works in two steps. It first writes the day name of each row's date into the caller's frame as column `weekday`. The date comes from the index or from a named datetime column. It then returns that frame with `weekday` replaced by one boolean `weekday_<Day>` indicator column for each day that occurs.

Modules:

- `Results` holds `Option`, `Result` and the Python exceptions raised.
- `Grouping` has generic sequence facts: the positions of a value, first appearances and subsequences. It also proves that grouping partitions a sequence.
- `Tables` models a pandas frame as an index, ordered column labels and one row map per row. It covers column selection, `drop(columns=…)` and column assignment. It also has the `DataFrame` object that a caller holds and that can be mutated in place.
- `Calendar` covers:
  - proleptic Gregorian dates;
  - instants in nanoseconds since 1970-01-01, as pandas stores them;
  - `Timedelta.days`, as floor division;
  - the day of the week;
  - the holiday rows built by `__init__`.
- `Forecaster` models the Prophet model object as a class that records the calls made on it: construction, `add_regressor` and `fit`, in order.
- `Models` holds the `BatchCOVIDLogisticProphet` class, the specification functions for one group's training, and the lemmas about grouping, regressors and saturation.
- `Features` covers weekday derivation, the `get_dummies` encoding and the in-place method.

## Model

| member | source | states |
|---|---|---|
| Models.CheckGroupCols | src/quickprophet/models.py:9-12 | the arguments accepted are exactly lists with at least one column name; anything else gives ValueError with the library's message |
| Models.BatchCOVIDLogisticProphet.Create | src/quickprophet/models.py:4-57 | construction succeeds exactly for a list of at least one column. On success it stores group_cols, floor and cap as given, builds the holiday frame and starts with no models. Otherwise it raises ValueError. |
| Models.BatchCOVIDLogisticProphet.constructor | src/quickprophet/models.py:14-57 | the object is valid (non-empty group_cols), the fields are stored as given, and holidays is the covid block alone or the covid block followed by the data-lag block, depending on the truthiness of datalag |
| Models.DefaultHolidays | src/quickprophet/models.py:4 | the default floor is 0 and the default cap 56.25. The default datalag of 26 gives two holiday rows: covid19 with upper window 366, and data_lag starting 26 weeks before the first clock read, with upper window 182. |
| Calendar.Holidays | src/quickprophet/models.py:19-57 | the holiday frame starts with the covid block. It has a second row exactly when datalag is truthy: data_lag, with lower window 0, ending at the second clock read. |
| Calendar.DayOfWeek | src/quickprophet/features.py:15-17 | the day of the week of an instant is one of 7, counted from Monday |
| Calendar.WholeDays | src/quickprophet/models.py:33-35 | `.dt.days` of a time difference is the unique n with n days <= delta < n+1 days (floor) |
| Calendar.NextNewYear | src/quickprophet/models.py:30-35 | the closed-form day count of 1 January advances by the length of the previous year |
| Calendar.DaysBeforeYearAddsUpYears | src/quickprophet/models.py:30-35 | the closed-form day count equals the year-by-year sum of year lengths from 1 January of year 1 |
| Calendar.CovidBlockSpansLeapYear | src/quickprophet/models.py:19-35 | the covid block runs from midnight 2020-01-01 to midnight 2021-01-01 with lower window 0 and upper window 366 |
| Calendar.WholeDaysOfWeeks | src/quickprophet/models.py:43-52 | n weeks plus less than a day is 7n whole days, for any integer n |
| Calendar.HolidaysStartWithCovid | src/quickprophet/models.py:19-57 | whatever datalag is, the holiday frame is non-empty and starts with the covid19 row with upper window 366 |
| Calendar.HolidaysWithoutLag | src/quickprophet/models.py:56-57 | a falsy datalag (None or 0) leaves only the covid block |
| Calendar.HolidaysWithLag | src/quickprophet/models.py:38-54 | a truthy datalag gives two rows. The second is data_lag, from datalag weeks before the first clock read to the second clock read, with lower window 0 and upper window 7*datalag days, when the two reads are less than a day apart. |
| Calendar.DayOfWeekAdvances | src/quickprophet/features.py:15-17 | the day of the week of the following day is the next one, modulo 7 |
| Calendar.EpochIsDayZero | src/quickprophet/features.py:15-17 | 1970-01-01 is day 0 and a Thursday |
| Calendar.CovidStartIsWednesday | src/quickprophet/models.py:23 | 2020-01-01 was a Wednesday |
| Grouping.IndicesOf | src/quickprophet/models.py:61 | the positions of a value are increasing and are exactly those where the value occurs |
| Grouping.FirstAppearances | src/quickprophet/models.py:61 | the group keys have no duplicates, and a key occurs in it exactly when it occurs in the input |
| Grouping.GroupSizesSum | src/quickprophet/models.py:61 | the sizes of the groups of the distinct keys add up to the length of the input |
| Grouping.SubsequenceTransitive | src/quickprophet/models.py:66-73 | removing columns twice keeps the original relative order |
| Tables.Without | src/quickprophet/models.py:71-73 | the kept labels are exactly those not excluded, in their original order, and stay distinct |
| Tables.DropColumns | src/quickprophet/models.py:66 | dropping columns keeps a well-formed frame whose columns are the kept ones in order, with the same index and cells |
| Tables.Broadcast | src/quickprophet/models.py:78-79 | scalar assignment keeps a well-formed frame, puts the value in every row, overwrites an existing column or appends a new one, and leaves every other cell alone |
| Tables.SetColumn | src/quickprophet/models.py:78-79 | assignment overwrites an existing column in place or appends a new one, and leaves every other cell alone |
| Models.FirstMissing | src/quickprophet/models.py:61 | nothing is missing exactly when every grouping column exists. Otherwise the label reported is the first grouping column, in group_cols order, that the frame lacks. |
| Models.GroupFrameContents | src/quickprophet/models.py:61-66 | a group's training frame holds exactly the rows whose key is that group's, in order and with their index labels, and every column except the grouping columns |
| Models.RowsPartitionIntoGroups | src/quickprophet/models.py:61 | every row lies in the group of exactly one key, and the groups' row counts add up to the input's |
| Models.GroupSizesCountPositions | src/quickprophet/models.py:61 | summing the training frames' row counts over keys counts the positions of those keys |
| Models.GroupFrame | src/quickprophet/models.py:61-66 | a group's frame with the grouping columns dropped is well formed; its contents are stated by GroupFrameContents |
| Models.GroupFrames | src/quickprophet/models.py:61-66 | there is one training frame for each key that occurs in the data, and each is well formed |
| Models.GroupFramesNonEmpty | src/quickprophet/models.py:61-66 | every frame held for an occurring key is that key's group frame, whose contents GroupFrameContents states, and has at least one row: `groupby` yields no empty group |
| Models.ExtraPredictors | src/quickprophet/models.py:71-73 | the extra predictors are exactly the columns other than ds and y, in column order |
| Models.Saturated | src/quickprophet/models.py:78-79 | the frame with floor and cap assigned is well formed; its contents are stated by SaturatedRows |
| Models.RegressorsOfGroup | src/quickprophet/models.py:66-75 | the regressors are exactly the input columns other than the grouping columns, ds and y, each once and in input column order |
| Models.SaturatedRows | src/quickprophet/models.py:78-79 | every row gets the configured floor and cap, nothing else changes, and only missing floor/cap columns are appended, in that order |
| Models.TraceOrder | src/quickprophet/models.py:68-82 | in a trace made of a construction, the registrations and a fit, every registration comes before the single fit, which is last |
| Models.RegressorsBeforeFit | src/quickprophet/models.py:68-82 | each forecaster is built with the holidays and logistic growth, receives every extra predictor in order, and is fitted once, last, on the saturated frame |
| Models.FitOutcomeAsWritten | src/quickprophet/models.py:59-84 | fit as written gives KeyError exactly when a grouping column is missing, naming a grouping column the frame lacks; when it gets through, no group was trained |
| Models.FitAsWrittenFailsOnAnyRow | src/quickprophet/models.py:61-68 | as written, fit on a frame that has the grouping columns succeeds only when the frame has no rows; otherwise it raises NameError for Prophet |
| Models.BatchCOVIDLogisticProphet.TrainGroup | src/quickprophet/models.py:68-82 | one loop iteration returns a new forecaster whose recorded calls are exactly the group's expected trace |
| Models.BatchCOVIDLogisticProphet.FitGroups | src/quickprophet/models.py:61-82 | the loop fills the registry with exactly the given keys. Each key gets its own new forecaster carrying its group's trace. |
| Models.BatchCOVIDLogisticProphet.TrainAll | src/quickprophet/models.py:61-82 | the registry built from a frame that has all grouping columns has exactly the keys that occur, each with its own new forecaster carrying its group's trace |
| Models.BatchCOVIDLogisticProphet.Fit | src/quickprophet/models.py:59-84 | with `Prophet` imported as intended, and group_cols non-empty as `__init__` ensures: fit fails with KeyError naming a missing grouping column, or returns the same object. On return, the registry has one distinct new forecaster for each key occurring in the data, trained on that group's frame. |
| Features.DayName | src/quickprophet/features.py:15-17 | `day_name()` of an instant is one of the seven English day names |
| Features.SortedDayNamesAreSorted | src/quickprophet/features.py:19 | the indicator column order holds the same seven day names as the calendar, in strictly increasing lexicographic order |
| Features.DayNamesOf | src/quickprophet/features.py:15-17 | day names are produced exactly when every value is a timestamp, one per row; otherwise AttributeError |
| Features.Occurring | src/quickprophet/features.py:19 | the categories encoded are the day names that occur, each once, in sorted order |
| Features.IndicatorNameInjective | src/quickprophet/features.py:19 | distinct day names give distinct indicator labels |
| Features.WeekdayColumn | src/quickprophet/features.py:14-17 | on success, one day name per row. Without dtcol the only error is AttributeError about the index. With dtcol, KeyError when the column is missing, otherwise AttributeError from the `.dt` accessor. |
| Features.WeekdayFeatures | src/quickprophet/features.py:3-21 | succeeds exactly when the weekday column can be computed, raising the same exception otherwise; the result is well formed, with the input's index and row count |
| Features.EncodeWeekday | src/quickprophet/features.py:19 | the encoded frame is well formed, so its column labels are distinct and every row has exactly those labels |
| Features.WeekdayFeaturesErrors | src/quickprophet/features.py:14-17 | without dtcol, AttributeError exactly when some index value is not a timestamp. With dtcol, KeyError when the column is missing, and AttributeError exactly when some value of it is not a timestamp. |
| Features.WeekdayColumnNames | src/quickprophet/features.py:14-17 | on success, the weekday column holds the day name of each row's date |
| Features.WeekdayColumnReplaced | src/quickprophet/features.py:19 | the result has no weekday column. Its columns are the input's other columns in order, followed by the indicators of the days that occur, in sorted order. |
| Features.IndicatorsForOccurringDays | src/quickprophet/features.py:15-19 | column labels are distinct, and a day's indicator column exists exactly when some row's date falls on that day |
| Features.EncodeWeekdayDays | src/quickprophet/features.py:19 | after encoding a frame whose weekday column holds a day name per row, each row has that day's indicator true and every other day indicator false |
| Features.OneIndicatorPerRow | src/quickprophet/features.py:15-19 | in each row, the indicator of that row's day is present and true, and every other day's indicator is false |
| Features.RowsAndColumnsKept | src/quickprophet/features.py:19 | the index, the row count and every cell outside weekday are kept |
| Features.AddWeekdayFeatures | src/quickprophet/features.py:3-21 | returns the encoded frame or the exception. On success, the caller's frame has gained or overwritten the weekday column; on an exception it is unchanged. |

## Left out

- The forecasting library: `Prophet` is a class that records the calls made on it. Its fitting and any error it raises are not modelled.
- The progress message printed for each group.
- Wall clock: `__init__` reads the clock twice (models.py:43 and models.py:45). The two reads are parameters `today1` and `today2` of the constructor.
- Date strings: `"2020-01-01"` and `"2021-01-01"` are modelled as the instants `pd.to_datetime` gives for them, not parsed.
- Timezones, the bounded range of pandas timestamps, `NaT`, and non-integer `datalag` values. `datalag` is `None` or an integer. A negative value is not rejected, because the library does not reject it.
- Groups keyed by NaN, which pandas drops by default, are not modelled. Keys are compared by equality.
- `groupby` order: pandas visits groups in sorted key order, but the model visits them in order of first appearance. The registry is a map from key to a distinct forecaster, so its contents do not depend on this order.
- Key shape: the registry key is the tuple of the grouping values. pandas uses a scalar or a 1-tuple for a single grouping column, depending on its version.
- Before `fit`, the `models` attribute is absent and reading it raises AttributeError. The model starts with an empty registry instead.
- Holiday frame: the concatenated holiday frame's index (0, 0) and its column dtypes are not modelled; its rows are.
- Indicator dtype: `get_dummies` makes `bool` columns in recent pandas and `uint8` in older versions; the model uses booleans.
- AddWeekdayFeatures, WeekdayFeatures, EncodeWeekday: require distinct column labels and no existing `weekday_<Day>` column. pandas would let such a column collide with an indicator.
- An empty index or empty `dtcol` column that does not have a datetime type is treated as if it did. pandas raises AttributeError there (features.py:15 and features.py:17); the model returns an empty result instead.
- Duplicate column labels: every frame in the model has distinct labels, though `fit` itself accepts frames with duplicates.
- `__init__` also stores its intermediate `covid_block` attribute, and the `data_lag_block` attribute when `datalag` is truthy (models.py:19 and models.py:39). The model keeps only the combined `holidays`.
- Fit: requires `Valid()`, a non-empty `group_cols`, as `__init__` guarantees. Python lets a caller reassign the attribute afterwards. `groupby([])` would then raise ValueError ("No group keys passed!"), and the model does not cover that.
- FitOutcomeAsWritten: likewise requires a non-empty `group_cols`.
- Fit, FitOutcomeAsWritten: report a missing grouping column as KeyError naming the first missing label. pandas' `groupby` behaves differently when `group_cols` has as many entries as the frame has rows and not all of them are columns or index names. It then reads the list as one key per row and succeeds. The KeyError comes instead from `drop(columns=...)` (models.py:66), and its payload lists the labels not found in the axis. The exception class and the empty `models` are the same; the payload and the raising line differ.
- WeekdayColumn, WeekdayFeaturesErrors: the AttributeError message for an index without datetime type names `Index`. pandas names the index's own class: `RangeIndex` for a frame with no index set, `Int64Index` for integer labels in older pandas. The model's index is a sequence of values and does not record its class.
- CheckGroupCols, BatchCOVIDLogisticProphet.Create: the entries of `group_cols` are strings. models.py:9 accepts a list of any labels, integer column labels included; every column label in the model is a string.

## Findings

| source | as written | input that shows it | evidently intended | confidence | as-written member | corrected member |
|---|---|---|---|---|---|---|
| src/quickprophet/models.py:68 | `Prophet` is used but never imported, so `fit` raises NameError on the first group | any frame with one row that has the grouping columns | `from prophet import Prophet`, training one model per group | high, not executed | Models.FitAsWrittenFailsOnAnyRow | Models.BatchCOVIDLogisticProphet.Fit |
