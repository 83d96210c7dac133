# HealthTrace forecasting pipeline, modelled in Dafny

HealthTrace forecasts disease cases in Iloilo City from a daily table of climate and health features.
This project models the deterministic core of the system:

- **Feature preparation** (`DataProcessor`, `data_utils.dfy`):
  - the data-driven choice of feature columns;
  - the forward, backward and zero gap fill;
  - the min-max scaler kept as object state;
  - the training windows with one-step-ahead targets;
  - the mapping of normalised predictions back to case counts.
- **The forecasting model object** (`DiseaseOutbreakModel`, `model.dfy`). The trained network is a function from the row-major flattened window to the next normalised count. What is modelled is the object's state and the autoregressive roll-out of `predict_future`.
- **The dashboard's decision logic** (`forecast_api.dfy`):
  - the last window and the forecast dates;
  - the HIGH/MEDIUM/LOW alert rule and its message;
  - the clamped and truncated reported counts;
  - the 7-day trend of the status endpoint;
  - the start-up construction of the model objects.
- **The ETL scripts**:
  - `cchain.dfy` covers the ICD-10 code mapping and the weekly-to-daily forward fill with a zero lead-in. It also covers the month-keyed climate merge, with infinities made missing and a forward then backward fill within each disease. Last come the per-disease rolling means and zero-filled lags, and the renamed per-disease output files.
  - `enhance.dfy` covers the city-level aggregation and the conditional Kelvin-to-Celsius conversion. It also covers the date and calendar-year joins of temperature, population and night lights, and the gap fill that skips the target.
  - `atmosphere.dfy` covers the chunked extraction of the Iloilo City readings, the per-date aggregation, the diurnal range, and the 7- and 30-day rolling means.

Shared modules:

- `series.dfy`: pandas column operations.
  - `ffill`, `bfill` and `fillna(0)`;
  - `shift`;
  - NaN-skipping sums and means;
  - `rolling(window, min_periods=1).mean()`.
- `frames.dfy`: `groupby('date').agg(...)` over a table of named columns.
- `groups.dfy`: `groupby(key)[col]` transforms, as per-group gather and scatter, and `unique()`.
- `calendar.dfy`: the Gregorian year and month of a day number.
- `wrappers.dfy`: `Option`, `Result` and the exceptions the pipeline raises.

Conventions:

- Numbers are Dafny `real`.
- A table cell is `Option<real>`, where `None` is NaN.
- A date is a day number counted from 1970-01-01.
- A pandas or numpy exception is an `Err` carrying a `Fault` that names its cause.
- Each Python loop that builds a result is a Dafny `method` with a loop. Each such method is proved equal to a specification function, and the properties are proved as lemmas about that function.
- `DataProcessor` and `DiseaseOutbreakModel` are classes whose methods update their fields.

## Model

| member | source | states |
|---|---|---|
| DataUtils.KeepPresentSpec | app/data_utils.py:29-49 | Filtering the master list by presence keeps exactly the listed columns the table has. It adds no duplicate and keeps master-list order. |
| DataUtils.FeatureSchemaRich | app/data_utils.py:25-55 | Without a `temperature` column, the schema is exactly the present master and target columns. `disease_cases` is last exactly when the table has it. Given a duplicate-free master list, there are no duplicates and master order is kept. |
| DataUtils.LegacyMarkerWins | app/data_utils.py:22-24 | With a `temperature` column the schema is exactly temperature, humidity, rainfall, disease_cases, whatever other columns exist. The target is at index 3. |
| DataUtils.ResolveFeatures | app/data_utils.py:22-55 | The selection loop returns exactly the schema function's list. |
| DataUtils.SelectColumns | app/data_utils.py:58 | `df[names]` succeeds iff every name is a column, and then returns those columns in order. Otherwise it is a KeyError naming a missing column from the list. |
| DataUtils.DenseRows | app/data_utils.py:59-61 | The gap-filled columns become a rectangular matrix with one row per table row and one column per feature. |
| DataUtils.Fit | app/data_utils.py:64 | For every column, the fitted minimum and maximum are values of that column that bound every row. |
| DataUtils.ScaleValueBounds | app/data_utils.py:64 | Values between the fitted extremes scale into [0, 1]. The minimum scales to 0, and the maximum scales to 1 when the column is not constant. |
| DataUtils.ScaleRoundTrip | app/data_utils.py:64-91 | Inverse scaling undoes scaling, and scaling undoes inverse scaling, for every column. |
| DataUtils.PreparedIsUnitScaled | app/data_utils.py:57-66 | A successful prepare_features gives one row per table row and one column per schema feature, with every value in [0, 1]. |
| DataUtils.PreparedReachesBounds | app/data_utils.py:57-66 | Every prepared column contains 0. It contains 1 unless the column is constant. |
| DataUtils.PreparedTargetRoundTrip | app/data_utils.py:57-91 | Unscaling the prepared target column gives back the gap-filled `disease_cases` column. |
| DataUtils.InverseTargets | app/data_utils.py:80-91 | Each prediction is mapped through the target column's inverse map alone, and scaling it again gives the prediction back. An unfitted scaler is NotFitted. An empty batch is rejected. |
| DataUtils.DataProcessor.constructor | app/data_utils.py:9-11 | A new processor keeps its window length and has an unfitted scaler. |
| DataUtils.DataProcessor.PrepareFeatures | app/data_utils.py:19-66 | Returns the prepared matrix, or the failure. A successful fit replaces the scaler. A KeyError before the fit leaves the scaler unchanged. A rejected fit leaves it unfitted. |
| DataUtils.DataProcessor.CreateSequences | app/data_utils.py:68-78 | Gives max(0, n-L) windows, where window i is rows i..i+L-1 and its target is the last cell of row i+L. Consecutive windows share all but one row, and each target is the last row of the next window. It is an IndexError iff there is at least one window and the data has no column. |
| DataUtils.DataProcessor.InverseTransformPredictions | app/data_utils.py:80-91 | The dummy-matrix inverse transform equals the per-prediction inverse map of the target column. |
| Series.LastPresentIsNearestEarlier | app/data_utils.py:59 | `ffill` takes the nearest present value at or before each row, and stays missing iff none exists. |
| Series.NextPresentIsNearestLater | app/data_utils.py:59 | `bfill` takes the nearest present value at or after each row, and stays missing iff none exists. |
| Series.FillForwardBackSpec | prepare_cchain_data.py:134-136 | `ffill().bfill()` keeps present cells and fills from the nearest earlier, else the nearest later, present value. A cell stays missing iff the whole column is missing. |
| Series.FillGapsSpec | app/data_utils.py:59 | `ffill().bfill().fillna(0)` keeps present cells, fills from the nearest earlier, else later, present value, and else gives 0. |
| Series.FillForwardBackFrom | prepare_cchain_data.py:134-136 | The fill never invents a value: each present result is a cell of the column. |
| Series.FillGapsExample | app/data_utils.py:59 | The column [-, -, 5, -, 7, -] fills to [5, 5, 5, 5, 7, 7]. |
| Series.RollingMeanOfKnown | prepare_cchain_data.py:153-160 | On a fully measured column, row i of the rolling mean is the mean of the last min(w, i+1) values. |
| Series.RollingMeanFirstRow | extract_atmosphere_features.py:43-44 | With `min_periods=1`, the first row of a rolling mean equals the first cell of the column. |
| Series.RollingSumStep | prepare_cchain_data.py:153-160 | The window sum at row i is the previous window's sum, plus row i, minus the row that left the window. |
| Series.RollingMeanBounds | prepare_cchain_data.py:153-160 | A rolling mean of values in [lo, hi] lies in [lo, hi]. |
| Frames.SortedDistinct | enhance_features.py:101 | The group keys are ascending, distinct, and exactly the dates that occur. |
| Frames.GroupByDate | extract_atmosphere_features.py:30-35 | `groupby('date').agg` succeeds iff every aggregated column exists. It gives one ascending row per distinct date, with exactly the aggregated columns. |
| Frames.DatedRows | extract_atmosphere_features.py:30-35 | The rows of one date in a groupby group are exactly the rows carrying that date, each once, in ascending row order. |
| Frames.GroupCellsAtRows | extract_atmosphere_features.py:30-35 | A date's group holds, in order, the cells of exactly those rows. |
| Frames.GroupByDateCell | extract_atmosphere_features.py:30-35 | Each aggregated cell is the reduction of the cells of the rows carrying its date, in row order. That group is never empty. |
| Frames.GroupByDateOfDaily | enhance_features.py:98-102 | On already daily data a mean aggregation changes nothing, and a sum turns missing cells into 0. |
| Groups.SelectAtRank | prepare_cchain_data.py:149-150 | Reading a row's group at the row's rank gives the row's own value back. |
| Groups.GatherAfterTransform | prepare_cchain_data.py:149-166 | Groups do not mix: gathering one group of a per-group transform equals transforming that group alone. |
| Groups.GroupTransformCompose | prepare_cchain_data.py:135-136 | A per-group `ffill` followed by a per-group `bfill` equals the composed fill applied to each group. |
| Groups.WriteGroup | prepare_cchain_data.py:153-166 | The row loop of `df.loc[mask, col] = values` writes the group's rows with the values in order and leaves all other rows unchanged. |
| Groups.Unique | prepare_cchain_data.py:88 | `unique()` returns each key once, in order of first appearance, and exactly the keys that occur. |
| Cchain.DiseaseOf | prepare_cchain_data.py:16-20 | Exactly the codes A90-A91, A01 and A00 are mapped, each to a tracked disease name. |
| Cchain.DiseaseOfInjective | prepare_cchain_data.py:16-20 | Distinct mapped codes give distinct diseases. |
| Cchain.LoadDiseaseReportsSpec | prepare_cchain_data.py:22-43 | A report is kept iff some row has the Iloilo City code, a mapped ICD-10 code, and that disease, date and case total. |
| Cchain.FirstDay | prepare_cchain_data.py:80-84 | The start of the date range is the earliest report date. |
| Cchain.LastDay | prepare_cchain_data.py:80-84 | The end of the date range is the latest report date. |
| Cchain.ReportCellSpec | prepare_cchain_data.py:96-97 | The left merge finds a report of that disease and day when one exists, and is missing when none does. |
| Cchain.DailyCasesSpec | prepare_cchain_data.py:99-101 | A day's count is the nearest earlier report, or 0 before the first report. |
| Cchain.ResampleWeeklyToDaily | prepare_cchain_data.py:75-109 | The per-disease loop equals the resampled table. An empty report list has no date range and fails. |
| Cchain.BlocksLength | prepare_cchain_data.py:86-106 | The daily table has one row per reported disease per day of the range. |
| Cchain.BlocksPlaced | prepare_cchain_data.py:86-106 | Every row carries a listed disease, a day of the range, and that disease's filled count for that day. |
| Cchain.BlocksAscending | prepare_cchain_data.py:86-106 | With distinct disease names, the dates of each disease ascend through the whole table. |
| Cchain.ResampledShape | prepare_cchain_data.py:75-109 | The daily table has one block per reported disease, each covering every day from the first to the last report. Dates ascend within each disease. Every row is placed with its disease, day and filled count. |
| Cchain.ResampledLength | prepare_cchain_data.py:80-106 | The daily table has one row per reported disease per day from the first to the last report. |
| Cchain.ResampledCovers | prepare_cchain_data.py:80-106 | Every reported disease has a row on every day of the range. |
| Cchain.ToCell | prepare_cchain_data.py:131 | Infinite and NaN readings become missing, and finite readings are kept. |
| Cchain.MonthCellSpec | prepare_cchain_data.py:115-128 | A day takes the climate record of its calendar month, the first one when there are several. |
| Cchain.MonthCellAbsent | prepare_cchain_data.py:120-125 | A month without a climate record gives a missing cell. |
| Cchain.ClimateColumnSpec | prepare_cchain_data.py:133-136 | Each climate cell is its disease group's forward-then-backward fill. A present cell is kept. A filled value comes from the same disease. A cell stays missing iff its disease has no value at all. |
| Cchain.MergeClimateToDaily | prepare_cchain_data.py:111-140 | The merge keeps the daily table and adds four climate columns aligned with it. |
| Cchain.AddDerivedFeatures | prepare_cchain_data.py:142-174 | The per-disease loop of masked assignments equals the per-disease rolling means and lags. |
| Cchain.DerivedRollingSpec | prepare_cchain_data.py:149-160 | `pr_7day_avg` and `pr_30day_avg` are NaN-skipping means over the last 7 or 30 rows of the row's own disease. A disease's first row carries its own value, and gathering a disease gives its rolling mean. |
| Cchain.DerivedLagSpec | prepare_cchain_data.py:162-170 | `cases_lag7` and `cases_lag14` are the count of the same disease 7 or 14 rows earlier, or 0 when there is no such row. |
| Cchain.SaveDiseaseFilesSpec | prepare_cchain_data.py:176-202 | There is one file per disease, named after it, with the 8 renamed columns ending in `disease_cases`. Its rows are that disease's rows, with their dates, ascending. Its columns are the disease's pr_norm, spi3, spi6 and pnp, then the two rolling means of pr_norm, then its case counts. Files come in order of the disease's first appearance. |
| Cchain.SelectAscending | prepare_cchain_data.py:181-182 | A disease's dates are already ascending, so the per-file sort changes nothing. |
| Enhance.AggregateToCityLevelSpec | enhance_features.py:98-102 | The aggregation succeeds iff every value column exists. It gives sorted distinct dates, exactly the value columns, and NaN-skipping means of each date's rows. |
| Enhance.ToCelsiusMean | enhance_features.py:126-128 | Subtracting 273.15 lowers the column's mean by exactly 273.15, and keeps it defined iff it was. |
| Enhance.ProcessTemperatureData | enhance_features.py:104-131 | The processing equals the temperature specification, with its column loop proved against the conversion function. |
| Enhance.ConvertKelvinColumns | enhance_features.py:126-128 | The loop converts exactly the available columns whose mean exceeds 100, and leaves all other columns unchanged. |
| Enhance.TemperaturesSpec | enhance_features.py:104-131 | The result is None iff there is no table, an empty table, or no temperature column. Otherwise the columns are the present temperature columns in list order, with ascending distinct dates. |
| Enhance.TemperatureColumn | enhance_features.py:113-128 | Each output temperature cell is the date's mean, converted to Celsius when the column's mean exceeds 100. |
| Enhance.FirstInYearSpec | enhance_features.py:153-158 | `groupby('year').first()` takes a year's first present value, and is missing iff the year has none. |
| Enhance.CellOnDateSpec | enhance_features.py:142 | A base day absent from the right table gets a missing cell; otherwise it gets the cell of the right table's first row of that day. |
| Enhance.JoinOnDateSpec | enhance_features.py:141-143 | The date join keeps the base rows. Each right column holds, on each row, the right table's first value for that row's date, or nothing when the date is absent. The other base columns are unchanged. |
| Enhance.JoinOnYearSpec | enhance_features.py:152-159 | The year join keeps the base rows and drops the helper `year` column. Each yearly column holds, on each row, the first value the yearly table has in that row's calendar year. The other base columns except `year` are unchanged. |
| Enhance.MergeYearly | enhance_features.py:146-160 | One yearly block aggregates a non-empty input and joins it on year, and leaves an absent or empty input out. |
| Enhance.MergeEnhancedFeatures | enhance_features.py:133-180 | The merge equals the enhanced-table specification, including the merge count. |
| Enhance.EnhancedOutcome | enhance_features.py:133-180 | The merge fails iff a non-empty population or night-light table lacks a value column. On success the base rows are kept, the count is the number of non-empty inputs, and `year` is gone. |
| Enhance.EnhancedPopulation | enhance_features.py:146-160 | Each row's population cell is the first city-level value of the row's calendar year. |
| Enhance.EnhancedLights | enhance_features.py:162-175 | Each row's night-light cell is the first city-level value of the row's calendar year, or nothing when that year has none. |
| Enhance.EnhancedTemperature | enhance_features.py:140-145 | Each row's temperature cell is the temperature table's value for that row's date, or nothing when the table lacks the date, unless a yearly input overwrites the column. |
| Enhance.YearlyJoinKeeps | enhance_features.py:163-174 | A year join leaves alone every column that its input does not provide, other than `year`. |
| Enhance.EnhancedKeepsBase | enhance_features.py:137-180 | A base column that no input provides comes through unchanged. |
| Enhance.FillMissingValues | enhance_features.py:222-225 | The column loop equals the fill that skips the target. |
| Enhance.FilledExceptTargetSpec | enhance_features.py:222-225 | `disease_cases` is untouched. Every other column keeps its present cells, fills from the nearest earlier, else later, value, and stays missing iff it is wholly missing. |
| Atmosphere.CityBarangays | extract_atmosphere_features.py:6 | The city's barangays are exactly the adm4 codes listed under the Iloilo City adm3 code. |
| Atmosphere.InCity | extract_atmosphere_features.py:15 | The filter keeps exactly the readings of the listed barangays. |
| Atmosphere.InCityAppend | extract_atmosphere_features.py:13-22 | Filtering distributes over concatenation. |
| Atmosphere.CollectCityReadings | extract_atmosphere_features.py:11-22 | The chunk loop keeps each non-empty filtered chunk and concatenates them, and fails on an empty list. |
| Atmosphere.ChunkingIsInvisible | extract_atmosphere_features.py:13-22 | Chunked reading gives the city's rows of the whole file in file order. It fails exactly when the file has none. |
| Atmosphere.DailyClimateSpec | extract_atmosphere_features.py:30-35 | There is one ascending row per reading date. Temperatures are NaN-skipping means and precipitation is the NaN-skipping sum over that date's readings. |
| Atmosphere.Difference | extract_atmosphere_features.py:42 | `tmax - tmin` is defined iff both are present, and is then their difference. |
| Atmosphere.ExtractAtmosphereFeatures | extract_atmosphere_features.py:11-44 | The script equals the atmosphere-features specification. |
| Atmosphere.AtmosphereOutcome | extract_atmosphere_features.py:11-44 | The script fails iff the file holds no city reading. Otherwise it derives from exactly those readings. |
| Atmosphere.DerivedDailySpec | extract_atmosphere_features.py:30-44 | The table has ascending reading dates and the seven columns. `temp_range` is tmax - tmin wherever both are known. On the first row both rolling means equal `tave`. |
| Atmosphere.TaveWindows | extract_atmosphere_features.py:43-44 | With `tave` known every day, row i of `tave_7day` or `tave_30day` is the mean of the last min(w, i+1) daily averages. |
| ForecastModel.Advance | app/model.py:99-102 | One step drops the oldest row and appends the newest row with its target replaced by the prediction. |
| ForecastModel.FlattenLength | app/model.py:94 | Flattening an L by F window gives L times F values, the size of the reshaped network input. |
| ForecastModel.RolloutAt | app/model.py:92-95 | Prediction i is the network applied to the window after i steps. |
| ForecastModel.RolloutPrefix | app/model.py:87-104 | A shorter forecast is a prefix of a longer one. |
| ForecastModel.WindowAfterClosedForm | app/model.py:87-104 | After j steps the window is the observed rows from j on, followed by the generated rows. |
| ForecastModel.WindowWithClosedForm | app/model.py:98-102 | Feeding back k predictions slides the window k rows along the observed rows followed by the generated rows. |
| ForecastModel.WindowForgetsHistory | app/model.py:98-102 | Once the roll-out has run for a full window, every non-target feature is the last observed value, and the targets are the model's own predictions. |
| ForecastModel.PredictFutureResult | app/model.py:87-104 | The roll-out succeeds iff the horizon is 0, or a network is loaded, the window reshapes to the object's L by F, the network was built for that shape, and the window has a row and a column. It then gives n predictions, prediction i being the network on the window after i steps. A missing network, a failed reshape and a network of another shape are each reported. |
| ForecastModel.DiseaseOutbreakModel.constructor | app/model.py:11-15 | A new model object knows its shape and has no network. |
| ForecastModel.DiseaseOutbreakModel.LoadModel | app/model.py:114-118 | Loading binds the network, with the input shape it was built for, and returns it. |
| ForecastModel.DiseaseOutbreakModel.SaveModel | app/model.py:106-112 | Saving fails iff no network is loaded. |
| ForecastModel.DiseaseOutbreakModel.Predict | app/model.py:79-85 | Predict fails without a model. Otherwise it succeeds iff the batch is non-empty and every window has the shape the loaded network was built for, whatever the object's own sequence_length and n_features, and then gives the network's value for each window. |
| ForecastModel.DiseaseOutbreakModel.PredictFuture | app/model.py:87-104 | The method's loop equals the roll-out specification. |
| ForecastApi.LastWindow | run_app.py:93 | `scaled[-L:]` is the last min(L, n) rows, and with L = 0 every row. |
| ForecastApi.ForecastDatesAfter | run_app.py:103-107 | The forecast dates are consecutive days after the last observed day. |
| ForecastApi.AverageCases | run_app.py:114 | The mean is defined iff the history is non-empty with no NaN, and it lies between two history values. |
| ForecastApi.ClassifyBands | run_app.py:117-125 | The alert is HIGH above twice the average, MEDIUM above 1.5 times, and LOW otherwise. A NaN average is LOW. |
| ForecastApi.ClassifyMonotone | run_app.py:117-125 | A larger predicted maximum never lowers the alert, whatever the historical average. |
| ForecastApi.ReportedCases | run_app.py:130 | Each reported count is the prediction clamped at 0 and then truncated. |
| ForecastApi.NatStringRoundTrip | run_app.py:119-125 | The count quoted in a message reads back as the count. |
| ForecastApi.AlertMessageQuotesCount | run_app.py:119-125 | Every message ends with the truncated maximum followed by " cases.". |
| ForecastApi.ForecastShape | run_app.py:80-138 | A successful forecast has 14 consecutive dates after the last row, as many non-negative counts, and up to 30 days of history ending at the last row. |
| ForecastApi.ForecastWindow | run_app.py:93-97 | The roll-out reads exactly the last 30 scaled rows. |
| ForecastApi.GetForecast | run_app.py:70-141 | The endpoint, run on the processor and model objects, equals the forecast specification. The processor's scaler is refitted to the table on success, kept on a missing column, and left unfitted when the fit is rejected. |
| ForecastApi.InitializeModelAsWritten | run_app.py:36-63 | Each model object is built for 4 features, whatever the schema. |
| ForecastApi.FixedWidthRejectsRichSchemas | run_app.py:46-50 | With the 4-feature model, every table of at least 30 rows whose schema is not 4 wide fails at the reshape. |
| ForecastApi.InitializeModel | run_app.py:36-63 | The model object is as wide as the schema the processor picks. |
| ForecastApi.SchemaWidthServesForecast | run_app.py:80-138 | With a schema-wide model object and a network built for 30 rows of the schema's width, a table of at least 30 rows that has the target gets a full 14-day forecast. |
| ForecastApi.TrendOf | run_app.py:167-168 | The trend is increasing iff the newest of the last 7 counts is recorded and exceeds the oldest. An empty history is an IndexError. |
| ForecastApi.TrendOfFlat | run_app.py:168 | Equal counts give a decreasing trend. |
| ForecastApi.StatusResult | run_app.py:160-175 | An entry exists iff the latest count is recorded. It carries the truncated latest count, the last date, and the 7-day trend of the case column. |
| ForecastApi.CollectStatusSound | run_app.py:147-181 | Every entry comes from a disease with a loaded model and a read table. |
| ForecastApi.GetCurrentStatus | run_app.py:143-181 | The disease loop equals the collected entries. |

## Left out

- File I/O is not modelled: the CSV reads and writes, `os.path.exists`, `parse_dates`, and the chunked reading as such. A file is a value passed in: a table, a list of chunks, or an absent table.
- Flask routing, JSON encoding and the HTTP status codes are not modelled. `datetime.now()` in `last_updated` and the console output are not modelled either.
- TensorFlow is not modelled: model building, training, and the network's arithmetic. A loaded network is the input shape it was built with (`input_shape=(sequence_length, n_features)` in `build_model`) and an arbitrary function of the flattened window. Model files are not read.
- ForecastModel.DiseaseOutbreakModel.Predict: Keras' input check is reduced to equality with the network's built shape. Keras' own rules are looser in places (a recurrent layer may run on another number of time steps with only a warning); that tolerance is not modelled, and ForecastModel.PredictFutureResult uses the same rule.
- `generate_sample_data` is not modelled, because it draws random numbers.
- Floating point is replaced by exact reals. The rounding of means, of `- 273.15` and of the scaler maps is not modelled.
- Date parsing (`pd.to_datetime`) is not modelled, because dates arrive as day numbers. `strftime` formatting of dates is not modelled.
- The sort by date in `load_data` (app/data_utils.py:15-16) is not modelled. ForecastApi.ForecastResult and the status functions take the table as given and do not require its dates to ascend, so on an unsorted table their "last row" is the last row read, not the latest date.
- Cchain.ReportCellSpec: a duplicate (disease, date) report is merged as the first such report in file order. pandas would duplicate the daily row.
- Cchain.MonthCellSpec: a month with several climate records takes the first one. pandas would duplicate the daily rows.
- Cchain.AddDerivedFeatures: the sort by disease name (`sort_values(['disease', 'date'])`) is not modelled. Rows stay in the resampled order, which is already ascending by date within each disease; the method requires exactly that. The per-disease values are the same, and only the row order across diseases differs. The order of the per-disease files follows from that sort as well: in the source `unique()` sees the sorted table, so files come in alphabetical order of disease name, while Cchain.SaveDiseaseFilesSpec gives the order of first appearance in the unsorted table.
- Enhance.MergeEnhancedFeatures: a column name shared by two joined tables gets pandas' `_x`/`_y` suffixes. The model lets the right table's column replace the base column.
- DataUtils.FeatureSchemaRich: the no-duplicate and order conclusions are stated under the premise that the literal master list has no duplicate name. That premise is not proved about the 51 literal names.
- `load_climate_data` (prepare_cchain_data.py:45-73) is not a separate function: `MergeClimateToDaily` takes its city-level monthly records as input. The same holds for `extract_temperature_data`, `load_population_data` and `load_nighttime_lights` in enhance_features.py. Atmosphere.CollectCityReadings models the same chunk-and-filter loop.
- `generate_summary_report` and `get_climate_data` only report, so they are not modelled. The other ETL, merge, activation and training scripts, `config.py` and the dashboard's JavaScript are outside the modelled core.
- `pd.merge` row order and index reset are not modelled. Every join is a left join that keeps the base rows in their order.

## Findings

| source | as written | input that shows it | evidently intended | confidence | as-written member | corrected member |
|---|---|---|---|---|---|---|
| run_app.py:46-50 | Every disease's model object is built with `n_features=4`. The reshape in `predict_future` uses that width. | A table of 30 or more rows with CCHAIN columns (precipitation, spi3, spi6, precip_anomaly, precipitation_7day, precipitation_30day, disease_cases), whose schema has 7 features: reshaping 30 by 7 to (1, 30, 4) fails, so every forecast is an error | The model object is as wide as the schema the processor picks for the table | not executed | ForecastApi.InitializeModelAsWritten, ForecastApi.FixedWidthRejectsRichSchemas | ForecastApi.InitializeModel, ForecastApi.SchemaWidthServesForecast |
