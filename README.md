# Walmart weekly sales forecasting: a verified model of its logic

The repository is a sales-forecasting web application. Its TypeScript
front end uploads a CSV of weekly sales and shows forecasts on a dashboard.
Its Python back end trains models and analyses residuals. Most of it is
presentation; this project models the sequential logic underneath, in
Dafny, and proves what that logic promises.

- **CSV parsing** (`FileUpload`, src/components/FileUpload.tsx). The text is
  split on line feeds and blank lines are dropped. The first line gives the
  trimmed headers. Every later line is split on commas and zipped into a
  record keyed by header. A missing cell is `undefined` (None). A text with
  no non-blank line throws, which the model returns as a failure.
- **Mock forecaster** (`Predictions`, src/utils/predictions.ts). Sales are
  summed per date over the records whose date is non-empty and whose sales
  parse to a non-zero number. The dates are sorted and cut to 52 weeks.
  Each week is labelled `W1`, `W2`, ... with rounded actual, predicted and
  error values. The random, seasonal and trend terms of the predicted value
  are one arbitrary perturbation per week, given as a parameter. Also
  modelled: the mean absolute error of `calculateMetrics`.
- **Residual analysis** (`Residuals`, backend/residuals.py). This covers
  exponential smoothing, the naive "last week's sales" forecast, the 80/20
  train/validation split, and the smoothed forecast of the validation
  residuals, seeded from the last smoothed training value.
- **Dashboard aggregates** (`Dashboard`,
  frontend/src/components/Dashboard.tsx). These are the sums of actual and
  predicted values, the first five stores and first six departments in
  order of first occurrence, and the rounded sales per store and per
  department. The departments are then sorted in place by descending value.
- **Training-service client** (`ForecastService`,
  frontend/src/utils/forecastService.ts). This is the ordered list of
  multipart fields `trainModel` sends, plus the error messages of
  `trainModel` and `fetchTrainResults`.
- **The two pages** (`TrainingApp`, frontend/src/App.tsx; `MockApp`,
  src/App.tsx). Each is a class whose fields are the component's state.
  Each handler is a method that states the new value of every field it
  sets and frames the fields it may change.
- **Shared definitions.** `ForecastTypes` holds the record shapes of
  frontend/src/components/types.ts. `JsValues` models JavaScript values:
  `undefined`, thrown errors, NaN, `Math.round` and `+` on numbers.
  `JsStrings` models `trim`, `split` on one character, decimal printing and
  the order of date strings.

The browser, the network and the number parser are parameters: the reply
the service gives, `parseFloat` and `Number` as functions from strings to
numbers or NaN, and the printing of a non-integer number. Numbers are exact
reals, so floating-point rounding is not modelled.

Two modelling choices concern the dashboard:

- frontend/src/components/Dashboard.tsx reads a `data` array of records at
  lines 25-26. Its only caller, frontend/src/App.tsx at lines 208-217, passes
  no `data`, so `data.map` at line 25 throws there. src/App.tsx passes its
  uploaded records to a different `Dashboard` of its own, under
  src/components, which is not part of this model. The store and department
  aggregates are modelled as if `data` held the uploaded records.
- The department sort at Dashboard.tsx:281 compares by subtraction. That
  comparator is inconsistent once a value is NaN, and the resulting order is
  then up to the engine. So the ordering is promised only when every value
  is a number; the permutation is promised always.

## Model

| member | source | states |
|---|---|---|
| JsValues.Add | frontend/src/components/Dashboard.tsx:31 | Number `+`: the sum is NaN exactly when an operand is NaN, otherwise it is the exact sum |
| JsValues.Round | src/utils/predictions.ts:37 | `Math.round(x)` is the integer within half of x, with ties going up |
| JsValues.RoundMonotone | src/utils/predictions.ts:37-39 | rounding never reverses the order of two values |
| JsValues.RoundOfInt | src/utils/predictions.ts:37 | rounding leaves an integer unchanged |
| JsValues.RoundNumber | frontend/src/components/Dashboard.tsx:32 | `Math.round` of NaN is NaN; of a number it is that number rounded |
| JsValues.Abs | src/utils/predictions.ts:39 | `Math.abs(x)` is non-negative and equals x or -x |
| JsStrings.Trim | src/components/FileUpload.tsx:18-19 | `trim()` never lengthens the text and leaves no whitespace at either end |
| JsStrings.Join | src/components/FileUpload.tsx:18 | a join starts with the first piece, followed by the separator when there are more pieces, and is the single piece when there is one |
| JsStrings.TrimStartDropsWhitePrefix | src/components/FileUpload.tsx:18-19 | trimming the start drops exactly a whitespace prefix; the rest is a suffix that starts with a non-space |
| JsStrings.TrimEndDropsWhiteSuffix | src/components/FileUpload.tsx:18-19 | trimming the end drops exactly a whitespace suffix; the rest is a prefix that ends with a non-space |
| JsStrings.TrimIsInfix | src/components/FileUpload.tsx:18-19 | `trim()` is an infix between whitespace runs, with no whitespace at either end |
| JsStrings.TrimEmptyIff | src/components/FileUpload.tsx:18 | a line trims to "" exactly when it is all whitespace |
| JsStrings.TrimIdempotent | src/components/FileUpload.tsx:19 | trimming twice equals trimming once |
| JsStrings.Split | src/components/FileUpload.tsx:18 | `split` always yields at least one piece |
| JsStrings.SplitPieces | src/components/FileUpload.tsx:18 | no piece holds the separator, and there is one more piece than separators |
| JsStrings.JoinSplit | src/components/FileUpload.tsx:18 | joining the pieces with the separator gives back the text |
| JsStrings.SplitJoin | src/components/FileUpload.tsx:22 | splitting a join of separator-free pieces gives back the pieces |
| JsStrings.SplitNoSeparator | src/components/FileUpload.tsx:22 | a text without the separator splits into itself |
| JsStrings.SplitAfterPiece | src/components/FileUpload.tsx:22 | a leading separator-free piece splits off as the first piece |
| JsStrings.NatToString | src/utils/predictions.ts:35 | the decimal text of a number is non-empty and all digits, and starts with 0 only when it is the number 0, printed "0" |
| JsStrings.DigitsValueOfNatToString | src/utils/predictions.ts:35 | reading the decimal text back gives the number |
| JsStrings.NatToStringInjective | src/utils/predictions.ts:35 | distinct numbers print differently |
| JsStrings.LexLessIrreflexive | src/utils/predictions.ts:19 | no date string sorts before itself |
| JsStrings.LexLessTransitive | src/utils/predictions.ts:19 | the date order is transitive |
| JsStrings.LexLessTotal | src/utils/predictions.ts:19 | any two distinct date strings are ordered one way |
| JsStrings.LexLessAsymmetric | src/utils/predictions.ts:19 | the date order is asymmetric |
| FileUpload.NonBlank | src/components/FileUpload.tsx:18 | the filter keeps at most the lines it is given |
| FileUpload.NonBlankAppend | src/components/FileUpload.tsx:18 | filtering a concatenation filters each part |
| FileUpload.Headers | src/components/FileUpload.tsx:19 | one header per comma field of the first line, none holding a comma or edge whitespace |
| FileUpload.TrimmedCells | src/components/FileUpload.tsx:19 | trimming comma-free fields leaves them comma-free and trimmed |
| FileUpload.Cell | src/components/FileUpload.tsx:25 | a cell is undefined exactly past the end of the row, otherwise it is the trimmed field |
| FileUpload.RecordOf | src/components/FileUpload.tsx:22-26 | a record's keys are exactly the header names |
| FileUpload.Parse | src/components/FileUpload.tsx:18-28 | the parse fails exactly when no line is non-blank, and otherwise yields one record per non-blank line after the first |
| FileUpload.RecordOfValue | src/components/FileUpload.tsx:22-26 | under the last header of a name sits that column's cell, which is None exactly when the row is too short |
| FileUpload.BuildRecord | src/components/FileUpload.tsx:22-26 | the `forEach` loop over the headers builds the record of the row's comma fields |
| FileUpload.NonBlankEmptyIff | src/components/FileUpload.tsx:18 | no line survives the filter exactly when every line is blank |
| FileUpload.ParseFailsIffBlank | src/components/FileUpload.tsx:18-19 | the parse fails (no `rows[0]`) exactly when the text is all whitespace |
| FileUpload.ParseRecords | src/components/FileUpload.tsx:18-28 | one record per non-blank line after the first, in line order; headers are the trimmed fields of the first line; every record's keys are the headers; each cell is the trimmed field of its column or None |
| FileUpload.ParseRecordKeys | src/components/FileUpload.tsx:18-26 | every record of a successful parse has exactly the headers as keys |
| FileUpload.ParseRecordCells | src/components/FileUpload.tsx:18-26 | under the last occurrence of a header, each record holds the trimmed cell of that column in its own line |
| FileUpload.RecordsCells | src/components/FileUpload.tsx:22-26 | records built one per line after the header hold, under each header's last occurrence, that line's cell |
| FileUpload.HeadersOfJoin | src/components/FileUpload.tsx:19 | a header line written from plain names reads back as those names |
| FileUpload.ParseUnparse | src/components/FileUpload.tsx:18-28 | a CSV written from headers and rows without commas, line feeds or edge whitespace parses back to the records of those rows |
| Predictions.AggregateWeekly | src/utils/predictions.ts:4-14 | the map loop keys exactly the dates of contributing records, each holding the sum of their sales |
| Predictions.AggregateStep | src/utils/predictions.ts:6-13 | one turn of the `forEach` keeps the map equal to the per-date sums over the records seen so far |
| Predictions.ContributingDatesSnoc | src/utils/predictions.ts:6-13 | a record adds its date exactly when it contributes |
| Predictions.SalesOn | src/utils/predictions.ts:7-12 | a record with an empty date never counts, so the empty date totals 0 |
| Predictions.SalesOnAbsent | src/utils/predictions.ts:11 | a date with no contributing record has a total of 0 |
| Predictions.Least | src/utils/predictions.ts:19 | a non-empty set of dates has a smallest one |
| Predictions.SortedDates | src/utils/predictions.ts:17-19 | the sorted dates are the whole set, each once, strictly ascending |
| Predictions.FirstWeeks | src/utils/predictions.ts:20 | the slice keeps at most 52 dates |
| Predictions.FirstWeeksSmallest | src/utils/predictions.ts:17-20 | the slice holds min(n, 52) dates ascending, each from the set, and every date left out is larger than all kept |
| Predictions.GeneratedPredictions | src/utils/predictions.ts:2-44 | `generatePredictions` returns at most 52 entries |
| Predictions.GeneratePredictions | src/utils/predictions.ts:2-44 | the aggregation loop, sort, slice and map produce the weekly predictions |
| Predictions.EntriesOfAggregate | src/utils/predictions.ts:17-40 | every kept week is a key of the aggregated map, and reading its sum there gives the generated entries |
| Predictions.DatesOfWeeks | src/utils/predictions.ts:17-23 | entries dated with the weeks are as ordered, as drawn from the dates and as minimal as the weeks |
| Predictions.GeneratedDates | src/utils/predictions.ts:4-20 | the output has min(n, 52) entries with strictly ascending (so distinct) contributing dates, and they are the smallest |
| Predictions.Entry | src/utils/predictions.ts:29-40 | an entry keeps its date and the rounded actual value, and its error is the rounded size of the perturbation, never negative |
| Predictions.GeneratedEntries | src/utils/predictions.ts:23-40 | entry i is labelled `W` + (i+1), dated with the i-th week, and has the rounded week total as actual and a non-negative error |
| Predictions.WeekLabel | src/utils/predictions.ts:35 | a label is `W` followed by digits with no leading zero |
| Predictions.WeekLabelsDistinct | src/utils/predictions.ts:35 | distinct weeks get distinct labels |
| Predictions.GeneratedEmpty | src/utils/predictions.ts:6-23 | with no contributing record the output is empty |
| Predictions.ErrorSum | src/utils/predictions.ts:48 | the error sum is never negative when no error is |
| Predictions.Mae | src/utils/predictions.ts:48-58 | the MAE is NaN exactly for an empty list, otherwise a whole number |
| Predictions.ErrorSumBounds | src/utils/predictions.ts:48 | the error sum lies between n times the least and n times the greatest error |
| Predictions.MaeBetween | src/utils/predictions.ts:48-58 | the MAE of a non-empty list lies between its least and greatest error |
| Predictions.MaeOfGenerated | src/utils/predictions.ts:39-58 | the MAE of generated predictions is NaN exactly when there are none, and otherwise non-negative |
| Residuals.Smoothed | backend/residuals.py:5-9 | the smoothed series is as long as its input |
| Residuals.SmoothedIsSmoothing | backend/residuals.py:6-8 | the smoothed series starts at s[0] and follows r[n] = alpha s[n] + (1-alpha) r[n-1] |
| Residuals.SmoothingUnique | backend/residuals.py:6-8 | any series with that start and recurrence is the smoothed series |
| Residuals.ExponentialSmoothing | backend/residuals.py:5-9 | the append loop fails exactly on an empty series and otherwise yields the start and recurrence |
| Residuals.SmoothedConstant | backend/residuals.py:5-9 | a constant series smooths to itself |
| Residuals.SmoothedWithin | backend/residuals.py:8 | with 0 <= alpha <= 1, smoothing stays within the bounds of its input |
| Residuals.DefaultSmoothingWithin | backend/residuals.py:5-12 | with the default factor 0.2, smoothing stays within the bounds of its input |
| Residuals.SmoothedSnoc | backend/residuals.py:7-8 | one more input value extends the smoothing by one recurrence step |
| Residuals.SmoothedContinues | backend/residuals.py:34-40 | smoothing a series re-seeded with the last smoothed value continues the smoothing of the whole |
| Residuals.SmoothedContinuesStep | backend/residuals.py:7-8 | appending one value to the continuation keeps the re-seeded smoothing in step with the whole |
| Residuals.SplitContinues | backend/residuals.py:34-40 | smoothing the part after a split, seeded with the last smoothed value before it, continues the smoothing of the whole series |
| Residuals.Filtered | backend/residuals.py:14 | the filter keeps only rows of the store and department, and keeps every such row of the frame as often as it occurs there |
| Residuals.Insert | backend/residuals.py:15 | insertion adds exactly the one row |
| Residuals.InsertSorted | backend/residuals.py:15 | insertion keeps the rows in date order |
| Residuals.InsertAbove | backend/residuals.py:15 | inserting a row no earlier than a bound among rows no earlier than it keeps all of them no earlier |
| Residuals.SortByDate | backend/residuals.py:15 | the sort is a permutation of the rows |
| Residuals.SortByDateSorted | backend/residuals.py:15 | the sorted rows are in date order |
| Residuals.SplitIndex | backend/residuals.py:29 | the split index is at most n, below n for a non-empty frame, and 0 exactly when there are fewer than two rows |
| Residuals.ResidualValues | backend/residuals.py:18-26 | there is one residual per row |
| Residuals.Points | backend/residuals.py:42-58 | `zip` is as long as the shorter input |
| Residuals.Frame | backend/residuals.py:14-15 | the frame has as many rows as the filter keeps |
| Residuals.FrameSorted | backend/residuals.py:14-15 | the frame is in date order and holds exactly the store's and department's rows of the input, each as often as in the input |
| Residuals.GetResiduals | backend/residuals.py:12-36 | the analysis fails, with the empty-series error, exactly when fewer than two rows match |
| Residuals.Report | backend/residuals.py:29-58 | the two training series have floor(4n/5) points, the two validation series the rest |
| Residuals.PointsSplit | backend/residuals.py:42-50 | splitting rows and values at one index splits the points |
| Residuals.ReportShape | backend/residuals.py:29-58 | train has floor(4n/5) rows, valid the rest; both are non-empty, the smoothed series match their lengths, and train ++ valid is the whole frame |
| Residuals.ReportValues | backend/residuals.py:26-58 | the four series carry the residuals of each part, their smoothing, and the re-seeded forecast without its seed |
| Residuals.ForecastContinuesTraining | backend/residuals.py:34-40 | smoothed train followed by smoothed forecast is the smoothing of all residuals |
| Residuals.FirstForecast | backend/residuals.py:36-40 | the first forecast is alpha times the first validation residual plus (1-alpha) times the last smoothed training value |
| Residuals.Lagged | backend/residuals.py:18-23 | the prediction has one value per week: 0 for the first, the previous week's sales afterwards |
| Residuals.ResidualIsWeekChange | backend/residuals.py:18-26 | the first residual is the first week's sales, each later one the change from the week before |
| Residuals.ResidualsTelescope | backend/residuals.py:18-26 | the residuals sum to the last week's sales |
| Dashboard.SumNumbers | frontend/src/components/Dashboard.tsx:20-21 | a `reduce` sum of numbers only is a number |
| Dashboard.SumNumbersNaN | frontend/src/components/Dashboard.tsx:20-21 | a `reduce` sum is NaN exactly when some term is NaN |
| Dashboard.SumNumbersAppend | frontend/src/components/Dashboard.tsx:20-21 | the sum of a concatenation adds the two sums |
| Dashboard.ActualNumber | frontend/src/components/Dashboard.tsx:20 | a missing `actual` adds NaN; null adds 0 |
| Dashboard.TotalSales | frontend/src/components/Dashboard.tsx:20 | total sales is a number when every prediction has an `actual` field |
| Dashboard.TotalPredicted | frontend/src/components/Dashboard.tsx:21 | total predicted is always a number |
| Dashboard.TotalsNaN | frontend/src/components/Dashboard.tsx:20-21 | total sales is NaN exactly when some prediction lacks `actual`; total predicted is always a number |
| Dashboard.TotalsAppend | frontend/src/components/Dashboard.tsx:20-21 | both totals are additive over concatenation |
| Dashboard.Distinct | frontend/src/components/Dashboard.tsx:25-26 | `[...new Set(xs)]` has the same members as xs and is no longer |
| Dashboard.FirstIndex | frontend/src/components/Dashboard.tsx:25-26 | the first position of a value |
| Dashboard.DistinctOrder | frontend/src/components/Dashboard.tsx:25-26 | the distinct values have no repeats and come in order of first occurrence |
| Dashboard.Take | frontend/src/components/Dashboard.tsx:25-26 | `slice(0, n)` is the prefix of length min(len, n) |
| Dashboard.Column | frontend/src/components/Dashboard.tsx:25-26 | one key value per record |
| Dashboard.Stores | frontend/src/components/Dashboard.tsx:25 | at most five store values of the records, each once |
| Dashboard.Departments | frontend/src/components/Dashboard.tsx:26 | at most six department values of the records, each once |
| Dashboard.KeysFirstOccurrences | frontend/src/components/Dashboard.tsx:25-26 | at most cap distinct column values, in order of first occurrence; a value is left out only when cap earlier ones were kept |
| Dashboard.TakeDistinctKept | frontend/src/components/Dashboard.tsx:25-26 | the first cap distinct values are values of the column, each once, in order of first occurrence |
| Dashboard.TakeDistinctLeftOut | frontend/src/components/Dashboard.tsx:25-26 | a value left out comes after all kept values, and cap values were kept |
| Dashboard.Matching | frontend/src/components/Dashboard.tsx:30 | the filter keeps only records with the key value |
| Dashboard.MatchingMembers | frontend/src/components/Dashboard.tsx:30 | the filter keeps exactly the records with the key value |
| Dashboard.SalesColumn | frontend/src/components/Dashboard.tsx:31 | one parsed sales value per record |
| Dashboard.KeySum | frontend/src/components/Dashboard.tsx:30-31 | a key no record carries sums to 0 |
| Dashboard.KeySumNaN | frontend/src/components/Dashboard.tsx:30-31 | a key's sum is NaN exactly when one of its records has sales that do not parse |
| Dashboard.UnparsedMakesNaN | frontend/src/components/Dashboard.tsx:30-31 | a record of the key with unparsable sales makes the key's sum NaN |
| Dashboard.NaNHasUnparsed | frontend/src/components/Dashboard.tsx:30-31 | a NaN sum comes from a record of the key with unparsable sales |
| Dashboard.KeySumsPartition | frontend/src/components/Dashboard.tsx:29-40 | the per-key sums over all distinct keys add up to the sum of all sales |
| Dashboard.StoreTotals | frontend/src/components/Dashboard.tsx:29-33 | one bar per store |
| Dashboard.DeptTotals | frontend/src/components/Dashboard.tsx:36-40 | one slice per department |
| Dashboard.StoreTotalsRounded | frontend/src/components/Dashboard.tsx:29-33 | bar i is named "Store " + id, and is NaN exactly when a record of that store has unparsable sales, otherwise its rounded sum |
| Dashboard.DeptTotalsRounded | frontend/src/components/Dashboard.tsx:36-40 | slice i is named "Dept " + id, and is NaN exactly when a record of that department has unparsable sales, otherwise its rounded sum |
| Dashboard.Swap | frontend/src/components/Dashboard.tsx:281 | exchanges two entries and keeps the multiset |
| Dashboard.InsertNext | frontend/src/components/Dashboard.tsx:281 | one insertion step keeps the multiset and extends the descending prefix |
| Dashboard.InsertingSwap | frontend/src/components/Dashboard.tsx:281 | swapping the moving entry back past one it ranks before keeps the inner loop's order invariant |
| Dashboard.InsertingDone | frontend/src/components/Dashboard.tsx:281 | when the moving entry stops, the prefix up to it is non-increasing |
| Dashboard.SortDepartments | frontend/src/components/Dashboard.tsx:281 | the in-place sort is a permutation and, with no NaN, non-increasing in value |
| Dashboard.RankDepartments | frontend/src/components/Dashboard.tsx:36-40 | the ranked departments are a permutation of the per-department totals and, with no NaN, non-increasing |
| ForecastService.NumberText | frontend/src/utils/forecastService.ts:76-81 | `String` of NaN is "NaN"; of an integer below 10^21 in magnitude it is its decimal digits, after a minus sign when negative, and they read back as the number |
| ForecastService.IntegerText | frontend/src/utils/forecastService.ts:76-81 | the text of an integer is its decimal digits, after a minus sign when negative, and they read back as its magnitude |
| ForecastService.ScopeName | frontend/src/utils/forecastService.ts:66 | a scope is sent as "overall", "store" or "department" |
| ForecastService.FormFields | frontend/src/utils/forecastService.ts:73-82 | three fields plus one per given id; first the file, then text fields, starting with scope and horizon |
| ForecastService.BuildFormData | frontend/src/utils/forecastService.ts:73-82 | the successive appends build the field list |
| ForecastService.DefaultHorizonText | frontend/src/utils/forecastService.ts:76 | `String(12)` is "12" |
| ForecastService.FormFieldsOrder | frontend/src/utils/forecastService.ts:74-82 | fields go file, scope, horizon, then store_id and dept_id; the horizon defaults to "12"; each id field is present exactly when its id is given |
| ForecastService.FailureText | frontend/src/utils/forecastService.ts:89-98 | the error is never empty: the body when it reads and is non-empty, otherwise "Training failed" |
| ForecastService.FailureDetails | frontend/src/utils/forecastService.ts:90-93 | the reassignment of `details` yields that message |
| ForecastService.TrainOutcome | frontend/src/utils/forecastService.ts:84-100 | a network error passes through; a non-OK reply rejects with the failure message; an OK reply gives its decoded body |
| ForecastService.TrainModel | frontend/src/utils/forecastService.ts:72-101 | sends the field list and resolves to that outcome |
| ForecastService.FetchTrainResults | frontend/src/utils/forecastService.ts:103-113 | a non-OK reply always rejects with "Training failed" |
| TrainingApp.App.constructor | frontend/src/App.tsx:20-42 | the initial state |
| TrainingApp.App.HandleFileUpload | frontend/src/App.tsx:44-48 | stores the data and the file, shows the file's name, and changes nothing else |
| TrainingApp.App.SelectScope | frontend/src/App.tsx:150-152 | sets only the scope |
| TrainingApp.App.EditStoreId | frontend/src/App.tsx:169 | sets only the store id text |
| TrainingApp.App.EditDeptId | frontend/src/App.tsx:179 | sets only the department id text |
| TrainingApp.App.Options | frontend/src/App.tsx:68-73 | the store id is sent exactly for scope store, the department id exactly for scope department, and the horizon is always 12 |
| TrainingApp.App.ValidationError | frontend/src/App.tsx:57-66 | each validation message is shown exactly when its scope is chosen with an empty id |
| TrainingApp.App.HandleGeneratePredictions | frontend/src/App.tsx:50-95 | no file: no change; failed validation: its message and no request; otherwise exactly one request goes out; success fills the results and opens the dashboard; failure shows the message or the fallback and keeps the dashboard; loading ends false on every path |
| TrainingApp.App.Reject | frontend/src/App.tsx:54-66 | a missing id clears and then shows its message, and loading ends false |
| TrainingApp.App.Generate | frontend/src/App.tsx:53-94 | once validation passed: exactly one request, success fills the results with the error cleared, failure shows the message or the fallback and keeps the dashboard, and loading ends false |
| TrainingApp.App.Submit | frontend/src/App.tsx:68-91 | the awaited request is logged; its result fills the dashboard, or its failure message is shown with the dashboard kept |
| TrainingApp.App.ShowResult | frontend/src/App.tsx:75-84 | each result list is stored, or [] when absent, and the dashboard opens |
| TrainingApp.App.ShowFailure | frontend/src/App.tsx:85-91 | the error shown is the message when non-empty, else the fallback |
| TrainingApp.App.HandleClear | frontend/src/App.tsx:97-107 | resets the file, data and results; the frame leaves chart data, error, scope and ids alone |
| TrainingApp.App.HandleBack | frontend/src/App.tsx:114-115 | only hides the dashboard |
| TrainingApp.App.GenerateButtonShown | frontend/src/App.tsx:194-205 | the button is offered on the upload page only with a file name, hence only with a file |
| MockApp.App.constructor | src/App.tsx:9-12 | the initial state |
| MockApp.App.HandleFileUpload | src/App.tsx:14-17 | stores the data and shows "walmart_sales_data.csv" |
| MockApp.App.UploadText | src/components/FileUpload.tsx:17-28 | a text with no non-blank line changes nothing; otherwise its parsed records are uploaded |
| MockApp.App.HandleGeneratePredictions | src/App.tsx:19-25 | no records: no change; otherwise at most 52 generated predictions are stored and the dashboard opens |
| MockApp.App.HandleClear | src/App.tsx:27-32 | back to the initial state |
| MockApp.App.HandleBack | src/App.tsx:34-36 | only hides the dashboard; data and predictions are kept |
| MockApp.App.GenerateButtonShown | src/App.tsx:120-130 | the button is offered exactly on the upload page once a file name is shown, so always there once records are uploaded |

## Left out

- Rendering, styling, charts, icons, and the fixed model-comparison and holiday tables of the dashboard are left out: they are presentation.
- `FileReader`, `fetch`, `response.text()` and `response.json()` are left out: they are browser and network I/O. The service's reply (or a network error's message) is a parameter instead. A decoded body that is not an object, such as `null`, is not modelled.
- File contents are not modelled: a `File` is its name.
- `Math.random`, `Math.sin` and the trend term of the predicted value are one arbitrary real per week, `perturbation(i)`. They are nondeterministic floating-point arithmetic.
- RMSE and R² of `calculateMetrics`, and the dashboard's accuracy and average figures, are left out: they need square roots, or divisions that fail on zero totals.
- Floating point is not modelled: numbers are exact reals, NaN is an explicit case, and `int(len(df) * 0.8)` is floor(4n/5).
- `parseFloat` and `Number` are abstract functions from strings to numbers or NaN. Printing a non-integer number with `String` is an abstract function.
- `toFixed`, `toLocaleString` and `strftime` are left out: they are formatting only. Residual dates are day numbers.
- `localeCompare` is modelled as code-point lexicographic order, with no locale collation. On the ASCII text of dates this agrees with JavaScript's code-unit order.
- Dashboard.StoreTotals, Dashboard.DeptTotals, Dashboard.Stores and Dashboard.Departments: these take the uploaded records as `data`. The throw of `data.map` at frontend/src/components/Dashboard.tsx:25, under its only caller frontend/src/App.tsx, which passes no `data`, is not modelled.
- Residuals.SortByDate: pandas' default sort is not stable, while the model's insertion sort is. Rows sharing a date may come out in another order in the source.
- Residuals.ResidualValues: missing sales are not modelled, so the forward fill is the identity. Values are taken in date order per store and department, as the single group after filtering gives them.
- Dashboard.SortDepartments: when some value is NaN, only the permutation is promised. The source's comparator then gives an order of the engine's choosing. Stability of the sort is not stated.
- Handlers run to completion. The intermediate render with `loading` true during the await, and overlapping clicks, are not modelled.
- `console.error` in the failure branch of frontend/src/App.tsx is left out: it is logging.
- The commented-out clients in frontend/src/utils/forecastService.ts are not part of this model.
- backend/app.py, backend/model.py, backend/metrics.py, backend/eda.py and backend/features.py are not part of this model: they are framework and library glue.
