# CustomerPatronage core, modelled in Dafny

CustomerPatronage predicts how much each customer will spend and how often
they will buy. This project models its three pieces of deterministic logic:

- **Purchase aggregation** (`Loader`). Each raw purchase row becomes one
  aggregated row. The row keeps its own customer id, name and spend, and its
  age in days. It also gets two per-customer statistics:
  - the mean gap between consecutive purchases, taken in date order;
  - the purchase frequency.
- **Prediction arbitration** (`Predictor`). A prediction whose spend and
  frequency are both below `0.01f` counts as a cold start. It is replaced by
  the dataset-wide averages stored next to the model. A batch call rejects an
  empty input, loads the model once and maps the rule over the inputs in
  order. Loading checks the model file before the metadata file.
- **Artifact path layout** (`FileManager`). Each model and window has a
  directory `<base>/customer-patronage/<modelName>-months-window-<N>` holding
  `model.zip` and `metadata.json`.

Modules, one file each:

| file | module | models |
|---|---|---|
| results.dfy | `Results` | `Result` for thrown exceptions; `MapAll`, the `Select(...).ToList()` over a fallible selector |
| purchase_data.dfy | `PurchaseData` | `HistoricalPurchaseData`, `AggregatedPurchaseData` |
| prediction_data.dfy | `PredictionData` | `PurchasePredictionInput`, `PurchasePredictionOutput`, `ModelMetadata` |
| date_order.dfy | `DateOrder` | the stable ascending `OrderBy(p => p.PurchaseDate)`; earliest and latest dates |
| gaps.dfy | `GapStatistics` | `Zip(Skip(1))` gaps and `Average()` |
| loader.dfy | `Loader` | `Loader.cs` |
| numerals.dfy | `Numerals` | the 32-bit `int` window and its decimal text in string interpolation |
| file_manager.dfy | `FileManager` | `FileManager.cs`, with `Path.Combine` |
| predictor.dfy | `Predictor` | `Predictor.cs` |

Representation choices:

- **Time.**
  - A date is a real number of days since a fixed epoch, so `(a - b).TotalDays` is `a - b`.
  - The clock is the parameter `now`.
- **Numbers.**
  - `decimal`, `double` and `float` values are exact reals.
  - The `0.01f` literal is its exact single-precision value: `ColdStartThreshold` = 5368709 / 2^29.
- **Exceptions are `Failure` values.**
  - `First()` or `Last()` of an empty list gives `NoElements`.
  - A decimal division by zero gives `DivideByZero`.
  - A missing artifact gives `FileNotFound(path)`.
  - An empty batch gives `InvalidArgument("inputs")`.
- **Outside calls are parameters.**
  - The ML.NET prediction engine is a function `(M, PredictionInput) -> PredictionOutput` over an abstract model type `M`.
  - `File.Exists`, `Model.Load`, the metadata reader and the application base directory are fields of `ArtifactStore<M>`.

## Model

| member | source | states |
|---|---|---|
| Loader.LoadAndAggregateData | CustomerPatronage/Workers/Loader.cs:12-24 | one aggregated row per raw row, in input order. Each row copies its own id, name and spend, and its days since purchase is `now` minus its own date. The two statistics are those of the row's customer, so rows of one customer agree on them. It succeeds exactly when no customer's first row is dated `now`. The empty-list failure never happens, because every id comes from the data itself |
| Loader.AggregateRow | CustomerPatronage/Workers/Loader.cs:15-23 | the selector for one row of a customer present in the data. It fails, with a division by zero, exactly when that customer's first row is dated `now`. Otherwise it builds the row field by field |
| Loader.AverageDaysBetweenPurchases | CustomerPatronage/Workers/Loader.cs:26-32 | with no rows for the customer, `NoElements` and nothing else. With one row, `now` minus its date. With two or more, the span from earliest to latest date divided by the number of gaps |
| Loader.AverageOfOwn | CustomerPatronage/Workers/Loader.cs:28-31 | the three cases of the average over one customer's rows: none, one, more |
| Loader.MeanSortedGap | CustomerPatronage/Workers/Loader.cs:28-30 | the mean consecutive gap of the date-sorted rows equals the span per gap |
| Loader.DaysSinceOnlyPurchase | CustomerPatronage/Workers/Loader.cs:28-31 | for a single row, the last sorted row is that row, so the result is `now` minus its date |
| Loader.SortedMeanGap | CustomerPatronage/Workers/Loader.cs:28-30 | after a date sort, the mean consecutive gap telescopes to (latest − earliest) / (count − 1) |
| Loader.SpanPerGap | CustomerPatronage/Workers/Loader.cs:29-30 | the mean gap of two or more purchases is never negative |
| Loader.SortedDatesSpan | CustomerPatronage/Workers/Loader.cs:28 | sorted by date, the dates run from the earliest date to the latest |
| Loader.PurchaseFrequency | CustomerPatronage/Workers/Loader.cs:34-38 | with no rows, `NoElements`. Otherwise it is the customer's row count divided by the days since the customer's FIRST ROW IN INPUT ORDER, not the earliest date. It fails with `DivideByZero` exactly when that row is dated `now` |
| Loader.PurchasesOfMembers | CustomerPatronage/Workers/Loader.cs:28 | `PurchasesOf`, the `Where(p => p.CustomerId == customerId)` filter, keeps exactly the customer's rows. It is non-empty exactly when the customer occurs in the data |
| Loader.PurchasesOfCounts | CustomerPatronage/Workers/Loader.cs:36 | the filter keeps every row of the customer as often as the data holds it, and no row of anyone else |
| Loader.FirstIndexOf | CustomerPatronage/Workers/Loader.cs:37 | the position of the customer's first row in input order |
| Loader.FirstOfPurchases | CustomerPatronage/Workers/Loader.cs:36-37 | whenever the customer occurs, the filtered list is non-empty and its `First()` is the customer's first row in input order |
| Loader.PastPurchasesPositiveFrequency | CustomerPatronage/Workers/Loader.cs:34-38 | when every row is dated before `now`, the frequency of a customer present in the data succeeds and is positive, whatever the row order |
| Loader.PurchasesOfConcat | CustomerPatronage/Workers/Loader.cs:36 | filtering distributes over concatenation |
| Loader.OtherCustomerRowIrrelevant | CustomerPatronage/Workers/Loader.cs:21-22 | inserting another customer's row anywhere changes neither statistic of this customer |
| Loader.SameRowsSameStatistics | CustomerPatronage/Workers/Loader.cs:26-38 | the statistics depend only on the customer's own rows |
| Loader.OnlyIdsAndDatesMatter | CustomerPatronage/Workers/Loader.cs:26-38 | changing names or spends leaves both statistics unchanged |
| Loader.SameDatesSameAverage | CustomerPatronage/Workers/Loader.cs:26-32 | the average depends only on ids and dates |
| Loader.SameDatesSameFrequency | CustomerPatronage/Workers/Loader.cs:34-38 | the frequency depends only on ids and dates |
| Loader.FilteredDatesAgree | CustomerPatronage/Workers/Loader.cs:28 | data agreeing on ids and dates filter to lists agreeing on dates |
| Loader.SameFirstDate | CustomerPatronage/Workers/Loader.cs:37 | data agreeing on ids and dates have the same first row date for every customer |
| DateOrder.Insert | CustomerPatronage/Workers/Loader.cs:28 | one insertion step of the sort. It keeps the list sorted and adds exactly the new row |
| DateOrder.SortByDate | CustomerPatronage/Workers/Loader.cs:28 | `OrderBy` by date: a sorted permutation of its input |
| DateOrder.InsertKeepsDateGroups | CustomerPatronage/Workers/Loader.cs:28 | an insertion puts the row ahead of the rows sharing its date, and disturbs no other date group |
| DateOrder.SortIsStable | CustomerPatronage/Workers/Loader.cs:28 | `OrderBy` is stable: rows sharing a date keep their input order |
| DateOrder.EarliestDate | CustomerPatronage/Workers/Loader.cs:28 | the least date of a non-empty list, attained by one of its rows |
| DateOrder.LatestDate | CustomerPatronage/Workers/Loader.cs:28 | the greatest date of a non-empty list, attained by one of its rows |
| DateOrder.DateSpan | CustomerPatronage/Workers/Loader.cs:30 | earliest to latest is never negative |
| DateOrder.SortedEnds | CustomerPatronage/Workers/Loader.cs:28 | a date-sorted permutation starts at the earliest date and ends at the latest |
| GapStatistics.Gaps | CustomerPatronage/Workers/Loader.cs:30 | `Zip(Skip(1))` pairs each element with its successor: n − 1 gaps, the i-th being `d[i+1] − d[i]` |
| GapStatistics.GapsTelescope | CustomerPatronage/Workers/Loader.cs:30 | the gaps sum to last minus first |
| GapStatistics.SumBounds | CustomerPatronage/Workers/Loader.cs:30 | bounds on every element bound the sum by count times the bound |
| GapStatistics.MeanWithinBounds | CustomerPatronage/Workers/Loader.cs:30 | `Mean`, the `Average()` of a non-empty list, lies between any lower and upper bound of its elements |
| GapStatistics.MeanGap | CustomerPatronage/Workers/Loader.cs:30 | `Average()` of the gaps is the span divided by the number of gaps |
| Results.MapAll | CustomerPatronage/Workers/Loader.cs:15-23 | `Select(...).ToList()` over a selector that may throw. It succeeds exactly when every element does, and then gives one result per element, in order. A failure is the failure of the first element that fails, every earlier element having succeeded |
| Predictor.Arbitrate | CustomerPatronage/Prediction/Predictor.cs:90-122 | a baseline exactly when the raw spend AND the raw frequency are below `0.01f`. A baseline carries the input's id and name and the metadata averages. Otherwise the raw prediction comes back unchanged except for `IsBaseline = false` |
| Predictor.NoColdStartLeaks | CustomerPatronage/Prediction/Predictor.cs:106-116 | an output below the threshold on both values is a baseline, and then the stored averages are below it too |
| Predictor.LoadModel | CustomerPatronage/Prediction/Predictor.cs:13-49 | succeeds exactly when both artifacts exist, under `<dir>/model.zip` and `<dir>/metadata.json`. A missing model is reported first, even when the metadata is also missing. On success it holds what the loader and the reader return for those paths |
| Predictor.PredictSingleCustomer | CustomerPatronage/Prediction/Predictor.cs:75-89 | the load's error, or the arbitration of the input against the loaded model |
| Predictor.ArbitrateAll | CustomerPatronage/Prediction/Predictor.cs:66-73 | one arbitrated output per input, in order, all against the same loaded model |
| Predictor.PredictMultipleCustomer | CustomerPatronage/Prediction/Predictor.cs:52-74 | an empty batch fails with an argument error whatever the artifact store holds, so nothing is loaded. Otherwise it returns the load's error, or one output per input, in order, against the one loaded model |
| Predictor.BatchAgreesWithSingle | CustomerPatronage/Prediction/Predictor.cs:52-89 | a batch fails exactly when the single-customer calls fail, with the same error. Otherwise its i-th output is the single call's output for input i |
| Predictor.BatchSplits | CustomerPatronage/Prediction/Predictor.cs:52-74 | the outputs for `a + b` are those for `a` followed by those for `b` |
| FileManager.CombineKeepsParts | CustomerPatronage/Persistance/FileManager.cs:56 | `Combine`, the Unix `Path.Combine`: an empty second part leaves the first, a rooted second part replaces it, and a relative one follows the first part intact, with one separator in between exactly when the first part is non-empty and does not already end in one |
| FileManager.CombineEndsLikeLast | CustomerPatronage/Persistance/FileManager.cs:56 | a non-empty second part supplies the last character of the combined path |
| FileManager.NameAfterSeparator | CustomerPatronage/Persistance/FileManager.cs:56 | after a prefix ending in a separator, a plain name is the file name, and the parent is the prefix without its separator |
| FileManager.CombineSplits | CustomerPatronage/Persistance/FileManager.cs:56 | joining a directory with a plain file name inserts one separator. Splitting at the last separator gives the directory and the name back |
| FileManager.BaseDirectory | CustomerPatronage/Persistance/FileManager.cs:7-13 | never ends in a separator. An empty base gives `customer-patronage`. Any other base is followed by exactly one separator and `customer-patronage`, with no separator added when the base already ends in one. The file name is `customer-patronage` and the parent is the base without a trailing separator |
| FileManager.WindowFolder | CustomerPatronage/Persistance/FileManager.cs:26 | the `$"{modelName}-months-window-{N}"` folder: the model name, then `-months-window-`, then a numeral that parses back to the window and ends in a digit |
| FileManager.WindowFolderPlain | CustomerPatronage/Persistance/FileManager.cs:26 | a model name without separators gives a folder without separators |
| FileManager.WindowFolderRelative | CustomerPatronage/Persistance/FileManager.cs:26 | the folder is non-empty and rooted exactly when the model name is |
| FileManager.TrainingDataPath | CustomerPatronage/Persistance/FileManager.cs:22-28 | the directory ends in a digit, never in a separator |
| FileManager.TrainingDataPathLayout | CustomerPatronage/Persistance/FileManager.cs:22-28 | for a model name without separators, the directory is the base directory, one separator and the window folder. Its parent is the base directory and its file name the window folder |
| FileManager.FinalPath | CustomerPatronage/Persistance/FileManager.cs:47-57 | a plain file name lands directly inside the model's directory |
| FileManager.ModelPath | CustomerPatronage/Persistance/FileManager.cs:30-36 | `<dir>/model.zip`: its parent is the training-data directory and its file name `model.zip` |
| FileManager.MetadataPath | CustomerPatronage/Persistance/FileManager.cs:38-45 | `<dir>/metadata.json`: its parent is the training-data directory and its file name `metadata.json` |
| FileManager.GetFilePaths | CustomerPatronage/Persistance/FileManager.cs:15-20 | the model path is `<dir>/model.zip` and the metadata path is `<dir>/metadata.json`. Both have the training-data directory as parent, and they never coincide |
| FileManager.WindowsGetDistinctDirectories | CustomerPatronage/Persistance/FileManager.cs:26 | distinct windows give distinct directories for one model name |
| FileManager.ModelNamesGetDistinctDirectories | CustomerPatronage/Persistance/FileManager.cs:26 | distinct relative model names give distinct directories for one window |
| FileManager.LastSeparator | CustomerPatronage/Persistance/FileManager.cs:56 | the position of the last separator, or −1 when there is none |
| FileManager.TypicalBase | CustomerPatronage/Persistance/FileManager.cs:7-13 | an application base of `/app/bin/` gives `/app/bin/customer-patronage` |
| FileManager.TypicalFolder | CustomerPatronage/Persistance/FileManager.cs:26 | model `spend` with a 3-month window gives the folder `spend-months-window-3` |
| Numerals.IntToText | CustomerPatronage/Persistance/FileManager.cs:26 | the decimal text of the window is non-empty and ends in a digit. It has no leading zero: zero is exactly `0`, any other non-negative number starts with a non-zero digit, and a negative number is `-` followed by a non-zero digit |
| Numerals.IntTextRoundTrip | CustomerPatronage/Persistance/FileManager.cs:26 | parsing the decimal text gives the number back |
| Numerals.IntToTextInjective | CustomerPatronage/Persistance/FileManager.cs:26 | distinct numbers have distinct decimal text |

## Left out

- ML.NET: `Model.Load`, `CreatePredictionEngine` and `Predict` are parameters, and `Trainer.Train` only feeds the loader into ML.NET. Neither is modelled.
- File I/O and JSON are not modelled.
  - `File.Exists`, `File.ReadAllText` and `JsonSerializer.Deserialize` are abstract functions.
  - A metadata file that deserializes to `null` is not modelled.
- Clock: the source reads `DateTime.Now` anew in every expression. The model uses one instant `now` for the whole aggregation. Two promises of `Loader.LoadAndAggregateData` rest on that single instant: that rows of one customer carry the same statistics, and its exact success condition. In the source, each row's frequency divides by days measured at that row's own reading of the clock, so two rows of one customer get frequencies that differ by the clock's advance in between.
- Numeric representation is not modelled:
  - `TimeSpan.TotalDays` double rounding;
  - the `decimal` conversion (and its overflow exception);
  - the `Average()` of doubles;
  - float rounding of `PurchasePredictionOutput`.
- Predictor.Arbitrate: NaN and infinite raw outputs are not modelled, because the model's values are reals. In the source a NaN spend or frequency fails the `< 0.01f` test, so such a prediction takes the normal path with `IsBaseline = false`.
- Predictor.Arbitrate: `ExpectedSpend = averageSpend` assigns the `decimal` metadata average to a `float` property. C# has no implicit conversion from `decimal` to `float`, so that line does not compile as written. The model assumes an explicit `(float)` cast and takes the exact value; the cast's rounding is left out.
- Null arguments: the model has no `null`. An empty batch covers the `inputs == null || !inputs.Any()` check.
- Predictor.PredictMultipleCustomer: the source is a lazy iterator, so its argument exception and its load failure surface on the first enumeration. The model returns them eagerly.
- FileManager.Combine: follows the Unix rules of `Path.Combine` (an empty part, a rooted second part, a trailing separator). It leaves out the Windows rules: drive letters and `\`.
- Numerals.IntToText: the window is rendered with an ASCII `-` sign and ASCII digits, as the invariant culture formats it. Cultures with another negative sign are not modelled.
- FileManager.BaseDirectory: `AppDomain.CurrentDomain.BaseDirectory` is a parameter.
- Loader.PurchaseFrequency: as written, the denominator uses the customer's first row in input order, not the earliest purchase. With unsorted data the frequency is therefore too high, but with every row dated before `now` it stays positive (`PastPurchasesPositiveFrequency`). Only a first row dated in the future makes it negative. The model keeps this behaviour, as the contract states. A row dated in the future also gives negative day counts.
- The data containers without logic are not modelled: `DiscrepancyResult`, `PurchasePrediction`, `TrainingData` and the training copy of `HistoricalPurchaseData`.
- The trainer test calls a `TrainModel` method that does not exist in the trainer, so there is nothing to model.
