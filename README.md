# osongi core in Dafny

osongi shows the pine-mushroom (송이버섯) auction results of Korean forestry
unions. This project models the logic behind the site and proves properties
of that model. It covers three parts:

- **The browser-side dataset cache** (`src/utils/dataLoader.ts`,
  `src/utils/database.ts`). `DataLoaderService` keeps a loading-state record
  and a set of listeners. It probes the server for a version token, downloads
  the complete dataset in chunks, and writes it into IndexedDB in batches
  inside one transaction. It answers date-range queries and aggregates from
  that store. `initialize()` picks one of four routes:
  - first visit;
  - fast path;
  - repair of an invalid cache;
  - version check of a stale but valid cache.

  `forceUpdate()` resets the database and reloads it.
- **The record-shaping rules around the cache**
  (`src/utils/analysisUtils.ts`, `src/utils/tableUtils.ts`,
  `src/utils/chartUtils.ts`):
  - filtering by region, union and date;
  - chart-point extraction with last-wins de-duplication and a date sort;
  - table-row expansion with its date/grade sort;
  - the tick-interval rule;
  - colour and dash lookups;
  - partitions by year and by series.
- **The build and scraping scripts** (`scripts/generate-complete-dataset.ts`,
  `scripts/generate-stats.ts`, `tests/generateRawData.spec.ts`):
  - number cleaning, date normalisation, and dates taken from file paths;
  - metadata derivation and the snapshot sort;
  - latest-date tracking and the per-union replace rule;
  - yearly sums, `pickTop` and the latest-day average;
  - the scraper's season-restricted day list, `YYYYMMDD` query dates and
    change detection.

Code that changes state is modelled imperatively. `DataLoaderService` and
the IndexedDB tables (`CacheDb`) are classes whose methods reassign fields.
The chunk concatenation writes into an `array`. `StatsScan` holds the
script's module-level accumulators. Loops are `while` loops with invariants.

Each method is proved against a pure specification. For the loader that
specification is `LoaderSpec`: a `World` value (state, notification log,
database contents) and functions from a `World` and an `Env` to the next
`World` and result. `Env` holds the outside world: clock, `NODE_ENV`, and the
outcomes of `fetch`, stream reads and IndexedDB calls. The properties
promised by the source are lemmas about those functions.

Shared modules:

- `Wrappers`: `Option` and `Result`.
- `Strings`: code-unit string order, split/join, padding, decimal printing and `parseInt`.
- `Numbers`: `parseFloat` on decimals and the scripts' `parseNumber`.
- `Dates`: proleptic Gregorian dates, the successor day, day numbers and ISO text.
- `Sorting`: `filter` and a stable insertion sort.
- `Assoc`: insertion-ordered dictionaries for JS objects and `Map`s.
- `Grouping`: group-by in first-appearance order.
- `Records`: the record shapes of `src/types/data.ts` and `src/utils/database.ts`.
- `Arith`: two product facts used by the size bounds.

There is one further module per source file: `AnalysisUtils`, `TableUtils`,
`ChartUtils`, `GenerateCompleteDataset`, `GenerateStats`, `GenerateRawData`,
`LoaderSpec`, `Database` and `DataLoader`.

Behaviour of the code that the model makes explicit:

- The repair branch of `initialize` ends in `return`. That return skips the
  ready state (see Findings).
- Save progress covers [50, 100], with 100 included. A dataset of 100001
  records already reports 100 for its last batch.
- Download progress passes 50 when the body is longer than Content-Length.
- `validateLocalData` compares the stored row count with the header's
  `totalRecords`. If the header disagrees with its own data, the cache
  fails validation as soon as it is an hour old.
- The fast path declares the cache ready without checking the schema
  version.
- The chart key and the series key join fields with "-". A region that
  contains "-" can therefore collide with another, or be split wrongly.
- In `generate-stats.ts`, the replace rule for one union's entry is an OR,
  so an entry can be replaced by one with a smaller quantity. A day file
  whose name does not parse as a number stops later days of that month
  from becoming the latest date.

## Model

| member | source | states |
|---|---|---|
| `Records.GradeOfKey` | src/types/data.ts:14-37 | a recognised grade key names exactly that grade |
| `Records.GradeKeyRoundTrip` | src/utils/database.ts:21-43 | each of the six grades is recovered from its key |
| `Records.GradePosition` | src/utils/tableUtils.ts:80-88 | the position of a grade in the fixed grade order |
| `Strings.LessEqTotalOrder` | scripts/generate-complete-dataset.ts:257-262 | the code-unit order standing for `localeCompare` (here, and in the date comparison of src/utils/tableUtils.ts:90 and the date index of src/utils/dataLoader.ts:415-417) is total, antisymmetric and transitive |
| `Strings.RemoveAll` | src/utils/dataLoader.ts:76 | `replace(/c/g, "")`: no `c` is left and no character is invented |
| `Strings.RemoveAllAppend` | src/utils/dataLoader.ts:76 | removing a character distributes over concatenation |
| `Strings.Split` | scripts/generate-complete-dataset.ts:103 | every part is free of the separator and there is at least one part |
| `Strings.JoinSplit` | scripts/generate-complete-dataset.ts:103 | joining the parts of a split gives back the string |
| `Strings.SplitJoin` | scripts/generate-complete-dataset.ts:103 | splitting a join of separator-free parts gives back the parts |
| `Strings.PadStart` | scripts/generate-complete-dataset.ts:106-107 | `padStart`: a short string is filled to the width on the left, a long one is unchanged |
| `Strings.PadStartIdempotent` | scripts/generate-complete-dataset.ts:106-107 | padding twice equals padding once |
| `Strings.NatToStringRoundTrip` | scripts/generate-stats.ts:96-99 | reading back a printed natural gives the number |
| `Strings.ParseInt` | scripts/generate-stats.ts:122 | on the directory and file names the scripts list (no leading whitespace or sign), `parseInt` yields a number iff the text starts with a digit |
| `Strings.ParseIntOfPadded` | scripts/generate-stats.ts:122 | `parseInt` of a zero-padded number is the number |
| `Strings.RemoveFirst` | scripts/generate-complete-dataset.ts:123 | `replace(".json", "")` never lengthens the text |
| `Strings.RemoveExtension` | scripts/generate-complete-dataset.ts:123 | a dot-free file name loses exactly its `.json` extension |
| `Sorting.Filter` | src/utils/analysisUtils.ts:152-172 | `filter` keeps exactly the elements that pass, and nothing else |
| `Sorting.FilterIsSubsequence` | src/utils/analysisUtils.ts:152-172 | a filter keeps the input order |
| `Sorting.FilterIdempotent` | src/utils/analysisUtils.ts:152-172 | filtering twice equals filtering once |
| `Sorting.SortBy` | scripts/generate-complete-dataset.ts:258-262 | the sort is a permutation of its input |
| `Sorting.SortBySorted` | scripts/generate-complete-dataset.ts:258-262 | under a total preorder the result is sorted |
| `Sorting.SortBySortedIdentity` | scripts/generate-complete-dataset.ts:258-262 | sorting an input that is already in order changes nothing |
| `Sorting.SortByStable` | scripts/generate-complete-dataset.ts:258-262 | the sort is stable: for every element, the elements the order cannot tell apart from it come out in their input order |
| `Sorting.NoDuplicatesPermutation` | scripts/generate-complete-dataset.ts:228-229 | a permutation of a duplicate-free sequence is duplicate-free |
| `Assoc.Get` | src/utils/analysisUtils.ts:183-186 | a successful lookup returns the value of an entry with that key |
| `Assoc.GetKeys` | src/utils/analysisUtils.ts:183-186 | a lookup succeeds exactly when the key is among the dictionary's keys |
| `Assoc.PutGet` | src/utils/analysisUtils.ts:184-185 | `map.set(k, v)` changes the value of `k` only |
| `Assoc.PutKeys` | src/utils/chartUtils.ts:57-65 | a new key is appended after the old ones, and an old key keeps its place |
| `Assoc.PutUnique` | src/utils/chartUtils.ts:57-65 | a `set` keeps keys unique |
| `Assoc.AccumulateSum` | scripts/generate-stats.ts:164-171 | adding `x` to one entry adds `x` to the sum of all entries |
| `Grouping.GroupByIsFilter` | src/utils/chartUtils.ts:34-44 | the group of a key is the input filtered by that key, in input order |
| `Grouping.GroupByKeys` | src/utils/chartUtils.ts:57-65 | the groups appear in first-appearance order of their keys |
| `Grouping.GroupByUnique` | src/utils/chartUtils.ts:34-44 | every key heads exactly one group |
| `Grouping.DistinctHasAll` | src/utils/chartUtils.ts:57-65 | the distinct keys are exactly the keys that occur |
| `Numbers.ParseFloatOfDigits` | scripts/generate-complete-dataset.ts:96 | `parseFloat` of a digit run followed by a non-number character is its decimal value |
| `Numbers.StripUnit` | scripts/generate-complete-dataset.ts:95 | only a trailing "kg" or "원" is removed |
| `Numbers.CleanNumber` | scripts/generate-complete-dataset.ts:95 | the cleaned text keeps no whitespace or comma and is no longer than the input |
| `Numbers.CleanDigitsWithUnit` | scripts/generate-complete-dataset.ts:95 | digits followed by a unit clean to the digits |
| `Numbers.ParseNumberOfInteger` | scripts/generate-complete-dataset.ts:93-98 | a printed natural with or without a unit parses to that natural |
| `Numbers.ParseNumberIgnoresSeparators` | scripts/generate-complete-dataset.ts:95 | whitespace and commas do not change the parsed number |
| `Numbers.ParseNumberDefaults` | scripts/generate-complete-dataset.ts:93-98 | undefined, empty, or digit-free text gives 0 |
| `Numbers.ParseFloatNeedsDigit` | scripts/generate-complete-dataset.ts:96-97 | `parseFloat` of text without digits is NaN |
| `Numbers.LooseNumber` | src/utils/tableUtils.ts:53-55 | a non-zero parsed value is the `parseFloat` of the comma-free text |
| `Dates.NextDay` | src/utils/analysisUtils.ts:104 | the successor of a valid date is a valid date |
| `Dates.NextDayNumber` | src/utils/analysisUtils.ts:104 | the successor day has the next day number |
| `Dates.BeforeIsDayNumberOrder` | src/utils/analysisUtils.ts:102 | calendar order is day-number order |
| `Dates.DayNumberInjective` | src/utils/analysisUtils.ts:102 | distinct valid dates have distinct day numbers |
| `Dates.ParseIso` | src/utils/analysisUtils.ts:165 | only valid dates are parsed |
| `Dates.IsoRoundTrip` | src/utils/analysisUtils.ts:165 | parsing the ISO text of a date gives the date |
| `AnalysisUtils.GenerateDateRange` | src/utils/analysisUtils.ts:98-108 | for bounds at the same time of day: consecutive days from start to end, both included, in order; empty when start is after end |
| `AnalysisUtils.ApplyFilters` | src/utils/analysisUtils.ts:148-173 | an order-preserving subsequence holding exactly the records that pass the region, union and date tests |
| `AnalysisUtils.ApplyFiltersIdempotent` | src/utils/analysisUtils.ts:152-172 | filtering filtered data with the same filters changes nothing |
| `AnalysisUtils.DateWithinIsRange` | src/utils/analysisUtils.ts:164-169 | with record dates and filter bounds read in one time zone (exact at UTC), a parsed date passes iff its day lies in [startDate, endDate] |
| `AnalysisUtils.GroupedLastWins` | src/utils/analysisUtils.ts:181-186 | the record kept for a (date, region, union) key is the last one with that key |
| `AnalysisUtils.GroupedUnique` | src/utils/analysisUtils.ts:181-186 | one record per key, and no more groups than records |
| `AnalysisUtils.GradePoint` | src/utils/analysisUtils.ts:193-219 | a (record, grade) pair yields at most one point |
| `AnalysisUtils.RecordPoints` | src/utils/analysisUtils.ts:192-220 | a record yields at most one point per selected grade |
| `AnalysisUtils.GroupPointsBound` | src/utils/analysisUtils.ts:191-221 | at most groups × selected grades points |
| `AnalysisUtils.ChartDateLeIsTotalPreorder` | src/utils/analysisUtils.ts:224-228 | the date comparison of the sort is a total preorder |
| `AnalysisUtils.RecordPointsQualify` | src/utils/analysisUtils.ts:198-218 | each point of a record has a selected grade, positive quantity and price, and a date |
| `AnalysisUtils.GroupPointsQualify` | src/utils/analysisUtils.ts:191-221 | the same for each point of every group |
| `AnalysisUtils.ChartDataQualifies` | src/utils/analysisUtils.ts:198-218 | the same for every point of the chart data |
| `AnalysisUtils.ChartDataBound` | src/utils/analysisUtils.ts:181-221 | the output has at most groups × selected grades points, so at most records × selected grades |
| `AnalysisUtils.ChartDataSorted` | src/utils/analysisUtils.ts:224-228 | the points come out in non-decreasing date order |
| `AnalysisUtils.GroupByKey` | src/utils/analysisUtils.ts:183-186 | the `forEach` over the data builds the last-wins grouping |
| `AnalysisUtils.PointsOfRecord` | src/utils/analysisUtils.ts:192-220 | the inner `forEach` over the grades pushes that record's points |
| `AnalysisUtils.CollectPoints` | src/utils/analysisUtils.ts:191-221 | the outer loop pushes the points of every group in group order |
| `AnalysisUtils.ChartPointPresent` | src/utils/analysisUtils.ts:191-221 | every point that the record kept for a key and a selected grade produce is in the chart data |
| `AnalysisUtils.ChartPointSource` | src/utils/analysisUtils.ts:191-221 | every point of the chart data comes from the record kept for some key and from one selected grade |
| `AnalysisUtils.TransformToChartData` | src/utils/analysisUtils.ts:176-229 | the chart data is qualified, sorted by date, and holds every point of each kept record and selected grade |
| `AnalysisUtils.ChartKeyInjective` | src/utils/analysisUtils.ts:184 | with dash-free regions and unions, equal keys mean the same date, region and union |
| `AnalysisUtils.ChartKeyCollision` | src/utils/analysisUtils.ts:184 | regions containing "-" can share a key, and then one record hides the other |
| `TableUtils.GetGradeName` | src/utils/tableUtils.ts:16-26 | each grade key maps to its fixed Korean name, and any other key not inherited from `Object.prototype` to itself |
| `TableUtils.GradeNamesDistinct` | src/utils/tableUtils.ts:17-24 | the six names are distinct, and none is a grade key |
| `TableUtils.RowOf` | src/utils/tableUtils.ts:47-71 | a (record, grade) pair yields at most one row |
| `TableUtils.RecordRows` | src/utils/tableUtils.ts:46-73 | a record yields at most one row per selected grade |
| `TableUtils.TableRowLeTotal` | src/utils/tableUtils.ts:77-91 | any two rows are ordered one way or the other |
| `TableUtils.TableRowLeTransitive` | src/utils/tableUtils.ts:77-91 | the row order (date descending, then grade order) is transitive |
| `TableUtils.TableRowLeIsTotalPreorder` | src/utils/tableUtils.ts:77-91 | the row order is a total preorder |
| `TableUtils.TableRowSource` | src/utils/tableUtils.ts:45-74 | every row comes from one record and one selected grade |
| `TableUtils.TableRowPresent` | src/utils/tableUtils.ts:45-74 | every row a record and a selected grade produce is in the table |
| `TableUtils.RowOfQualifies` | src/utils/tableUtils.ts:52-70 | a row of a selected grade is for that grade, a known grade key, carries the grade's name and has a positive quantity or price |
| `TableUtils.TableRowsQualify` | src/utils/tableUtils.ts:52-70 | the same for every row of the table |
| `TableUtils.TableDataSorted` | src/utils/tableUtils.ts:77-91 | the table is sorted by date descending, then by grade order |
| `TableUtils.TableDataBound` | src/utils/tableUtils.ts:45-74 | at most records × selected grades rows |
| `TableUtils.RowsOfRecord` | src/utils/tableUtils.ts:46-73 | the inner `forEach` pushes exactly that record's rows |
| `TableUtils.TransformToTableData` | src/utils/tableUtils.ts:39-92 | the nested loops and the sort give the qualified rows in table order |
| `ChartUtils.GetGradeDashPattern` | src/utils/chartUtils.ts:14-16 | a grade key gets its pattern from the constant table, and any other key not inherited from `Object.prototype` gets "0" |
| `ChartUtils.DashPatternsDistinct` | src/const/Numbers.ts:72-79 | the six grades have six different dash patterns |
| `ChartUtils.GetGradeColor` | src/utils/chartUtils.ts:19-22 | with a non-empty palette: a palette entry, with index 0 for an unknown key not inherited from `Object.prototype`; with an empty palette: nothing |
| `ChartUtils.ColorsDistinct` | src/const/Numbers.ts:82-89 | with at least six colours, the six grades get six different colours |
| `ChartUtils.FilterMushroomSeasonData` | src/utils/chartUtils.ts:25-31 | keeps, in order, exactly the points whose month is in 8..12 (src/const/Numbers.ts:2-5) |
| `ChartUtils.GroupDataByYear` | src/utils/chartUtils.ts:34-44 | the loop builds the group-by-year partition |
| `ChartUtils.MakeSeries` | src/utils/chartUtils.ts:67-76 | a series carries its key, its data and the colour of its grade |
| `ChartUtils.SeriesOf` | src/utils/chartUtils.ts:67-76 | one series per group, in group order |
| `ChartUtils.CreateDataSeries` | src/utils/chartUtils.ts:47-77 | the loop partitions by `region-gradeKey` in first-appearance order, then maps each group to a series |
| `ChartUtils.SeriesRecoversFields` | src/utils/chartUtils.ts:68 | splitting the key recovers region and grade when neither contains "-" |
| `ChartUtils.SeriesSplitLosesRegion` | src/utils/chartUtils.ts:68 | a region containing "-" is cut short by the split |
| `ChartUtils.CeilDiv` | src/utils/chartUtils.ts:110 | `Math.ceil(a / b)` is the least `r` with `a <= r * b` |
| `ChartUtils.CalculateTickInterval` | src/utils/chartUtils.ts:102-117 | the interval is at least 1 |
| `ChartUtils.CeilDivMonotone` | src/utils/chartUtils.ts:110 | the ceiling quotient does not decrease with the numerator |
| `ChartUtils.TickIntervalMonotone` | src/utils/chartUtils.ts:102-117 | a longer span never gets a shorter interval |
| `ChartUtils.TickIntervalMobileWider` | src/utils/chartUtils.ts:106-115 | the mobile interval is at least the desktop interval |
| `ChartUtils.TickIntervalCoversSpan` | src/utils/chartUtils.ts:109-115 | beyond the medium period, 5 (mobile) or 7 (desktop) ticks cover the span |
| `GenerateCompleteDataset.NormalizeDateFields` | scripts/generate-complete-dataset.ts:101-111 | three parts keep the year and pad month and day to two characters |
| `GenerateCompleteDataset.NormalizeDateIdempotent` | scripts/generate-complete-dataset.ts:101-111 | normalising twice equals normalising once |
| `GenerateCompleteDataset.NormalizePathDate` | scripts/generate-complete-dataset.ts:101-111 | an unpadded `Y-M-D` of a valid date becomes its ISO text |
| `GenerateCompleteDataset.DateFromPathOfDayFile` | scripts/generate-complete-dataset.ts:119-127 | the date read from `.../year/month/day.json` is `year-month-day` |
| `GenerateCompleteDataset.NormalizeRecord` | scripts/generate-complete-dataset.ts:114-166 | names are copied, the date is the raw date or the path date, normalised, and the stage totals are parsed |
| `GenerateCompleteDataset.NormalizeRecordGrades` | scripts/generate-complete-dataset.ts:148-164 | every grade's quantity and price are the parsed raw strings |
| `GenerateCompleteDataset.NormalizedDateIsFixed` | scripts/generate-complete-dataset.ts:130 | a normalised record's date is already normalised |
| `GenerateCompleteDataset.NormalizeAll` | scripts/generate-complete-dataset.ts:208-211 | one record out per raw record in |
| `GenerateCompleteDataset.NormalizeAllAt` | scripts/generate-complete-dataset.ts:208-211 | the i-th output is the normalisation of the i-th input |
| `GenerateCompleteDataset.NormalizeFile` | scripts/generate-complete-dataset.ts:208-211 | the push loop over one file's records |
| `GenerateCompleteDataset.CollectAllData` | scripts/generate-complete-dataset.ts:169-221 | the nested loops collect the readable files' records in walk order |
| `GenerateCompleteDataset.CollectedLength` | scripts/generate-complete-dataset.ts:200-215 | as many records as the readable files hold |
| `GenerateCompleteDataset.LessEqIsTotalPreorder` | scripts/generate-complete-dataset.ts:258-262 | `localeCompare` order is a total preorder |
| `GenerateCompleteDataset.RecordLeIsTotalPreorder` | scripts/generate-complete-dataset.ts:258-262 | date-then-region order is a total preorder |
| `GenerateCompleteDataset.SortedDistinctProperties` | scripts/generate-complete-dataset.ts:228-229 | `[...new Set(v)].sort()` is sorted, duplicate-free, and has the same members |
| `GenerateCompleteDataset.SortedDatesBound` | scripts/generate-complete-dataset.ts:227-236 | the first and last sorted dates bound every record's date and occur in the records |
| `GenerateCompleteDataset.GenerateMetadata` | scripts/generate-complete-dataset.ts:224-241 | `totalRecords` is the number of records |
| `GenerateCompleteDataset.MetadataDateRange` | scripts/generate-complete-dataset.ts:234-237 | `earliest` and `latest` are the least and greatest dates present |
| `GenerateCompleteDataset.MetadataRegionsAndUnions` | scripts/generate-complete-dataset.ts:228-229 | regions and unions are sorted, duplicate-free, and exactly the values that occur |
| `GenerateCompleteDataset.MetadataOfNothing` | scripts/generate-complete-dataset.ts:235-236 | no records give zero records, "" dates and empty lists |
| `GenerateCompleteDataset.BuildDataset` | scripts/generate-complete-dataset.ts:250-271 | fails iff there are no records; otherwise the data is a permutation of them and the count is theirs |
| `GenerateCompleteDataset.BuildDatasetSorted` | scripts/generate-complete-dataset.ts:258-262 | the written data is sorted by date, then region |
| `GenerateStats.NextLatest` | scripts/generate-stats.ts:86-101 | the latest date is either kept or replaced by the new one, and the first date is taken |
| `GenerateStats.LatestOf` | scripts/generate-stats.ts:86-101 | there is a latest date iff some date was seen |
| `GenerateStats.LatestOfIsLatest` | scripts/generate-stats.ts:86-101 | the result is one of the dates, and no date is later than it |
| `GenerateStats.LatestOfIsMaximum` | scripts/generate-stats.ts:86-101 | when every day parsed, the result is the calendar maximum |
| `GenerateStats.NaNDayShadows` | scripts/generate-stats.ts:95-122 | a day that does not parse stops later days of the same month from replacing it |
| `GenerateStats.ConsiderRecordKeeps` | scripts/generate-stats.ts:132-149 | one record keeps the year map keyed by union, with unique keys |
| `GenerateStats.ConsiderAllKeeps` | scripts/generate-stats.ts:132-149 | so does a whole file |
| `GenerateStats.ConsiderRecordDominates` | scripts/generate-stats.ts:138-149 | after a record, its union's entry is at least that record in quantity or amount total |
| `GenerateStats.OrRuleCanLowerQuantity` | scripts/generate-stats.ts:138-142 | a larger amount total replaces the entry even when its quantity total is smaller |
| `GenerateStats.LastOfUnion` | scripts/generate-stats.ts:133-150 | the last record of a union, if any |
| `GenerateStats.CumulativeKeepsLatest` | scripts/generate-stats.ts:133-150 | for non-decreasing cumulative totals, the entry is the union's last record |
| `GenerateStats.ConsiderRecords` | scripts/generate-stats.ts:133-150 | the loop over one file applies the replace rule record by record |
| `GenerateStats.DaysOf` | scripts/generate-stats.ts:115-123 | the day read from each listed file name, in order |
| `GenerateStats.ScanStepKeeps` | scripts/generate-stats.ts:124-150 | one day file keeps every year map keyed by union, and the years unique |
| `GenerateStats.StatsScan.constructor` | scripts/generate-stats.ts:83-112 | nothing seen yet |
| `GenerateStats.StatsScan.UpdateLatestDate` | scripts/generate-stats.ts:86-101 | `updateLatestDate` advances the latest date and leaves the year maps alone |
| `GenerateStats.StatsScan.ScanDayFile` | scripts/generate-stats.ts:120-151 | one file updates the latest date and, if it parses, its year's map |
| `GenerateStats.StatsScan.Scan` | scripts/generate-stats.ts:115-153 | the walk leaves the latest of all days and the fold of every file |
| `GenerateStats.AggregateTotals` | scripts/generate-stats.ts:156-173 | the yearly quantity is the sum of the unions' totals, and the region and union totals each sum to it |
| `GenerateStats.AggregateYear` | scripts/generate-stats.ts:156-173 | the loop over a year's unions builds that aggregation |
| `GenerateStats.YearlyOfKeys` | scripts/generate-stats.ts:156-173 | one aggregation per year seen |
| `GenerateStats.YearlyOfGet` | scripts/generate-stats.ts:156-173 | each year's aggregation is that of its union entries |
| `GenerateStats.BuildYearly` | scripts/generate-stats.ts:156-173 | the loop over years builds the yearly aggregations |
| `GenerateStats.Top` | scripts/generate-stats.ts:175-187 | there is a running top iff the map is non-empty |
| `GenerateStats.TopIsFirstMaximum` | scripts/generate-stats.ts:175-187 | the top is an entry of maximum value, and no earlier entry reaches that value |
| `GenerateStats.PickTop` | scripts/generate-stats.ts:175-187 | `null` for an empty map or an empty top key, otherwise the first maximum |
| `GenerateStats.PickTopScan` | scripts/generate-stats.ts:175-187 | the loop with running `topKey`/`topVal` computes `pickTop` |
| `GenerateStats.PaddedNumber` | scripts/generate-stats.ts:89-198 | reprinting a zero-padded number gives its unpadded digits |
| `GenerateStats.LatestFileOfLabel` | scripts/generate-stats.ts:193-199 | the latest label leads back to `year/month/day.json` |
| `GenerateStats.DailyTotalsAddUp` | scripts/generate-stats.ts:204-227 | the day's quantity and weighted amount are record sums, and the region and union totals each sum to the quantity |
| `GenerateStats.SummaryOf` | scripts/generate-stats.ts:228-248 | the average is weighted amount / quantity when the quantity is positive, else 0; the tops are `pickTop`'s |
| `GenerateStats.WeightedAmountOf` | scripts/generate-stats.ts:222-226 | the inner loop sums quantity × price over the six grades |
| `GenerateStats.DailyTotalsOf` | scripts/generate-stats.ts:204-227 | the loop over the day's records builds the daily totals |
| `GenerateStats.LatestDailyStats` | scripts/generate-stats.ts:190-252 | nothing without a latest date or file, otherwise the summary of that file |
| `GenerateRawData.ScrapeWindowInSeason` | tests/generateRawData.spec.ts:5-6 | the scraped months lie inside the charted season |
| `GenerateRawData.GenerateDateRange` | tests/generateRawData.spec.ts:9-26 | exactly the days in [start, end] with month 9..11, strictly increasing |
| `GenerateRawData.QueryDateRoundTrip` | tests/generateRawData.spec.ts:29-34 | the query date has eight characters and reads back as the date |
| `GenerateRawData.QueryDateInjective` | tests/generateRawData.spec.ts:29-34 | different dates give different query dates |
| `GenerateRawData.QueryDateIsIsoWithoutDashes` | tests/generateRawData.spec.ts:29-34 | the query date is the ISO date without its dashes |
| `GenerateRawData.FirstGradeChange` | tests/generateRawData.spec.ts:69-81 | the first listed grade whose fields differ, or none when all agree |
| `GenerateRawData.CompareFromNone` | tests/generateRawData.spec.ts:56-82 | the scan from an index finds nothing iff every later pair agrees |
| `GenerateRawData.AnalyzeNoChangeIff` | tests/generateRawData.spec.ts:44-84 | no change iff the old data is non-empty, of equal length, and agrees pairwise on quantity and grades |
| `GenerateRawData.CompareFromSkips` | tests/generateRawData.spec.ts:56-82 | agreeing pairs are skipped |
| `GenerateRawData.AnalyzeReportsFirstDifference` | tests/generateRawData.spec.ts:56-82 | the summary names the first differing index: a quantity update, or the first changed grade |
| `GenerateRawData.AnalyzeSelf` | tests/generateRawData.spec.ts:44-84 | data compared with itself changes iff it is empty |
| `GenerateRawData.AmountOnlyChangeUnreported` | tests/generateRawData.spec.ts:56-84 | a difference limited to amounts, names or dates is reported as no change |
| `GenerateRawData.FirstChangedGrade` | tests/generateRawData.spec.ts:69-81 | the loop over the grade fields finds the first change |
| `GenerateRawData.AnalyzeDataChanges` | tests/generateRawData.spec.ts:37-85 | the indexed loop with early returns reports change iff not everything agrees |
| `Database.CacheDb.constructor` | src/utils/database.ts:76-97 | the database opens with empty tables |
| `Database.CacheDb.Last` | src/utils/dataLoader.ts:144 | `metadata.orderBy("id").last()` is the newest row, if any |
| `Database.CacheDb.ClearRecords` | src/utils/dataLoader.ts:256 | empties `auctionData` only |
| `Database.CacheDb.ClearMetadata` | src/utils/dataLoader.ts:257 | empties `metadata` only |
| `Database.CacheDb.BulkAdd` | src/utils/dataLoader.ts:263 | appends a batch to `auctionData` |
| `Database.CacheDb.AddMetadata` | src/utils/dataLoader.ts:283 | appends one row to `metadata` |
| `Database.CacheDb.DeleteAndOpen` | src/utils/dataLoader.ts:529-533 | deleting and reopening leaves both tables empty |
| `Database.CacheDb.Rollback` | src/utils/dataLoader.ts:254 | an aborted transaction restores both tables |
| `LoaderSpec.ReadyState` | src/utils/dataLoader.ts:386-393 | the ready state: not loading, initialised, no error, progress 100, counts and date from the metadata |
| `LoaderSpec.Failed` | src/utils/dataLoader.ts:398-403 | the failure state: not loading, error set with the message, the rest kept |
| `LoaderSpec.EtagVersion` | src/utils/dataLoader.ts:76 | the version has no `"` and only characters of the ETag |
| `LoaderSpec.EtagStripsQuotes` | src/utils/dataLoader.ts:76 | strong and weak ETags give their quoted value (with `W/` kept) |
| `LoaderSpec.LeadingWhitespace` | src/utils/dataLoader.ts:110 | `\s*` is the longest whitespace prefix |
| `LoaderSpec.NonQuoteRun` | src/utils/dataLoader.ts:110 | `[^"]+` is the longest run before a quote |
| `LoaderSpec.QuotedValue` | src/utils/dataLoader.ts:110 | a match is a non-empty quote-free value between two quotes |
| `LoaderSpec.MatchAt` | src/utils/dataLoader.ts:110 | a match at one position is a non-empty quote-free value |
| `LoaderSpec.FindVersionFrom` | src/utils/dataLoader.ts:110 | the leftmost match from a position is a non-empty quote-free value |
| `LoaderSpec.FindVersion` | src/utils/dataLoader.ts:110 | `"version":\s*"([^"]+)"` yields a non-empty quote-free value |
| `LoaderSpec.FindVersionAfterPrefix` | src/utils/dataLoader.ts:110 | behind a quote-free prefix, the value of the first `"version"` key is found |
| `LoaderSpec.ServerVersionOrder` | src/utils/dataLoader.ts:56-139 | ETag first, then Last-Modified, then the range fragment, then the full body; failure carries the probe-failed prefix |
| `LoaderSpec.RangeNeedsPartialContent` | src/utils/dataLoader.ts:107-126 | a range answer other than 206 falls through to the full body |
| `LoaderSpec.LocalDataValid` | src/utils/dataLoader.ts:153-191 | valid needs the current schema; then data younger than 10 minutes (development) or one hour is valid, and older data is valid iff the row count matches |
| `LoaderSpec.LegacyRowsInvalid` | src/utils/dataLoader.ts:157-164 | a row without `dbVersion` counts as "1.0.0" and is never valid |
| `LoaderSpec.RoundRatioBound` | src/utils/dataLoader.ts:227-266 | `Math.round(num / den)` stays at or below `k` when the ratio does |
| `LoaderSpec.DownloadProgressBound` | src/utils/dataLoader.ts:226-230 | download progress stays at or below 50 while no more than Content-Length arrives |
| `LoaderSpec.DownloadProgressOvershoot` | src/utils/dataLoader.ts:226-230 | a body longer than Content-Length drives progress past 50 |
| `LoaderSpec.BatchStartInRange` | src/utils/dataLoader.ts:261 | every batch starts inside the data |
| `LoaderSpec.SaveProgressRange` | src/utils/dataLoader.ts:266 | save progress lies in [50, 100] |
| `LoaderSpec.SaveProgressReaches100` | src/utils/dataLoader.ts:266 | the last batch of 100001 records already reports 100 |
| `LoaderSpec.LocalMetadata` | src/utils/dataLoader.ts:142-150 | the metadata read is a stored row, when there is one |
| `LoaderSpec.Flatten` | src/utils/dataLoader.ts:237-242 | the concatenation holds exactly the bytes received |
| `LoaderSpec.ReadChunksFrame` | src/utils/dataLoader.ts:217-231 | reading changes only progress, with one notification per chunk when Content-Length is positive |
| `LoaderSpec.DownloadNotificationsBounded` | src/utils/dataLoader.ts:217-231 | every download notification reports progress at most 50 |
| `LoaderSpec.MetadataRow` | src/utils/dataLoader.ts:272-281 | the saved row copies the header, stamps the current schema version and the save time |
| `LoaderSpec.SaveBatchesFrame` | src/utils/dataLoader.ts:261-269 | one notification per batch, and progress is that of the last batch |
| `LoaderSpec.SaveNotificationsInRange` | src/utils/dataLoader.ts:261-269 | every save notification reports progress in [50, 100] |
| `LoaderSpec.SaveRunStore` | src/utils/dataLoader.ts:250-285 | a committed save holds exactly the data and one metadata row; an aborted one leaves the store as it was |
| `LoaderSpec.MismatchedHeaderFailsLater` | src/utils/dataLoader.ts:175-275 | a header count that differs from the data gives a cache that fails validation once it is an hour old |
| `LoaderSpec.FullUpdateStore` | src/utils/dataLoader.ts:484-489 | a full update stores the downloaded data and its row, or leaves the store alone |
| `LoaderSpec.FullUpdateKeepsState` | src/utils/dataLoader.ts:484-489 | a full update changes only progress and appends notifications |
| `LoaderSpec.InitializeIdempotent` | src/utils/dataLoader.ts:288-290 | once initialised, `initialize` changes nothing |
| `LoaderSpec.InitializeNotifies` | src/utils/dataLoader.ts:292-406 | listeners first see the loading state and last see the final state |
| `LoaderSpec.StaleCompletes` | src/utils/dataLoader.ts:363-383 | the stale branch, without the early return, always falls through |
| `LoaderSpec.InitializeSettles` | src/utils/dataLoader.ts:386-406 | the corrected `initialize` (without the `return` after a repair) ends not loading, and either initialised or in error |
| `LoaderSpec.FirstVisit` | src/utils/dataLoader.ts:304-404 | without metadata: a full update, then ready; or an error with the store unchanged |
| `LoaderSpec.FastPath` | src/utils/dataLoader.ts:316-342 | recent metadata: ready from it at once, with no probe, validation or download |
| `LoaderSpec.StaleSameVersion` | src/utils/dataLoader.ts:363-378 | a valid, stale cache with an unchanged version is kept and declared ready |
| `LoaderSpec.StaleProbeFails` | src/utils/dataLoader.ts:363-383 | a failing version probe is swallowed and the cache is declared ready |
| `LoaderSpec.StaleNewVersion` | src/utils/dataLoader.ts:369-378 | a new version runs one full update, and the state is ready from whatever metadata remains |
| `LoaderSpec.RepairLeavesLoading` | src/utils/dataLoader.ts:344-361 | as written, a successful repair leaves the state loading and not initialised |
| `LoaderSpec.RepairEndsReady` | src/utils/dataLoader.ts:344-393 | without the early return, a repair ends ready from the new metadata |
| `LoaderSpec.RepairResetFails` | src/utils/dataLoader.ts:353-383 | a failing schema reset is swallowed and the old cache is declared ready |
| `LoaderSpec.ForceUpdateOutcome` | src/utils/dataLoader.ts:542-578 | `forceUpdate` ends not loading; a failure is recorded and returned, a success leaves the ready state |
| `LoaderSpec.ForceUpdateResetFails` | src/utils/dataLoader.ts:551-574 | a failing reset leaves the store and returns the reset message |
| `LoaderSpec.ForceUpdateStore` | src/utils/dataLoader.ts:542-564 | a successful `forceUpdate` stores exactly the downloaded data and its row |
| `LoaderSpec.DateLeIsTotalPreorder` | src/utils/dataLoader.ts:415-417 | the date index order is a total preorder |
| `LoaderSpec.QueryMembership` | src/utils/dataLoader.ts:415-433 | a record is returned iff it is stored and matches, and the result is in date order |
| `LoaderSpec.QueryBoundsInclusive` | src/utils/dataLoader.ts:415-417 | both ends of the date range are included |
| `LoaderSpec.SingleRegionWins` | src/utils/dataLoader.ts:420-424 | a single region takes precedence over the region list |
| `LoaderSpec.EmptyRegionListIgnored` | src/utils/dataLoader.ts:422 | an empty region list applies no filter |
| `LoaderSpec.ByRegionGet` | src/utils/dataLoader.ts:441-455 | each region's totals are the sums over its records, and a region is present iff it has records |
| `LoaderSpec.ByRegionCounts` | src/utils/dataLoader.ts:441-455 | the per-region record counts add up to the number of records |
| `LoaderSpec.GradeAverage` | src/utils/dataLoader.ts:458-469 | the average price over records with positive quantity, or 0 when there are none |
| `LoaderSpec.Aggregate` | src/utils/dataLoader.ts:471-475 | `totalRecords` is the number of records |
| `LoaderSpec.AggregateCounts` | src/utils/dataLoader.ts:441-475 | the region counts add up to `totalRecords` |
| `DataLoader.CopyChunk` | src/utils/dataLoader.ts:239-241 | the chunk is copied to its offset, and nothing else changes |
| `DataLoader.ConcatChunks` | src/utils/dataLoader.ts:237-242 | a fresh array of `loaded` bytes holding the chunks in order |
| `DataLoader.DataLoaderService.constructor` | src/utils/dataLoader.ts:31-37 | the initial state, no listeners, no notifications |
| `DataLoader.DataLoaderService.NotifyStateChange` | src/utils/dataLoader.ts:40-42 | every listener is told the current state |
| `DataLoader.DataLoaderService.Subscribe` | src/utils/dataLoader.ts:45-48 | adds the listener and changes nothing else |
| `DataLoader.DataLoaderService.Unsubscribe` | src/utils/dataLoader.ts:47 | removes the listener, says whether it was there, and changes nothing else |
| `DataLoader.DataLoaderService.GetState` | src/utils/dataLoader.ts:51-53 | the current state |
| `DataLoader.DataLoaderService.GetLocalMetadata` | src/utils/dataLoader.ts:142-150 | the newest metadata row, or none on a failed read |
| `DataLoader.DataLoaderService.ValidateLocalData` | src/utils/dataLoader.ts:153-191 | the validity rule, applied to the stored row count |
| `DataLoader.DataLoaderService.DownloadCompleteDataset` | src/utils/dataLoader.ts:194-247 | the reader loop and the concatenation as specified by `DownloadRun` |
| `DataLoader.DataLoaderService.SaveToIndexedDB` | src/utils/dataLoader.ts:250-285 | the transaction with its batch loop as specified by `SaveRun` |
| `DataLoader.DataLoaderService.PerformFullUpdate` | src/utils/dataLoader.ts:484-489 | download, then save |
| `DataLoader.DataLoaderService.PerformIncrementalUpdate` | src/utils/dataLoader.ts:492-521 | the same full update, whatever the versions |
| `DataLoader.DataLoaderService.PerformDatabaseReset` | src/utils/dataLoader.ts:524-539 | the reset as specified by `ResetRun` |
| `DataLoader.DataLoaderService.InitializeCached` | src/utils/dataLoader.ts:316-383 | the cached-metadata part of `initialize`, as written or without the `return` after a repair, equals `CachedRun` of the same variant |
| `DataLoader.DataLoaderService.Initialize` | src/utils/dataLoader.ts:288-407 | `initialize`, as written or corrected, equals `InitializeWith` of the same variant: `InitializeAsWritten` or `InitializeRun` |
| `DataLoader.DataLoaderService.ForceUpdate` | src/utils/dataLoader.ts:542-578 | `forceUpdate` as specified by `ForceUpdateRun` |
| `DataLoader.DataLoaderService.QueryByDateRange` | src/utils/dataLoader.ts:410-434 | fails with the not-initialised message iff not initialised, otherwise the query result |
| `DataLoader.DataLoaderService.GetAggregatedData` | src/utils/dataLoader.ts:437-476 | fails iff not initialised, otherwise the aggregation whose region counts add up to `totalRecords` |

## Left out

- IndexedDB (Dexie), `fetch`, stream readers, `TextDecoder` and
  `JSON.parse` are not executed. Their outcomes are fields of `Env`:
  - the metadata row read, the record count, and whether those reads fail;
  - the HEAD, range and full-body responses;
  - the chunks of the body, an HTTP error, or a missing body;
  - the decoded dataset;
  - a save failure and a reset failure.

  A transaction is "clear then write everything, or nothing".
- Async/await and concurrency, including several tabs refreshing at once.
  Methods run as sequential steps. Listener callbacks are not called.
  Each notification is appended to the `notified` log instead.
- `Date.now()`, `new Date().toISOString()` and `process.env.NODE_ENV` are
  parameters (`now` in milliseconds, `isDev`). A timestamp that does not
  parse (a NaN age) is not modelled. Timezones are not modelled.
- Floating point. Parsed quantities and prices are `real`. `Math.round`
  on non-negative ratios is exact. `toFixed`, `toLocaleString` and the
  exponent, `Infinity` and `NaN` spellings accepted by `parseFloat` are not
  modelled. A NaN date part is `None`.
- `localeCompare` is code-unit order. There is no locale collation.
- A JS object or `Map` is an insertion-ordered list of pairs. The object
  rule that puts integer-like keys first is not modelled.
- `Array.prototype.sort` is a stable insertion sort on a sequence. The
  in-place sorts in `main`, `transformToChartData` and
  `transformToTableData` are modelled on values.
- Dexie's `where("date").between(...)` returns records in index order. This
  is modelled as a stable sort of the matching records by date.
- `convertAuctionRecordToRaw`, `getDefaultDateRange`, `loadDateData`,
  `formatNumber`, `formatPrice`, `getResponsiveSettings`, `getMetadata` and
  `dataAnalysisLoader.ts` are left out. They only convert formats, read the
  clock, do I/O or lay out the UI.
- The scripts' file-system walks and output writing are left out. The walk
  is a list of files, each with its parsed contents or a parse failure.
- The Playwright scraping and cell splitting in tests/generateRawData.spec.ts
  are left out.
- The size logged after a download is used only for logging, and is not
  modelled. Dexie's auto-increment ids are not modelled.
- `DataLoader.DataLoaderService.DownloadCompleteDataset`: a stream that fails
  part-way is not modelled, only a body that cannot be read at all.
- `DataLoader.DataLoaderService.SaveToIndexedDB`: a failure is decided once
  for the whole transaction and takes effect at commit. A failure after a
  particular batch is not modelled; the rollback makes the two alike for
  the store.
- `DataLoader.DataLoaderService.PerformDatabaseReset`: a reset fails only
  before anything is deleted.
- `DataLoader.DataLoaderService.PerformIncrementalUpdate`: only logs the
  versions it is given, so it is modelled as the full update it runs.
- AnalysisUtils.ApplyFilters: a record's date and the filter bounds are
  compared as calendar days. In the source, `new Date("YYYY-MM-DD")` is UTC
  midnight while the bounds are local instants (local midnight for the
  fallback October week, the current time of day in season, or a picked
  date). East of UTC (KST, UTC+9) a record on the end day reads as 09:00
  local and is dropped when the end bound is local midnight, and whether
  the start day passes depends on the clock. The model matches the source
  only at UTC.
- AnalysisUtils.GenerateDateRange: the bounds are calendar days. The
  source's loop copies `startDate` with its time of day and runs while
  `current <= endDate`, so the end day is included only when the start's
  time of day is not later than the end's; otherwise (as when
  `getDefaultDateRange` creates `startDate` a moment after `endDate`) the
  source stops a day earlier. The model is exact only in the first case.
- AnalysisUtils.DateWithinIsRange: "both ends included" is proved for the
  day-level comparison; the source's boundary in a zone other than UTC is
  one-sided, as in the line above.
- ChartUtils.FilterMushroomSeasonData and ChartUtils.GroupDataByYear read
  the month and year of the date text itself. The source takes
  `getMonth`/`getFullYear` of the UTC-midnight instant in local time,
  which agrees with that only at offsets of zero or more (west of UTC
  "YYYY-08-01" would fall on July 31).
- GenerateStats.ConsiderRecords: records are modelled as well-formed. In
  the source the record loop lies outside the `try`, so a record without
  `auctionQuantity` or `auctionAmount` throws and ends the whole script
  before any statistics are written.
- GenerateStats.StatsScan.ScanDayFile: the same; a readable file with a
  malformed record aborts the script, which the model does not represent.
- TableUtils.GetGradeName, ChartUtils.GetGradeDashPattern and
  ChartUtils.GetGradeColor: an unknown key is one not inherited from
  `Object.prototype`. For a name such as "constructor" the source's lookup
  finds the prototype's function, so the name and pattern lookups return
  it and the colour index is NaN (an undefined colour); no caller passes
  such a key.
- Strings.ParseInt: JavaScript's `parseInt` also skips leading whitespace
  and accepts a sign; the model returns None for such text. The scripts
  apply it only to the names of listed directories and files.
- AnalysisUtils.ApplyFilters: dates are read only as zero-padded ISO
  `YYYY-MM-DD`; any other text, such as the unpadded "2024-9-1" a raw day
  file may carry, is an Invalid Date, so every date test lets it through,
  where a V8 `new Date` would parse it and compare it.
- AnalysisUtils.TransformToChartData: the date sort reads dates as
  zero-padded ISO text only. An Invalid Date gets key -1 and sorts first;
  this is the model's choice, since in JavaScript a NaN comparator result
  leaves the order to the engine.
- AnalysisUtils.ChartDataSorted: the order it proves is that of
  `TransformToChartData`, with unpadded and other non-ISO dates first under
  key -1, as in the line above.
- ChartUtils.FilterMushroomSeasonData: a date that is not zero-padded ISO
  has no month and is dropped, where V8 would parse an unpadded date and
  could keep it.
- ChartUtils.GroupDataByYear: a date that is not zero-padded ISO goes to
  the `None` year, where V8 would parse an unpadded date and give its year.
- GenerateCompleteDataset.CollectAllData: a whole file is either taken or
  skipped. In the source one `try` wraps the loop over a file's records,
  so a record that makes `normalizeRecord` throw (one without
  `auctionQuantity`, say) keeps the records pushed before it and skips the
  rest of that file; records are modelled as well-formed.
- GenerateCompleteDataset.NormalizeFile: the same; the loop never stops
  part-way through a file.
- GenerateRawData.AnalyzeDataChanges: the comparison is field by field.
  The source compares `JSON.stringify` texts, which also differ when the
  key order differs and ignore `undefined` fields; records are modelled
  with every field present, in one key order.
- GenerateRawData.FirstChangedGrade: the same field-by-field comparison
  stands for the `JSON.stringify` comparison of each grade.
- All React, MUI and d3 components, pages and contexts are left out. This
  covers the older copies of the filters in `src/pages/DataAnalysis.tsx`.

## Findings

| source | as written | input that shows it | evidently intended | confidence | as-written member | corrected member |
|---|---|---|---|---|---|---|
| src/utils/dataLoader.ts:344-361 | after an invalid cache is repaired by a successful full update, `return` skips the ready assignment at lines 386-393, so `isLoading` stays true and `isInitialized` false; only the `finally` notification runs | not initialised; a stored metadata row older than one hour without `dbVersion` (read as "1.0.0"); reset, download and save all succeed | the repaired cache ends ready, like every other path that stores data | not executed | `LoaderSpec.RepairLeavesLoading` | `LoaderSpec.RepairEndsReady` |

The class runs either variant: `DataLoader.DataLoaderService.Initialize`
takes `returnAfterRepair` and follows `InitializeWith` of that variant, so
with `true` it is the source as written and with `false` the corrected
`LoaderSpec.InitializeRun`.
`LoaderSpec.InitializeSettles` proves that it always ends not loading, and
either initialised or in error.
