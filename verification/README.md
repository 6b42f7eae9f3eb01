# World KPI dashboard data layer in Dafny

This project models the in-memory data layer of the dashboard's TypeScript front end and proves properties of it:

- **the semicolon-separated parser and its query helpers** (`src/utils/dataParser.ts`):
  - `parseData`;
  - country lookup;
  - the five distinct-value lists;
  - `getFilteredData`;
  - per-country summation;
  - `getMinMaxValues`;
- **the generic helpers** (`src/data/preprocessing/dataProcessor.ts`): `groupDataBy`, `filterData`, `calculateStats` and `prepareMapData`;
- **the cleaning pipeline** (`src/data/preprocessing/dataCleanup.ts`): `cleanData`, `aggregateData`, `prepareTimeSeriesData`, `prepareGeoData` and `identifyOutliers`;
- **the line chart's selection state** (`src/components/charts/LineChartComponent.tsx`): `toggleDataKey` and the 20-row slice.

Files and modules:

- `js.dfy` (`Js`): the JavaScript values the code handles.
  - `Number` is a real or NaN. Addition, `Math.min` and `Math.max` propagate NaN.
  - `Value` is a number, a string, `null` or `undefined`.
  - `Cell` is an optional text field, where `None` is `undefined`/`null`.
  - Truthiness is modelled, and `x || d` is `OrDefault`.
- `text.dfy` (`Text`): the string built-ins the code relies on. These are `trim` (ECMAScript white space), `toUpperCase` on ASCII, `split`/`join` on one character, and `parseInt`/`parseFloat` on decimal text.
- `seqs.dfy` (`Seqs`): generic sequence vocabulary.
  - Subsequences, `filter`, `map`, counts and real sums.
  - First-occurrence de-duplication (`[...new Set(xs)]`).
  - Minimum and maximum.
  - An ascending sort with order-statistic lemmas.
- `data_parser.dfy` (`DataParser`): `dataParser.ts`, over the `KPIData` record.
- `data_processor.dfy` (`DataProcessor`): `dataProcessor.ts`, over the `BatteryData` record. Its field `var` is called `variable`, because `var` is a Dafny keyword.
- `data_cleanup.dfy` (`DataCleanup`): `dataCleanup.ts`.
- `line_chart.dfy` (`LineChart`): the chart's rows and selected keys, modelled as a state machine.

Results that the source builds as objects keyed by group or country code (`Record<string, …>`, `Object.entries(…).map(…)`) are modelled as Dafny maps from the key to the row.

## Model

| member | source | states |
|---|---|---|
| Text.Trim | src/utils/dataParser.ts:26 | `line.trim()` is the middle slice of the line: no white space at either end, and only white space removed |
| Text.TrimIdempotent | src/utils/dataParser.ts:26 | trimming a trimmed line changes nothing |
| Text.Upper | src/utils/dataParser.ts:42 | `toUpperCase()` keeps the length, turns each lower-case ASCII letter into its capital, and leaves every other character as it is |
| Text.UpperTrim | src/utils/dataParser.ts:42 | `toUpperCase().trim()` is the upper case of the trimmed text; the result is a canonical code (no lower-case letter, no outer white space), a canonical code is left unchanged, and nothing grows |
| Text.Split | src/utils/dataParser.ts:15 | `split` yields at least one piece, no piece holds the separator, and joining the pieces restores the text |
| Text.SplitJoin | src/utils/dataParser.ts:29 | splitting a join of separator-free fields gives back exactly those fields |
| Text.ParseInt | src/utils/dataParser.ts:52 | `parseInt(s, 10)` fails exactly when no digit follows the optional sign, and the result's sign agrees with the sign read |
| Text.ParseIntShowInt | src/utils/dataParser.ts:52 | `parseInt` reads back any integer written in decimal, whatever non-digit text follows it |
| Text.ParseFloat | src/data/preprocessing/dataCleanup.ts:35-36 | `parseFloat(s)` is NaN exactly when the text has neither leading digits nor a `.digit` start |
| Text.ParseFloatShowInt | src/data/preprocessing/dataCleanup.ts:35 | `parseFloat` reads back any integer written in decimal |
| Text.ParseFloatShowFraction | src/data/preprocessing/dataCleanup.ts:35 | `parseFloat` reads a natural number, a point and fraction digits `d` as the number plus `d / 10^|d|`, so `"12.5"` is 12.5 |
| Seqs.Filter | src/utils/dataParser.ts:77 | `filter` keeps an order-preserving subsequence; every kept element passes; every passing element is kept; the length is the count of passing elements |
| Seqs.FilterUnique | src/utils/dataParser.ts:77 | a passing subsequence with as many elements as pass is the filter's result |
| Seqs.Distinct | src/utils/dataParser.ts:81 | `[...new Set(xs)]` holds each value of `xs` once, with no repeats, in order of first occurrence |
| Seqs.SortAscending | src/data/preprocessing/dataCleanup.ts:248 | `sort((a, b) => a - b)` yields an ascending permutation |
| Seqs.SortRank | src/data/preprocessing/dataCleanup.ts:248-253 | index `k` of the sorted values holds a `k`-th smallest value of the unsorted input: at most `k` values lie below it and more than `k` lie at or below it |
| DataParser.ToRecord | src/utils/dataParser.ts:42-55 | a record takes its fields by position; the code is field 5, upper-cased and trimmed, or `''` when missing; value and count are `parseInt` of fields 8 and 10, or 0 when that fails |
| DataParser.LineStep | src/utils/dataParser.ts:26-55 | a data line yields one record when it is non-blank after trimming and has as many fields as the header, and nothing otherwise |
| DataParser.ParseData | src/utils/dataParser.ts:14-59 | `parseData` yields the records of the accepted non-header lines, one per line, in input order, and no more records than data lines |
| DataParser.ParseDataLines | src/utils/dataParser.ts:25-33 | each record comes from an accepted data line, and each accepted line yields exactly the next record |
| DataParser.GetCountryData | src/utils/dataParser.ts:76-78 | `getCountryData` returns exactly the records with that code, in order, as many as carry it |
| DataParser.GetUniqueVariables | src/utils/dataParser.ts:80-82 | every variable once, no repeats, in order of first occurrence |
| DataParser.GetUniqueBatteryAliases | src/utils/dataParser.ts:84-86 | every battery alias once, no repeats, in order of first occurrence |
| DataParser.GetUniqueContinents | src/utils/dataParser.ts:88-90 | every truthy continent once, in order of first occurrence; the empty string never appears |
| DataParser.GetUniqueClimateTypes | src/utils/dataParser.ts:92-94 | every truthy climate once, in order of first occurrence; the empty string never appears |
| DataParser.GetUniqueModelSeries | src/utils/dataParser.ts:96-98 | every truthy model series once, in order of first occurrence; the empty string never appears |
| DataParser.UniqueContinentsMembership | src/utils/dataParser.ts:88-90 | a text is in the continent list exactly when it is the non-empty continent of some row |
| DataParser.GetFilteredData | src/utils/dataParser.ts:100-122 | `getFilteredData` keeps an order-preserving subsequence of exactly the rows that match the variable and every non-empty optional filter |
| DataParser.GetFilteredDataIdempotent | src/utils/dataParser.ts:110-121 | filtering twice is filtering once |
| DataParser.EmptyFilterValuesIgnored | src/utils/dataParser.ts:115-118 | an empty optional filter value constrains nothing |
| DataParser.VariableOnlyFilter | src/utils/dataParser.ts:112 | with no optional filter, exactly the rows of the variable are kept |
| DataParser.NarrowedRowsAreFiltered | src/utils/dataParser.ts:133-149 | the step-by-step narrowing of `getAggregatedDataByCountry` selects the same rows as `getFilteredData` with the same variable and filters |
| DataParser.AggregateByCountry | src/utils/dataParser.ts:158-169 | there is one key per non-empty upper-cased code, and each maps to the sum of its rows' values; rows without a code add nothing |
| DataParser.GetAggregatedDataByCountry | src/utils/dataParser.ts:124-175 | `getAggregatedDataByCountry` has one key per non-empty code among the rows `getFilteredData` keeps, and each key maps to the sum of their values |
| DataParser.GetMinMaxValues | src/utils/dataParser.ts:177-182 | a non-empty map gives a minimum and maximum that are values of the map, are ordered and bound every value; an empty map gives +Infinity and -Infinity |
| DataProcessor.GroupDataBy | src/data/preprocessing/dataProcessor.ts:49-61 | there is one group per key that occurs (the field, or `'Unbekannt'` when falsy), and each group is the order-preserving subsequence of the items with that key |
| DataProcessor.GroupHoldsItems | src/data/preprocessing/dataProcessor.ts:53-59 | every item lies in the group of its own key |
| DataProcessor.GroupsAreHomogeneous | src/data/preprocessing/dataProcessor.ts:53-59 | every group is non-empty and all its items share its key |
| DataProcessor.GroupsPartition | src/data/preprocessing/dataProcessor.ts:53-60 | the key list names each group exactly once, and the group sizes add up to the number of items |
| DataProcessor.FilterData | src/data/preprocessing/dataProcessor.ts:66-76 | `filterData` keeps an order-preserving subsequence of exactly the items that strictly equal every active filter value, each copy of them, so its length is their count |
| DataProcessor.FilterDataInactive | src/data/preprocessing/dataProcessor.ts:72 | a filter whose values are all undefined, null or `''` returns the input unchanged |
| DataProcessor.FilterDataIdempotent | src/data/preprocessing/dataProcessor.ts:70-75 | filtering twice is filtering once |
| DataProcessor.FilterDataIsGroup | src/data/preprocessing/dataProcessor.ts:54-73 | filtering on one text field with a key other than `''` and `'Unbekannt'` gives exactly that key's group, or nothing when the key has no group |
| DataProcessor.NumericValues | src/data/preprocessing/dataProcessor.ts:82-84 | the kept values are as many as the non-NaN numeric vals, and add up to their total |
| DataProcessor.CalculateStats | src/data/preprocessing/dataProcessor.ts:81-103 | with no non-NaN numeric val, everything is 0; otherwise the count and total are those of such vals, and min ≤ max are attained by such vals and bound all of them |
| DataProcessor.CalculateStatsAppend | src/data/preprocessing/dataProcessor.ts:96-102 | count and sum are additive over concatenation |
| DataProcessor.PrepareMapData | src/data/preprocessing/dataProcessor.ts:108-123 | there is one row per `iso_a3` group, with the group's size, the total of its numeric vals, and the first item's texts or `'Unbekannt'` |
| DataProcessor.MapRowCounts | src/data/preprocessing/dataProcessor.ts:109-118 | the row counts add up to the number of items |
| DataCleanup.CleanItem | src/data/preprocessing/dataCleanup.ts:11-50 | cleaning copies battery alias, model series, variable and description unchanged |
| DataCleanup.CleanItemFields | src/data/preprocessing/dataCleanup.ts:16-48 | a missing or empty country or continent becomes `'Unbekannt'`, climate `'normal'` and code `'UNK'`, and a truthy text is kept; a string val is parsed, becoming 0 when unparseable; null or undefined becomes 0; a number is kept; a non-number or NaN count becomes 0 |
| DataCleanup.CleanItemFixedPoints | src/data/preprocessing/dataCleanup.ts:16-48 | a record is left unchanged by cleaning exactly when it is already clean |
| DataCleanup.CleanData | src/data/preprocessing/dataCleanup.ts:10-52 | `cleanData` maps one to one, and every output record is clean |
| DataCleanup.CleanDataIdempotent | src/data/preprocessing/dataCleanup.ts:10-51 | cleaning cleaned data changes nothing |
| DataCleanup.CleanDataFixedPoints | src/data/preprocessing/dataCleanup.ts:10-51 | cleaning leaves data unchanged exactly when every record is clean |
| DataCleanup.GroupSum | src/data/preprocessing/dataCleanup.ts:109-116 | a group's sum is NaN exactly when a summed value is, and otherwise the real sum of the summed values |
| DataCleanup.MinNumber | src/data/preprocessing/dataCleanup.ts:126-133 | `Math.min` over the values is NaN exactly when one is, and otherwise is one of them and at most all of them |
| DataCleanup.MaxNumber | src/data/preprocessing/dataCleanup.ts:134-141 | `Math.max` over the values is NaN exactly when one is, and otherwise is one of them and at least all of them |
| DataCleanup.AggregateData | src/data/preprocessing/dataCleanup.ts:94-144 | there is one row per group key that occurs; the count is the group size and positive; the sum, min and max describe the group (NaN exactly when a value is; otherwise min ≤ max are attained and bound every value) |
| DataCleanup.AggregateCounts | src/data/preprocessing/dataCleanup.ts:98-123 | the key list names every row, and the row counts add up to the number of records |
| DataCleanup.PrepareTimeSeriesData | src/data/preprocessing/dataCleanup.ts:149-181 | there is one series per group key that occurs; a variable has an entry exactly when some record of the group has a numeric val for it; a NaN-free entry is the sum of those vals |
| DataCleanup.Total | src/data/preprocessing/dataCleanup.ts:207-211 | `reduce((acc, x) => acc + x, 0)` is NaN exactly when an element is, and otherwise the real sum |
| DataCleanup.PrepareGeoData | src/data/preprocessing/dataCleanup.ts:186-229 | there is one row per truthy code other than `'UNK'` that some record carries; it counts the cleaned records of that code; takes country and continent from the first record, or `'Unbekannt'`, and the climate, or `'normal'`; sums their vehicle counts; is NaN in `sum` exactly when one of their vals is, and otherwise holds the real sum of their vals; and lists the distinct battery types and variables in order of first occurrence |
| DataCleanup.GeoGroupIsCode | src/data/preprocessing/dataCleanup.ts:193-201 | a country group is exactly the cleaned records carrying that code, in order |
| DataCleanup.GeoVehicleTotal | src/data/preprocessing/dataCleanup.ts:211 | over cleaned records the vehicle total is never NaN and equals the real sum of the counts |
| DataCleanup.FencesOf | src/data/preprocessing/dataCleanup.ts:249-258 | the quartiles sit at indices ⌊n/4⌋ and ⌊3n/4⌋; on sorted values lower ≤ q1 ≤ q3 ≤ upper, and the fences lie the same distance beyond their quartiles and four interquartile ranges apart, so each is 1.5 interquartile ranges out |
| DataCleanup.IdentifyOutliers | src/data/preprocessing/dataCleanup.ts:234-272 | an empty sample gives nothing; otherwise the result is an order-preserving subsequence of exactly the compared records whose value lies strictly outside the fences, every copy of them |
| DataCleanup.CentralNotOutlier | src/data/preprocessing/dataCleanup.ts:260-271 | a record whose value lies between the quartiles is never an outlier |
| DataCleanup.QuartileRanks | src/data/preprocessing/dataCleanup.ts:248-253 | q1 and q3 are order statistics of the sample itself, at ranks ⌊n/4⌋ and ⌊3n/4⌋ |
| DataCleanup.SampleReadings | src/data/preprocessing/dataCleanup.ts:236-245 | a numeric val, or a non-null count, enters the sample with its own value |
| LineChart.ToggleDataKey | src/components/charts/LineChartComponent.tsx:44-53 | an unselected key is appended; a selected key is removed (every occurrence, every other entry kept in order and as often as before) when more than one entry is selected, and the selection is otherwise left unchanged |
| LineChart.ToggleOnDistinct | src/components/charts/LineChartComponent.tsx:45-49 | on distinct keys the toggle keeps the keys distinct and never empties a non-empty selection |
| LineChart.ToggleTwice | src/components/charts/LineChartComponent.tsx:44-53 | toggling an unselected key twice restores a non-empty selection |
| LineChart.ToggleDataKeyGuarded | src/components/charts/LineChartComponent.tsx:45-49 | the toggle with its intended guard never empties a non-empty selection; it appends an unselected key; a selected key is kept, or removed with every other entry kept in order and as often as before, and it is removed whenever another key is selected |
| LineChart.GuardedAgreesOnDistinct | src/components/charts/LineChartComponent.tsx:44-53 | on distinct keys the guarded toggle is the toggle as written |
| LineChart.OnData | src/components/charts/LineChartComponent.tsx:38-42 | empty data leaves the state unchanged; otherwise the rows are the first min(20, n) rows of the data and the selection is reset to the given keys |
| LineChart.RunValid | src/components/charts/LineChartComponent.tsx:37-53 | starting from distinct non-empty keys, every sequence of data changes (each with distinct non-empty keys) and toggles keeps at most 20 rows and a non-empty, distinct selection |
| LineChart.AsWrittenRunValid | src/components/charts/LineChartComponent.tsx:37-53 | under the same conditions the component with the toggle as written reaches the same state as the guarded one, so it keeps the same guarantees |

## Left out

- Fetching and parsing the CSV file (`loadBatteryData`, Papa's `dynamicTyping`), the backend, the React rendering, and the debug logging inside `parseData` and `getAggregatedDataByCountry` are not part of this model. They are I/O or presentation.
- `avg` in `calculateStats`, `aggregateData` and `prepareGeoData`, `normalizeValues` and `getColorByValue` are left out. They are floating-point division or presentation thresholds.
- Numbers are exact reals or NaN. There is no rounding, no infinity and no `-0`. Text such as `"Infinity"` or `"1e400"` is read as unparseable, or as an exact real, instead of as an infinity.
- `toUpperCase` is modelled on ASCII letters only, and `parseFloat` only on decimal literals with an optional fraction and exponent.
- Group keys are modelled for text fields only. `String(x)` of a number, and keys that collide with `Object.prototype` names (`constructor`, `__proto__`), are not modelled.
- The order of `Object.entries` is not modelled. Results keyed by group or code are maps, and nothing is claimed about row order.
- DataCleanup.PrepareTimeSeriesData: a null `var` is treated like `undefined` (the key `"undefined"` rather than `"null"`). A variable named `name` would be overwritten by the row's `name` field in the spread; that is not modelled.
- DataCleanup.PrepareTimeSeriesData: an entry whose numeric vals include NaN is only stated to exist. Its value is not stated, because a falsy running total (0 or NaN) is replaced, not added to.
- DataCleanup.PrepareGeoData: `batteryTypes` and `variables` are de-duplicated over text cells, where `null` and `undefined` are one missing value. `new Set` keeps them apart, so a group whose records hold both lists two entries in JavaScript and one here.
- DataCleanup.AggregateData: with `cnt_vhcl` as the value field, every count is required to be a number, null or undefined, as the `BatteryData` type declares. String concatenation on a text count is not modelled.
- DataCleanup.IdentifyOutliers: the sampled values are required to be finite. For `val`, no numeric val is NaN. For `cnt_vhcl`, every count is a finite number or null. A NaN in `values.sort((a, b) => a - b)` makes the comparator inconsistent and the order implementation-defined. An `undefined` count is sorted last, but it is also excluded, because `BatteryData` declares the count a number.
- DataCleanup.IdentifyOutliers: the quartile indices are the exact floors of n/4 and 3n/4. `Math.floor(n * 0.25)` and `Math.floor(n * 0.75)` agree with these for every array length JavaScript allows.
- LineChart.OnData: the React effect runs after a render, and React's batching of state updates is not modelled. Each data change or toggle is one atomic step.

## Findings

| source | as written | input that shows it | evidently intended | confidence | as-written member | corrected member |
|---|---|---|---|---|---|---|
| src/components/charts/LineChartComponent.tsx:46-48 | the guard `selectedKeys.length > 1` counts entries, then `filter` removes every occurrence of the key | `dataKeys = ['a', 'a']`, toggle `'a'`: the selection becomes `[]` | never leave the selection empty, as the comment on line 46 says | not executed; needs repeated keys in the `dataKeys` prop | LineChart.ToggleDataKey, LineChart.ToggleEmptiesDuplicatedKey | LineChart.ToggleDataKeyGuarded, LineChart.RunValid |
