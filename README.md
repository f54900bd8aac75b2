# variance-analyzer core, modelled in Dafny

This project models the variance pipeline of the variance-analyzer repository. The pipeline compares actual figures against budget figures, row by row.

- **Row model and ranking** (`Models`).
  - `VarianceRow` is a class whose two variance fields are filled in place.
  - `AnalysisParams` defaults to thresholds 0.0 and no period or account lists.
  - `VarianceReport.GetTopVariances` ranks rows by the magnitude of the chosen variance and cuts the ranking at `n`. An absent variance counts as 0. The sort is Python's stable `sorted(..., reverse=True)`, modelled in `StableSort` as a stable descending insertion sort on (key, row) pairs.
- **Calculator** (`Calculator`).
  - The absolute variance is `actual - budget`.
  - The percentage variance is relative to the budget, and absent exactly when the budget is zero.
  - One method writes both fields into a row; another does so for every row of a list.
- **Filters** (`Filters`).
  - There are four order-preserving filters: absolute threshold, percentage threshold, period list and account list.
  - The pipeline runs them in that fixed order and skips a list stage that is not given.
  - Every filter is specified by a single function, `Passing(rows, criteria)`: the rows that meet every criterion, in input order.
- **Loader** (`Loader`, over `Tables`).
  - The mandatory-column checks of the CSV and spreadsheet loaders.
  - Normalisation: the column set must be exactly the four mandatory names. Rows with an empty cell are dropped. The first row of each (account, period) is kept, and the two amount columns are converted to numbers.
  - The conversion of table rows into new `VarianceRow` objects.
  - The dispatch of `load_report` on the file-type tag.
- **Column mapper** (`Mapper`).
  - Per-column analysis: type tag, samples, null and distinct counts.
  - `suggest_mapping`: the keyword search, the type fallbacks, the error naming unresolved slots, and the additive confidence.
  - `validate_mapping`, `apply_mapping` and `create_file_metadata`.

Some inputs of the Python code appear here as parameters:

- **Tables.** A loaded file is a `Table`: column names, one pandas dtype string per column, and rows of cells `Null | Num(real) | Str(string)`.
- **Numbers.** Numbers are exact `real`s.
- **Conversions.** Python's `float(x)` and `str(x)` on cell values are the caller-supplied functions of `Conversions`.
- **Lowercasing.** `str.lower` is the parameter `lower`.

`ColumnMapping` and `FileMetadata` are imported by core/mapper.py but not defined in core/models.py. They are declared here from their uses at core/mapper.py:150-156 and core/mapper.py:248-255.

`Seqs` holds the generic sequence functions: order-preserving selection, filtering, first-of-each-key and substring search.

## Model

| member | source | states |
|---|---|---|
| Models.VarianceRow.constructor | core/models.py:16-21 | a new row holds the four given values, and its two variance fields are absent unless given |
| Models.VarianceRow.HasVarianceCalculated | core/models.py:23-28 | true exactly when both the absolute and the percentage variance are present |
| Models.ParseMetric | core/models.py:70-75 | the selector "absolute" picks the absolute variance and "percentage" the percentage variance; every other string is refused |
| Models.TopRows | core/models.py:70-77 | the result has min(n, rows) entries for n >= 0 and the Python slice length for negative n; it is a sub-multiset of the rows, and all the rows when n is at least their number; it is in non-increasing magnitude with an absent variance counted as 0; every row left out ranks no higher than every row returned |
| Models.VarianceReport.GetTopVariances | core/models.py:60-77 | fails with the selector message exactly when the selector is neither "absolute" nor "percentage", even with no rows; otherwise gives `TopRows` for that metric |
| Models.RankedPermutation | core/models.py:71-73 | the sorted rows are a permutation of the report's rows |
| Models.RankedOrder | core/models.py:71-73 | the sorted rows' magnitudes never increase |
| Models.TopRowsKeys | core/models.py:71-77 | the returned rows, with their keys attached, are the head of the ranking |
| Models.TopRowsStable | core/models.py:71-77 | for each magnitude, the returned rows of that magnitude are the first rows of that magnitude in input order |
| StableSort.SortIsDescending | core/models.py:71 | the sort of `sorted(..., reverse=True)` yields keys in non-increasing order |
| StableSort.SortIsStable | core/models.py:71 | entries with equal keys keep their input order |
| StableSort.SortSeconds | core/models.py:71 | the sorted payloads are a permutation of the input payloads |
| Calculator.CalculateVariance | core/calculator.py:36-43 | budget plus the absolute variance is the actual; the percentage is absent exactly when the budget is zero; a present percentage applied to the budget gives back the actual |
| Calculator.PercentageSign | core/calculator.py:41 | the percentage is positive exactly when the actual lies beyond the budget in the budget's direction, and zero exactly when actual equals budget |
| Calculator.KnownVariances | tests/test_calculator.py:14-54 | the documented figures, among them (100, 80) gives (20, 25%), (100, 0) gives (100, absent) and (-100, -80) gives (-20, 25%) |
| Calculator.ComputedRowCalculated | core/models.py:23-28 | a computed row counts as calculated exactly when its budget is not zero |
| Calculator.CalculateVarianceForRow | core/calculator.py:65-68 | returns the same object; labels and amounts unchanged; both variance fields hold the formula's values; recomputing a computed row changes nothing |
| Calculator.CalculateVarianceBulk | core/calculator.py:80-82 | returns the same list; every row computed; no label or amount changes |
| Filters.PassingMembers | core/filters.py:27-33 | a row is kept exactly when it is one of the rows and passes every criterion |
| Filters.PassingSubsequence | core/filters.py:27-33 | the kept rows are the input rows with some removed, in input order |
| Filters.PassingCompose | core/filters.py:117-124 | filtering by one list of criteria and then another is filtering by both at once |
| Filters.FiltersCommute | core/filters.py:117-124 | two filters give the same result in either order |
| Filters.AbsoluteThresholdMonotone | core/filters.py:30 | after a higher absolute threshold, a lower one removes nothing more |
| Filters.PercentageThresholdMonotone | core/filters.py:55 | after a higher percentage threshold, a lower one removes nothing more |
| Filters.ZeroAbsoluteThresholdKeepsAll | core/filters.py:30 | a zero absolute threshold keeps every row, when every row has an absolute variance |
| Filters.ZeroPercentageThreshold | core/filters.py:55 | a zero percentage threshold keeps exactly the rows that have a percentage |
| Filters.EmptyListKeepsNothing | core/filters.py:63-94 | an empty period or account list keeps no row |
| Filters.FilterByAbsoluteThreshold | core/filters.py:27-33 | the rows whose absolute variance has magnitude at least the threshold, in order, as the same objects |
| Filters.FilterByPercentageThreshold | core/filters.py:52-60 | the rows whose percentage is present and has magnitude at least the threshold, in order |
| Filters.FilterByPeriods | core/filters.py:63-77 | every kept row is one of the rows and has a listed period, and every row with a listed period is kept |
| Filters.FilterByAccounts | core/filters.py:80-94 | every kept row is one of the rows and has a listed account, and every row with a listed account is kept |
| Filters.LabelStages | core/filters.py:119-122 | the period and account stages, each skipped when its list is not given, filter by the given lists only |
| Filters.ApplyFilters | core/filters.py:117-126 | the rows that pass every active criterion, in input order |
| Filters.ApplyFiltersMembers | core/filters.py:117-126 | a row is in the pipeline's result exactly when it is one of the rows and passes all four stages, with a missing list imposing nothing |
| Filters.DefaultParamsKeepComputedRows | core/filters.py:123-124 | with the default parameters, the pipeline keeps exactly the rows that have both variances |
| Loader.CheckMandatoryColumns | core/loader.py:30-33 | accepts, unchanged, exactly the tables whose header holds all four mandatory names; otherwise fails with MissingMandatoryColumns |
| Loader.LoadCsv | core/loader.py:25-35 | a missing file fails with FileNotFound first; otherwise the mandatory-column check of the CSV table |
| Loader.LoadExcel | core/loader.py:53-63 | a missing file fails with FileNotFound first; otherwise the mandatory-column check of the named sheet |
| Loader.LoadTable | core/loader.py:149-157 | "csv" reads CSV; any other tag starting with "xls" reads the named sheet; the unsupported-type error comes exactly when the tag is neither "csv" nor starts with "xls" |
| Loader.LoadTableDispatch | core/loader.py:149-157 | "csv" reaches the CSV loader; "xls" and "xlsx" reach the spreadsheet loader; "json" and "CSV" are refused by name |
| Loader.CoerceColumn | core/loader.py:95-96 | succeeds exactly when every cell of the column converts; on success each row has that cell replaced by its number and nothing else changed |
| Loader.LayoutOf | core/loader.py:84-87 | the four mandatory names sit at four different positions of the header |
| Loader.CompleteRows | core/loader.py:92 | a row survives null-dropping exactly when it has no empty cell |
| Loader.SurvivorsAreRows | core/loader.py:92-93 | the surviving rows are input rows without empty cells, and no more numerous than the input |
| Loader.SurvivorsSubsequence | core/loader.py:92-93 | the surviving rows are the input rows with some removed, in input order |
| Loader.SurvivorsKeysDistinct | core/loader.py:93 | no two surviving rows share an (account, period) |
| Loader.SurvivorsKeepFirst | core/loader.py:92-93 | a row survives exactly when it is a complete row and no earlier complete row has its (account, period) |
| Loader.SurvivorsCoverKeys | core/loader.py:93 | every (account, period) of a complete input row is still present after deduplication |
| Loader.NormalizeDataFrame | core/loader.py:84-98 | fails with MissingMandatoryColumns exactly when the column set is not exactly the four names, extra columns included; success keeps the header |
| Loader.NormalizeRowsValue | core/loader.py:92-96 | the normalised rows are the surviving rows with both amounts converted and every other cell unchanged |
| Loader.NormalizedRows | core/loader.py:84-98 | a successful normalisation keeps the header, marks the two amount dtypes float64, and gives rows with labels present and amounts as numbers |
| Loader.NormalizeFailsOnText | core/loader.py:95-96 | with the right header, normalisation fails exactly when some surviving row has an actual or budget that is not a number, and then with the not-convertible error |
| Loader.MaterializeRows | core/loader.py:110-121 | one new, distinct row object per table row, in order, with that row's four values and no variances |
| Loader.DataframeToRows | core/loader.py:101-121 | one new row object per normalised table row, in order, each carrying that row's values and no variances; an empty table gives no rows |
| Loader.LoadReport | core/loader.py:124-163 | succeeds exactly when loading and normalising both succeed; otherwise returns the first error; on success returns the rows of the normalised table |
| Mapper.TypeOf | core/mapper.py:31-37 | the tag is Number exactly for int and float prefixes, Date exactly for a datetime prefix, Text for everything else |
| Mapper.TypeOfPrefixes | core/mapper.py:31-36 | dtypes starting with int or float are numbers, those starting with datetime are dates, and object, bool, category and uint8 are text |
| Mapper.InfoOf | core/mapper.py:31-51 | the type tag is that of the dtype; the samples are the first min(5, rows) cells of the column; nulls plus distinct values never exceed the rows; there is no distinct value exactly when every cell is empty |
| Mapper.AnalyzeColumns | core/mapper.py:27-53 | one entry per column, in column order, each holding that column's analysis |
| Mapper.FirstMatchIsFirst | core/mapper.py:82-89 | the column found is the first, in column order, whose lowered name contains a keyword; nothing is found exactly when no column matches |
| Mapper.FirstMatchMember | core/mapper.py:82-89 | a column found is one of the columns |
| Mapper.FindColumn | core/mapper.py:82-89 | the nested search returns what `FirstMatch` specifies |
| Mapper.NamesWithTypeMembers | core/mapper.py:100-101 | a name is listed exactly when its column has one of the tags and is not excluded; the first listed is the first such column |
| Mapper.NamesWithTypeDistinct | core/mapper.py:119-124 | with distinct column names the listed names are distinct |
| Mapper.KeywordsWin | core/mapper.py:92-124 | a slot whose keyword search found a non-empty name keeps that name |
| Mapper.TypeFallbacks | core/mapper.py:98-124 | without a keyword hit: account is the first text column; period is the first date or text column other than the account; actual is the first number column; budget is the first number column other than actual |
| Mapper.SlotNamesAColumn | core/mapper.py:92-124 | every resolved slot names one of the columns |
| Mapper.ResolveSlots | core/mapper.py:92-124 | the keyword search and type fallbacks give the slots `Resolve` specifies |
| Mapper.MissingSlotsListed | core/mapper.py:127-136 | a slot's name is listed exactly when the slot is unresolved, and nothing else is listed |
| Mapper.Hits | core/mapper.py:140-148 | at most four slots carry one of their keywords |
| Mapper.SuggestMapping | core/mapper.py:56-156 | returns what `Suggested` specifies |
| Mapper.SuggestedOutcome | core/mapper.py:127-156 | fails exactly when a slot is unresolved, naming the unresolved slots in order; a suggestion names existing columns and has confidence 0.8 + 0.05 per keyword hit, within [0.8, 1.0] |
| Mapper.UnclearColumnNames | tests/test_mapper.py:78-87 | columns Col1..Col4 (text, text, number, number) are mapped in order with confidence 0.8 |
| Mapper.SingleNumberColumn | tests/test_mapper.py:89-95 | a single number column fills only actual, and the error names account, period and budget |
| Mapper.Absent | core/mapper.py:211-212 | a name is listed exactly when the mapping uses it and the table lacks it; nothing is listed exactly when every mapped name is a column |
| Mapper.MappedLayout | core/mapper.py:178 | each mapped name's position in the header |
| Mapper.Projected | core/mapper.py:226 | one four-cell row per table row |
| Mapper.ValidateMapping | core/mapper.py:211-230 | valid exactly when every mapped column exists and some row fills all four; otherwise the message lists the absent names, or says no complete row is left; text in the amount columns does not invalidate |
| Mapper.ValidMappingExample | tests/test_mapper.py:101-113 | mapping the example header by name is valid with an empty message |
| Mapper.MissingColumnExample | tests/test_mapper.py:115-127 | a mapped name the table lacks is reported by name |
| Mapper.MappedData | core/mapper.py:187-194 | the row built from a complete projected row has text labels, numeric amounts, the absolute variance and the percentage of `calculate_variance`; there is no row when an amount is not a number |
| Mapper.MappedRows | core/mapper.py:178-182 | every kept row has four cells, none of them empty |
| Mapper.MappedRowsKept | core/mapper.py:178-182 | the kept rows are the projected rows minus those with an empty mapped cell, in order, not deduplicated |
| Mapper.BuildMappedRows | core/mapper.py:185-195 | one new computed row per kept row, in order; fails exactly when some amount is not a number |
| Mapper.ApplyMapping | core/mapper.py:173-197 | an invalid mapping fails with the validation message; otherwise one computed row per kept row, in order, or an error at an amount that is not a number |
| Mapper.CreateFileMetadata | core/mapper.py:245-255 | the row count, the column names in order, and for each column its analysed type tag, beside the given filename, file type and size |

## Left out

- Reading files is not modelled. `pd.read_csv`, `pd.read_excel` and sheet lookup are replaced by the `SourceFile` input: a presence flag, the CSV table, and one table per sheet name.
- pandas dtype inference is not modelled. The dtype string of each column is given with the table.
- `SourceFile` gives a table for every sheet name, so a missing sheet is not modelled as an error.
- Floating point is not modelled: NaN and rounding are out. Numbers are exact reals, so the confidence 0.8 + 4 × 0.05 is exactly 1.0.
- `str.lower` is the parameter `lower`. Unicode case folding is not modelled because the keywords include Cyrillic.
- `float(...)` and `str(...)` on cell values are the parameters of `Conversions`. A failed `float(...)` is modelled as an error value, not as an exception.
- Loader.DataframeToRows: the Python code stores a numeric account or period as the number itself. The model renders it as text with `showReal`, since `VarianceRow`'s labels are strings.
- Mapper.ValidateMapping: the `pd.to_numeric` calls are left out. Their result is discarded and, with `errors='coerce'`, they never raise, so that error path cannot occur.
- Tables.WellFormed excludes duplicate column names, which pandas renames when it reads a file. With duplicates, the Python code's column selection behaves differently.
- Filters.FilterByAbsoluteThreshold and Filters.ApplyFilters require every row reaching the absolute threshold to have an absolute variance. In Python, `abs(None)` raises TypeError, and the documented input is computed rows.
- Mapper.ResolveSlots: the budget found by keyword may be the same column as the actual found by keyword. Only the type fallback excludes the actual column, as in the source.
- Mapper.ValidMappingExample uses a one-row table. The Python fixtures use several rows.
- `ColumnMapping`'s optional `extra_columns` and its default confidence are left out. Nothing in the modelled code reads them.
- `load_from_uploaded_file`, the HTTP API, the AI tools and the user interfaces are not part of this model.
