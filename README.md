# Biomarkers — a Dafny model of the biomarker tracker

The repository holds two React Native apps that record health measurements (biomarkers) and
show them in lists and charts:

- the **new app** (`biomarker-tracker/`, TypeScript): a coded catalog of ten biomarkers with
  units, reference ranges and aliases; a search over it; a range evaluator; date-window presets;
  a SQLite `entries` table with insert, query, update and delete; and the screens that add an
  entry, list one biomarker's entries chronologically and chart the numeric ones;
- the **legacy app** (`src/`, JavaScript): a table of 127 uncoded biomarkers sorted by name and
  their sorted categories; a context provider that keeps the list of records in memory and
  persists it after every change; the "Add Biomarker" modal; the record list, newest first; the
  metrics screen's date windows, biomarker chips and chart gate; the home screen's counts; and
  the line chart with its thinned axis labels, latest value and trend.

Each source file is one Dafny module. Pure code (search, range checks, presets, comparators,
filters, sorts) is functions with lemmas. Objects that change are classes:

- `Db.EntryTable` holds the rows and the next AUTOINCREMENT id;
- `LegacyRecords.RecordStore` holds the in-memory records and what the storage holds;
- `LegacyAddModal.AddBiomarkerForm` and `EntryForm.EntryFormScreen` hold the form state;
- `BiomarkerDetail.BiomarkerDetailScreen` holds the loaded entries.

The modules `Js`, `Strings`, `Seqs` and `Time` hold the JavaScript semantics the modules share:

- `null` versus `undefined`, `??` and the truthiness of strings and numbers;
- `toLowerCase` on ASCII letters, `trim` with the JavaScript white-space set, `includes` and
  `startsWith`;
- the default `sort()` order, which compares code units; a stable sort (`Array.prototype.sort`
  is stable); `reverse`, `slice` and `new Set`;
- local midnight under a fixed time-zone offset.

Modelling conventions:

- JavaScript numbers are `real`.
- An optional property is `Option` (`None`: absent). A property that may be `null` or
  `undefined` is `Nullable`.
- Instants are epoch milliseconds.
- The clock (`now`), the time-zone offset, `parseFloat`, `Number`, `new Date(string)`,
  `localeCompare` (an abstract total preorder `localeLe`), the month/year `Date` setters and
  the axis label formatting are parameters of the operations that use them.

Where the code does less than its names and types suggest, the model follows the code:

- `getPresetRange('custom')` returns today's bounds tagged `custom`; caller bounds are not
  passed through (`DateRanges.CustomIsToday`).
- `isInRange` returns unknown for a unit mismatch only when both units are non-empty. A missing
  or empty unit on either side still compares (`Ranges.MissingUnitStillCompares`).
- `updateEntry` and `deleteEntry` report nothing for a missing id; they change no row.
- `onSave` does not check the entry: only the disabled save button stands between an incomplete
  form and the store (`EntryForm.EntryFormScreen.OnSave`, `EntryForm.CanSaveIff`).
- Query results are ordered by `takenAt` then `id`, both descending. A new entry comes first
  only when its `takenAt` is the latest.
- The legacy modal searches names only, with no trim. The new search trims the query and also
  matches codes and aliases.

## Model

| member | source | states |
|---|---|---|
| Types.PresetNamesDistinct | biomarker-tracker/src/types.ts:34-40 | there are six presets, and their names identify them |
| Dataset.FromEntries | biomarker-tracker/src/biomarkers/dataset.ts:100-102 | every value of the index is a catalog entry filed under its own code, and every catalog code is a key |
| Dataset.FromEntriesUnique | biomarker-tracker/src/biomarkers/dataset.ts:100-102 | with unique codes the index maps each code to the one entry that has it |
| Dataset.CatalogCodesUnique | biomarker-tracker/src/biomarkers/dataset.ts:5-98 | no two catalog entries share a code |
| Dataset.IndexLookup | biomarker-tracker/src/biomarkers/dataset.ts:100-102 | a code is in the index exactly when some catalog entry has it, and the index gives that entry |
| Dataset.IndexGlucose | biomarker-tracker/src/biomarkers/dataset.ts:72-80 | the index entry for `glucose` is Blood Glucose |
| Dataset.CatalogWellFormed | biomarker-tracker/src/biomarkers/dataset.ts:5-98 | every entry has units, a default unit among them, ordered bounds and a range unit among its units |
| Dataset.SearchNormalized | biomarker-tracker/src/biomarkers/dataset.ts:106-113 | results are a subsequence of the catalog, at most `limit` long, and each matches a non-empty query |
| Dataset.SearchIn | biomarker-tracker/src/biomarkers/dataset.ts:104-114 | the same, for the trimmed, lower-cased query |
| Dataset.NormalizeQuery | biomarker-tracker/src/biomarkers/dataset.ts:105 | `query.trim().toLowerCase()`; `Dataset.SearchIn` states the search through it, `Strings.TrimEmptyIff` when it is blank |
| Dataset.Matches | biomarker-tracker/src/biomarkers/dataset.ts:107-112 | the search filter: name, code or some alias contains the query, lower-cased; `Dataset.MatchesIn` states that the matches are exactly these entries |
| Dataset.SearchBiomarkers | biomarker-tracker/src/biomarkers/dataset.ts:104-114 | over the real catalog: catalog order, at most `limit`, and every result matches by name, code or alias |
| Dataset.MatchesIn | biomarker-tracker/src/biomarkers/dataset.ts:107-112 | the matched entries are exactly the catalog entries whose name, code or some alias contains the query |
| Dataset.SearchBlankQuery | biomarker-tracker/src/biomarkers/dataset.ts:105-106 | an empty or blank query returns the first `limit` catalog entries, in order |
| Dataset.SearchReturnsFirstMatches | biomarker-tracker/src/biomarkers/dataset.ts:107-113 | a non-blank query returns the first `limit` matches, and every match when there are no more than `limit` |
| Dataset.SearchFindsEveryMatch | biomarker-tracker/src/biomarkers/dataset.ts:107-113 | with a catalog no longer than `limit`, no matching entry is left out |
| Dataset.NormalizeA1c | biomarker-tracker/src/biomarkers/dataset.ts:105 | `a1c` is unchanged by trimming and lower-casing |
| Dataset.Hba1cMatchesA1c | biomarker-tracker/src/biomarkers/dataset.ts:82-89 | Hemoglobin A1c matches `a1c` through its alias |
| Dataset.SearchA1c | biomarker-tracker/src/biomarkers/dataset.ts:104-114 | a query that normalizes to `a1c` finds Hemoglobin A1c within the default limit of 20 |
| Ranges.IsInRangeIn | biomarker-tracker/src/utils/ranges.ts:3-13 | unknown exactly without a code, a value, a catalog entry with a range, or when two non-empty units differ; otherwise in range exactly when within every present bound |
| Ranges.Within | biomarker-tracker/src/utils/ranges.ts:10-12 | every present bound admits the value, inclusively; a missing bound admits any; `Ranges.IsInRangeIn` states that the verdict is true exactly then |
| Ranges.IsInRange | biomarker-tracker/src/utils/ranges.ts:3-13 | the same verdicts over the catalog's index |
| Ranges.BoundsInclusive | biomarker-tracker/src/utils/ranges.ts:10-12 | a value equal to either bound is in range |
| Ranges.MissingUnitStillCompares | biomarker-tracker/src/utils/ranges.ts:9 | a missing or empty unit on either side does not make the verdict unknown |
| Ranges.GlucoseScenario | biomarker-tracker/src/utils/ranges.ts:3-13 | glucose: 85 mg/dL in range, 120 mg/dL out of range, 120 mmol/L unknown |
| Time.StartOfDay | biomarker-tracker/src/utils/dateRanges.ts:8 | local midnight: at or before the instant, less than a day before, and a whole number of local days |
| Time.EndOfDay | biomarker-tracker/src/utils/dateRanges.ts:8 | the last millisecond of the local day: at or after the instant, less than a day after, one before a midnight |
| Time.SubDaysKeepsTimeOfDay | biomarker-tracker/src/utils/dateRanges.ts:10 | `subDays` keeps the local time of day, never moves forward for a non-negative count, and is undone by moving the other way |
| Time.StartOfDayUnique | biomarker-tracker/src/utils/dateRanges.ts:8 | local midnight is the only local day boundary within a day at or before the instant |
| Time.StartOfDaySubDays | biomarker-tracker/src/utils/dateRanges.ts:10-16 | the midnight of `n` days ago is today's midnight minus `n` days |
| Time.SameDay | biomarker-tracker/src/utils/dateRanges.ts:7-8 | every instant of a local day has that day's start and end |
| DateRanges.PresetOf | biomarker-tracker/src/utils/dateRanges.ts:6-19 | a known preset name selects that preset; any other name selects `custom` |
| DateRanges.GetPresetRange | biomarker-tracker/src/utils/dateRanges.ts:4-21 | the window starts at the local midnight 0, 6, 89, 179 or 364 days back, ends at the end of today, spans that many days plus one, and contains now |
| DateRanges.ToEpochMsRange | biomarker-tracker/src/utils/dateRanges.ts:23-25 | the pair is the window's start and end in milliseconds |
| DateRanges.EpochRangeOrdered | biomarker-tracker/src/utils/dateRanges.ts:23-25 | a resolved window never ends before it starts |
| DateRanges.WindowsNest | biomarker-tracker/src/utils/dateRanges.ts:7-16 | today, week, 3 months, 6 months and a year nest, and they share their end |
| DateRanges.TodayInEveryWindow | biomarker-tracker/src/utils/dateRanges.ts:7-19 | every instant of today lies in every window |
| DateRanges.CustomIsToday | biomarker-tracker/src/utils/dateRanges.ts:17-19 | `custom` and unknown names give exactly today's bounds, tagged `custom` |
| Js.StringOrNull | biomarker-tracker/src/screens/metrics/EntryFormScreen.tsx:42-46 | `s \|\| null` is `null` exactly for the empty string, and otherwise the string itself |
| Js.OptionOrNull | biomarker-tracker/src/db.ts:75-82 | a missing value becomes `null`, never `undefined`; a present one is kept |
| Db.TextParam | biomarker-tracker/src/db.ts:34-41 | a text value binds as itself; `null` and `undefined` bind as NULL |
| Db.RealParam | biomarker-tracker/src/db.ts:36 | a numeric value binds as itself; `null` and `undefined` bind as NULL |
| Db.InsertParams | biomarker-tracker/src/db.ts:33-42 | eight values in column order, each of its column's type or NULL, with the name and `takenAt` as given |
| Db.UpdateParams | biomarker-tracker/src/db.ts:95-105 | the insert's eight values, then the entry's own id |
| Db.RowFromParams | biomarker-tracker/src/db.ts:11-21 | the stored row carries the id, the name and the instant that were bound |
| Db.ToEntry | biomarker-tracker/src/db.ts:73-83 | id, name and instant are copied; each of the six nullable columns reads back as its value when present and as `null` (never `undefined`) when NULL |
| Db.InsertRoundTrip | biomarker-tracker/src/db.ts:28-45 | an entry stored and read back is the entry itself, with its id and `null` for each field it left undefined |
| Db.BuildFilters | biomarker-tracker/src/db.ts:55-68 | one clause per truthy filter, in the order code, start, end, each with its own parameter; a missing filter, empty code or zero bound adds none |
| Db.PickedInOrder | biomarker-tracker/src/db.ts:57-68 | any choice of clauses keeps the fixed order |
| Db.WhereSql | biomarker-tracker/src/db.ts:70 | the WHERE text is empty exactly when there are no clauses |
| Db.BuiltClausesSelect | biomarker-tracker/src/db.ts:55-70 | a row passes the built clauses exactly when its code matches and `takenAt` lies within the given bounds, inclusive |
| Db.Holds | biomarker-tracker/src/db.ts:57-68 | how SQL evaluates one built clause, a NULL code never equal; `Db.BuiltClausesSelect` states that all built clauses hold exactly for the selected rows |
| Db.Selected | biomarker-tracker/src/db.ts:57-68 | the rows a query is meant to return, truthy filters only; `Db.QueryRowsSelected` states that the query returns exactly these |
| Db.NewestFirstTotalPreorder | biomarker-tracker/src/db.ts:71 | `ORDER BY takenAt DESC, id DESC` is a total preorder |
| Db.NewestFirstAntisymmetric | biomarker-tracker/src/db.ts:71 | two rows each ordered before the other have the same instant and id |
| Db.ReplaceById | biomarker-tracker/src/db.ts:94 | exactly the rows with the id take the new values; the length is kept |
| Db.RemoveById | biomarker-tracker/src/db.ts:88 | the rows left are table rows without the id, and every row without the id is left |
| Db.EntryTable.constructor | biomarker-tracker/src/db.ts:11-21 | an empty table whose first id is 1 |
| Db.EntryTable.QueryRows | biomarker-tracker/src/db.ts:69-72 | the returned rows are a permutation of the selected rows, newest first |
| Db.EntryTable.InsertEntry | biomarker-tracker/src/db.ts:28-45 | appends the row of the bound values under the next id, returns that id, and keeps ids unique |
| Db.EntryTable.UpdateEntry | biomarker-tracker/src/db.ts:91-107 | the row with the entry's own id gets the new values; every other row and the next id stay |
| Db.EntryTable.DeleteEntry | biomarker-tracker/src/db.ts:86-89 | removes the rows with the id and keeps the others in order |
| Db.EntryTable.QueryEntries | biomarker-tracker/src/db.ts:53-84 | the result is the mapped rows of the intended selection, in the requested order |
| Db.QueryRowsSelected | biomarker-tracker/src/db.ts:53-72 | every returned row satisfies the filters, and no table row that satisfies them is missing |
| Db.NoFiltersReturnAll | biomarker-tracker/src/db.ts:53-72 | with no effective filter every row is returned |
| Db.NoWhereIffNoFilter | biomarker-tracker/src/db.ts:55-70 | the query has no WHERE clause exactly when no filter is effective |
| EntryForm.DefaultUnitOf | biomarker-tracker/src/screens/metrics/EntryFormScreen.tsx:26 | the default unit if given, else the first unit's code, else `null` |
| EntryForm.DefaultUnitIsAUnit | biomarker-tracker/src/screens/metrics/EntryFormScreen.tsx:24-28 | for a well-formed catalog entry the chosen unit is one of its units |
| EntryForm.EntryFormScreen.constructor | biomarker-tracker/src/screens/metrics/EntryFormScreen.tsx:11-18 | empty fields, no selection, no unit, the date at now |
| EntryForm.EntryFormScreen.SelectBiomarker | biomarker-tracker/src/screens/metrics/EntryFormScreen.tsx:24-28 | selects the biomarker, so the field shows its name, and fills in its default unit only when no unit is set; nothing else changes |
| EntryForm.EntryFormScreen.OnChangeText | biomarker-tracker/src/screens/metrics/EntryFormScreen.tsx:62-66 | drops the selection and sets the query, so the field shows exactly what was typed; nothing else changes |
| EntryForm.EntryFormScreen.ChooseUnit | biomarker-tracker/src/screens/metrics/EntryFormScreen.tsx:93 | sets the unit; nothing else changes |
| EntryForm.EntryFormScreen.ShownResults | biomarker-tracker/src/screens/metrics/EntryFormScreen.tsx:22 | no results while something is selected or the query is empty; otherwise the first 20 search results for the query |
| EntryForm.EntryFormScreen.EntryToSave | biomarker-tracker/src/screens/metrics/EntryFormScreen.tsx:38-47 | code and name from the selection (else `null` and the trimmed query), the number only for a non-empty field, and `null` for each empty text field |
| EntryForm.EntryFormScreen.OnSave | biomarker-tracker/src/screens/metrics/EntryFormScreen.tsx:37-50 | inserts exactly the built entry and keeps the table's ids unique |
| EntryForm.CanSaveGivesCompleteEntry | biomarker-tracker/src/screens/metrics/EntryFormScreen.tsx:30-47 | a savable form yields a named entry with a non-empty unit and a numeric or text value |
| EntryForm.CanSaveIff | biomarker-tracker/src/screens/metrics/EntryFormScreen.tsx:30-35 | saving is allowed exactly with a selection or a non-blank query, a unit, and some value |
| EntryForm.EntryFormScreen.CanSave | biomarker-tracker/src/screens/metrics/EntryFormScreen.tsx:30-35 | the three guards of `canSave`; `EntryForm.CanSaveIff` states them as one condition and `EntryForm.CanSaveGivesCompleteEntry` what a save then stores |
| EntryForm.ShownResultsAreMatches | biomarker-tracker/src/screens/metrics/EntryFormScreen.tsx:71-80 | with nothing selected and a non-blank query, the list shows exactly the catalog entries it matches, in catalog order, none cut off |
| EntryForm.BlankQueryListsCatalog | biomarker-tracker/src/screens/metrics/EntryFormScreen.tsx:22 | a query of blanks lists the whole catalog |
| BiomarkerDetail.NumericPoints | biomarker-tracker/src/screens/metrics/BiomarkerDetailScreen.tsx:29-33 | no more points than entries |
| BiomarkerDetail.NumericPointsSound | biomarker-tracker/src/screens/metrics/BiomarkerDetailScreen.tsx:29-33 | every point is the instant and value of some numeric entry |
| BiomarkerDetail.IsNumeric | biomarker-tracker/src/screens/metrics/BiomarkerDetailScreen.tsx:31 | an entry with a number; `BiomarkerDetail.NumericPointsComplete` states that every such entry is plotted |
| BiomarkerDetail.PointOf | biomarker-tracker/src/screens/metrics/BiomarkerDetailScreen.tsx:32 | the instant and value of an entry; `BiomarkerDetail.NumericPointsSound` states that every point is one of these |
| BiomarkerDetail.NumericPointsComplete | biomarker-tracker/src/screens/metrics/BiomarkerDetailScreen.tsx:29-33 | every numeric entry contributes its point |
| BiomarkerDetail.NumericPointsInOrder | biomarker-tracker/src/screens/metrics/BiomarkerDetailScreen.tsx:29-33 | the points keep the order of the entries |
| BiomarkerDetail.NoPointsIffNoNumericEntry | biomarker-tracker/src/screens/metrics/BiomarkerDetailScreen.tsx:42-55 | the "no numeric data" text is shown exactly when no entry is numeric |
| BiomarkerDetail.ReverseInPlace | biomarker-tracker/src/screens/metrics/BiomarkerDetailScreen.tsx:24 | the array holds its old contents reversed |
| BiomarkerDetail.ReversedCopy | biomarker-tracker/src/screens/metrics/BiomarkerDetailScreen.tsx:24 | the query result's array, reversed in place, read back as the reversed sequence |
| BiomarkerDetail.BiomarkerDetailScreen.constructor | biomarker-tracker/src/screens/metrics/BiomarkerDetailScreen.tsx:18-19 | the route's code and no entries |
| BiomarkerDetail.BiomarkerDetailScreen.Filters | biomarker-tracker/src/screens/metrics/BiomarkerDetailScreen.tsx:23 | the query filters by the code only |
| BiomarkerDetail.BiomarkerDetailScreen.Load | biomarker-tracker/src/screens/metrics/BiomarkerDetailScreen.tsx:21-27 | the entries are the query result reversed, in ascending time, all with the route's code |
| BiomarkerDetail.BiomarkerDetailScreen.Points | biomarker-tracker/src/screens/metrics/BiomarkerDetailScreen.tsx:29-33 | there are no points exactly when no loaded entry is numeric |
| BiomarkerDetail.LoadedQuery | biomarker-tracker/src/screens/metrics/BiomarkerDetailScreen.tsx:23-24 | a reversed query by code is chronological and holds only that code |
| BiomarkerDetail.OnlyThisCode | biomarker-tracker/src/screens/metrics/BiomarkerDetailScreen.tsx:23 | querying by a non-empty code yields only entries with that code |
| BiomarkerDetail.Chronological | biomarker-tracker/src/screens/metrics/BiomarkerDetailScreen.tsx:24 | newest-first rows, reversed, are in ascending time |
| BiomarkerDetail.MappedNewestFirst | biomarker-tracker/src/db.ts:71-83 | mapping newest-first rows to entries keeps them newest first |
| BiomarkerDetail.ReverseAscending | biomarker-tracker/src/screens/metrics/BiomarkerDetailScreen.tsx:24 | a list whose instants never increase, reversed, has instants that never decrease |
| BiomarkerDetail.RowsWithCode | biomarker-tracker/src/screens/metrics/BiomarkerDetailScreen.tsx:23-24 | rows that all carry one code still carry it once mapped and reversed |
| EntryChart.ChartPoints | biomarker-tracker/src/screens/metrics/BiomarkerChart.tsx:12-15 | no more points than entries |
| EntryChart.ChartIsReversedPoints | biomarker-tracker/src/screens/metrics/BiomarkerChart.tsx:12-15 | the chart's points are the detail screen's points in the opposite order |
| EntryChart.HasNumber | biomarker-tracker/src/screens/metrics/BiomarkerChart.tsx:13 | an entry with a number; `EntryChart.ChartIsReversedPoints` states that it selects the same entries as the detail screen |
| EntryChart.ChartPointsReversed | biomarker-tracker/src/screens/metrics/BiomarkerChart.tsx:12-15 | point `i` belongs to the `i`-th numeric entry counted from the end |
| EntryChart.NoChartIffNoNumber | biomarker-tracker/src/screens/metrics/BiomarkerChart.tsx:17 | the empty-chart text is shown exactly when no entry has a number |
| EntryChart.FilterDescending | biomarker-tracker/src/screens/metrics/BiomarkerChart.tsx:13 | filtering a descending list keeps it descending |
| EntryChart.BackToFrontAscending | biomarker-tracker/src/screens/metrics/BiomarkerChart.tsx:15 | reading a descending list back to front gives ascending points |
| EntryChart.ChartOfDescendingAscending | biomarker-tracker/src/screens/metrics/BiomarkerChart.tsx:12-15 | given a newest-first list the chart's points are in ascending time |
| EntryChart.QueryResultDescending | biomarker-tracker/src/db.ts:71-83 | a query result mapped to entries is newest first |
| Strings.ToLower | biomarker-tracker/src/biomarkers/dataset.ts:105 | same length, each ASCII capital lowered, every other character kept |
| Strings.TrimEmptyIff | biomarker-tracker/src/biomarkers/dataset.ts:105-106 | trimming yields the empty string exactly for an empty or white-space-only string |
| Strings.CodeUnitLeTotalPreorder | src/data/biomarkers.js:167 | the default `sort()` order is a total preorder |
| Strings.SortedSet | src/screens/MetricsScreen.js:54 | no longer than its input |
| Strings.SortedSetSpec | src/screens/MetricsScreen.js:54 | `[...new Set(xs)].sort()` is sorted, lists each string once, and holds exactly the strings of `xs` |
| Strings.SortedSetUnique | src/data/biomarkers.js:167 | any sorted duplicate-free list of the same strings equals it |
| LegacyCatalog.RawSize | src/data/biomarkers.js:4-164 | the table has 127 entries |
| LegacyCatalog.RawEntriesOk | src/data/biomarkers.js:4-164 | every entry has units and ordered bounds, and only Weight lacks a bound |
| LegacyCatalog.WeightHasNoBounds | src/data/biomarkers.js:4 | Weight has neither bound |
| LegacyCatalog.ByName | src/data/biomarkers.js:165 | the comparator orders entries by the locale order of their names |
| LegacyCatalog.SortByName | src/data/biomarkers.js:165 | sorting keeps the number of entries |
| LegacyCatalog.Biomarkers | src/data/biomarkers.js:2-165 | the table sorted by name; `LegacyCatalog.BiomarkersSorted` states that it is sorted, a permutation of the declared entries, and well formed |
| LegacyCatalog.BiomarkersSorted | src/data/biomarkers.js:165 | the exported table is in name order, holds exactly the declared entries, and every entry is well formed |
| LegacyCatalog.ByNameTotalPreorder | src/data/biomarkers.js:165 | a total preorder on names gives one on entries |
| LegacyCatalog.SortedByNameIsSorted | src/data/biomarkers.js:165 | the sorted table is ordered by name, holds the same entries, and keeps every entry well formed |
| LegacyCatalog.CategoryList | src/data/biomarkers.js:167 | one category per entry, in table order |
| LegacyCatalog.Categories | src/data/biomarkers.js:167 | no more categories than entries |
| LegacyCatalog.CategoriesSortedDistinct | src/data/biomarkers.js:167 | the categories are sorted, listed once each, and are exactly those some entry has |
| LegacyCatalog.CategoriesUnique | src/data/biomarkers.js:167 | they are the only such list |
| LegacyCatalog.CategoriesPermutation | src/data/biomarkers.js:165-167 | the categories do not depend on the table's order |
| LegacyCatalog.CategoriesOfSorted | src/data/biomarkers.js:165-167 | the categories of the sorted table are those of the table as declared |
| LegacyRecords.WithIdentity | src/context/BiomarkerContext.js:36-40 | the new record has the given id and creation time and every field of the draft |
| LegacyRecords.MergeOverlays | src/context/BiomarkerContext.js:54 | each property comes from the patch when it has one and from the record otherwise; the empty patch changes nothing |
| LegacyRecords.Merge | src/context/BiomarkerContext.js:54 | `{ ...record, ...updatedData }`; `LegacyRecords.MergeOverlays` states the per-property overlay |
| LegacyRecords.Added | src/context/BiomarkerContext.js:35-44 | the list after `addBiomarkerRecord`; `LegacyRecords.AddAppends` states the one appended record |
| LegacyRecords.Deleted | src/context/BiomarkerContext.js:46-50 | the list after `deleteBiomarkerRecord`; `LegacyRecords.DeleteRemovesId` and `DeleteAbsentNoChange` state what stays |
| LegacyRecords.Updated | src/context/BiomarkerContext.js:52-58 | the list after `updateBiomarkerRecord`; `LegacyRecords.UpdateOverlays` and `UpdateNoChange` state the per-record overlay |
| LegacyRecords.AddAppends | src/context/BiomarkerContext.js:35-44 | one record more, appended after the unchanged list, with the given id and creation time |
| LegacyRecords.DeleteRemovesId | src/context/BiomarkerContext.js:46-50 | the other records stay in order, and a record stays exactly when its id differs |
| LegacyRecords.DeleteAbsentNoChange | src/context/BiomarkerContext.js:47 | deleting an id no record has changes nothing |
| LegacyRecords.UpdateOverlays | src/context/BiomarkerContext.js:52-58 | same length; records with the id are merged with the patch, the others stay |
| LegacyRecords.UpdateNoChange | src/context/BiomarkerContext.js:53-55 | an absent id or the empty patch changes nothing |
| LegacyRecords.RecordStore.constructor | src/context/BiomarkerContext.js:7-8 | no records, loading, over what the storage holds |
| LegacyRecords.RecordStore.Load | src/context/BiomarkerContext.js:14-25 | takes the stored list if there is one, keeps the list otherwise, and stops loading |
| LegacyRecords.RecordStore.Add | src/context/BiomarkerContext.js:35-44 | the list becomes the appended list, and the storage holds it |
| LegacyRecords.RecordStore.Delete | src/context/BiomarkerContext.js:46-50 | the list loses the id's records, and the storage holds it |
| LegacyRecords.RecordStore.Update | src/context/BiomarkerContext.js:52-58 | the list gets the patch on the id's records, and the storage holds it |
| LegacyRecords.LoadNothingStored | src/context/BiomarkerContext.js:14-25 | starting with nothing stored ends loading with an empty list |
| LegacyRecords.ReloadAfterAdd | src/context/BiomarkerContext.js:14-44 | after an add, loading again restores exactly the current list |
| LegacyAddModal.FilteredBiomarkers | src/components/AddBiomarkerModal.js:28-30 | no more entries than the table |
| LegacyAddModal.FilteredExactly | src/components/AddBiomarkerModal.js:28-30 | the matches keep table order and are exactly the entries whose lower-cased name contains the lower-cased query |
| LegacyAddModal.EmptyQueryMatchesAll | src/components/AddBiomarkerModal.js:28-30 | the empty query matches the whole table |
| LegacyAddModal.AddBiomarkerForm.constructor | src/components/AddBiomarkerModal.js:19-26 | the blank form, dated today |
| LegacyAddModal.AddBiomarkerForm.ResetForm | src/components/AddBiomarkerModal.js:61-70 | every field back to its initial value, the date at today |
| LegacyAddModal.AddBiomarkerForm.OnChangeText | src/components/AddBiomarkerModal.js:108-111 | sets the query and opens the suggestions; nothing else changes |
| LegacyAddModal.AddBiomarkerForm.Suggestions | src/components/AddBiomarkerModal.js:116-118 | none while closed or with an empty query; otherwise the first ten matches, or all of them when fewer |
| LegacyAddModal.AddBiomarkerForm.HandleBiomarkerSelect | src/components/AddBiomarkerModal.js:32-37 | selects the entry, shows its name, picks its first unit and closes the suggestions; nothing else changes |
| LegacyAddModal.AddBiomarkerForm.Submitted | src/components/AddBiomarkerModal.js:45-54 | the record carries the selection's name, range and category and the form's parsed value, unit, date, location and notes |
| LegacyAddModal.AddBiomarkerForm.HandleSubmit | src/components/AddBiomarkerModal.js:39-59 | without a selection, value or date nothing changes; otherwise the record is appended and stored and the form is reset; the loading flag stays in both cases |
| LegacyAddModal.AddBiomarkerForm.CanSubmit | src/components/AddBiomarkerModal.js:40 | the submit guard; `HandleSubmit` states that a record is added exactly when it holds |
| LegacyAddModal.AddBiomarkerForm.IsInNormalRange | src/components/AddBiomarkerModal.js:77-83 | unknown exactly without a selection, a value or either bound; otherwise in range exactly when within both bounds |
| LegacyAddModal.SuggestionsAreMatches | src/components/AddBiomarkerModal.js:116-118 | every suggestion is a matching table entry, and with ten or fewer matches all are suggested |
| LegacyAddModal.SubmittedRecordKeepsStatus | src/components/AddBiomarkerModal.js:45-54 | the status shown before submitting is the one the list shows for the stored record |
| LegacyList.IsInNormalRange | src/components/BiomarkerList.js:25-31 | unknown exactly without a range or a bound; otherwise in range exactly when within both bounds |
| LegacyList.NewerFirst | src/components/BiomarkerList.js:43 | a total preorder under which a record comes before every record with an earlier or equal date |
| LegacyList.SortedRecords | src/components/BiomarkerList.js:43 | the sorted copy has every record |
| LegacyList.SortedRecordsNewestFirst | src/components/BiomarkerList.js:43 | the list shown is a permutation of the records, most recent first |
| LegacyMetrics.WindowStart | src/screens/MetricsScreen.js:29-47 | each preset's start (local midnight, seven days back, three or six months back, a year back); none for `all` and any other value |
| LegacyMetrics.SinceExactly | src/screens/MetricsScreen.js:49 | the window keeps order and holds exactly the records dated at or after its start |
| LegacyMetrics.Since | src/screens/MetricsScreen.js:49 | the records dated at or after a start; `LegacyMetrics.SinceExactly` states order and membership, `SinceMonotone` that a later start keeps less |
| LegacyMetrics.GetFilteredRecords | src/screens/MetricsScreen.js:25-50 | every record for `all` and unknown presets; otherwise the records at or after the preset's start |
| LegacyMetrics.InitialRangeShowsAll | src/screens/MetricsScreen.js:13 | the initial preset `all` shows every record |
| LegacyMetrics.TodayAndWeekStarts | src/screens/MetricsScreen.js:30-35 | today starts at local midnight; the week starts exactly seven days before now |
| LegacyMetrics.TodayWithinWeek | src/screens/MetricsScreen.js:29-49 | every record shown for today is shown for the week |
| LegacyMetrics.SinceMonotone | src/screens/MetricsScreen.js:49 | a later start keeps a subsequence of an earlier start's records |
| LegacyMetrics.Names | src/screens/MetricsScreen.js:54 | one name per record, in order |
| LegacyMetrics.UniqueBiomarkers | src/screens/MetricsScreen.js:54 | no more chips than records |
| LegacyMetrics.UniqueBiomarkersSpec | src/screens/MetricsScreen.js:54 | the chips are sorted, listed once each, and are exactly the names in the window |
| LegacyMetrics.ChartRecords | src/screens/MetricsScreen.js:98-121 | the chart is present exactly when there are chips and a truthy selection |
| LegacyMetrics.ChartRecordsExactly | src/screens/MetricsScreen.js:120 | the chart receives exactly the window's records of the selected name, in order |
| LegacyMetrics.ChartShownIff | src/screens/MetricsScreen.js:98-121 | the chart is shown exactly when the window has a record and a chip is selected |
| LegacyHome.TodayCount | src/screens/HomeScreen.js:11-16 | at most the number of records |
| LegacyHome.TodayCountZeroIff | src/screens/HomeScreen.js:11-16 | the count is zero exactly when no date starts with today's date |
| LegacyHome.ThisWeekCount | src/screens/HomeScreen.js:18-24 | the number of records dated at or after seven days before now |
| LegacyHome.WeekCountMatchesMetrics | src/screens/HomeScreen.js:18-24 | the home count is the length of the metrics screen's week window |
| LegacyHome.UniqueCount | src/screens/HomeScreen.js:26-28 | at most the number of records |
| LegacyHome.UniqueCountIsChipCount | src/screens/HomeScreen.js:26-28 | the unique count equals the number of chips on the metrics screen |
| LegacyHome.UniqueCountBounds | src/screens/HomeScreen.js:26-28 | some records give at least one; one name throughout gives exactly one |
| LegacyChart.OlderFirst | src/components/BiomarkerChart.js:18 | a total preorder under which a record comes before every record with a later or equal date |
| LegacyChart.SortedRecords | src/components/BiomarkerChart.js:18 | the sorted copy has every record |
| LegacyChart.SortedRecordsAscending | src/components/BiomarkerChart.js:18 | the chart's records are a permutation of its input, oldest first |
| LegacyChart.Labels | src/components/BiomarkerChart.js:21-24 | one label per record, the formatted date |
| LegacyChart.Values | src/components/BiomarkerChart.js:26 | one value per record |
| LegacyChart.ThinLabels | src/components/BiomarkerChart.js:33 | six labels or fewer are kept as they are |
| LegacyChart.EveryStepShape | src/components/BiomarkerChart.js:33 | the `j`-th kept label is the one at the `j`-th multiple of the step, and every multiple below the length is kept |
| LegacyChart.EveryStep | src/components/BiomarkerChart.js:33 | `filter((_, i) => i % step === 0)`; `LegacyChart.EveryStepShape` states which labels it keeps |
| LegacyChart.ThinnedLabels | src/components/BiomarkerChart.js:33 | more than six labels thin to between one and six, the first kept, label `j` the one at `j * ceil(n / 6)` |
| LegacyChart.ShownRange | src/components/BiomarkerChart.js:29-30 | the range is shown exactly when the oldest record has both bounds |
| LegacyChart.Render | src/components/BiomarkerChart.js:7-15 | the empty card exactly when no records are given or the list is empty |
| LegacyChart.RenderChart | src/components/BiomarkerChart.js:17-98 | the values in date order, the latest record last, the range shown exactly with both bounds, the trend up exactly when the newest value exceeds the oldest |
| LegacyChart.RenderLabels | src/components/BiomarkerChart.js:21-33 | between one and six axis labels, starting with the oldest record's; with six or fewer records, all of them |
| LegacyChart.LatestIsNewest | src/components/BiomarkerChart.js:83 | the "Latest" record is one of the records and has the newest date |

## Left out

- NaN is not modelled. JavaScript numbers are exact reals, so `parseFloat` and `Number` always
  give a number, and the `!isNaN` test of the detail screen never fails.
- `toLowerCase` lowers ASCII letters only. Other case mappings are not modelled.
- A day is a fixed 86,400,000 ms under a fixed time-zone offset, so daylight saving is not
  modelled.
- The month and year setters of `Date` (`setMonth`, `setFullYear`) are abstract parameters,
  and the legacy week window is seven fixed days.
- The SQLite engine, the database connection cache of `getDb`, the indexes and `PRAGMA` are
  left out. The table is an in-memory sequence of rows whose WHERE and ORDER BY semantics are
  written out.
- AsyncStorage is left out. It is a field holding the stored list; JSON encoding and decoding
  and the error paths of load and save (which only log) are not modelled.
- React state batching, effects, async scheduling, `alert`, `onDismiss`/navigation and all
  rendering and styling are left out.
- The new app's `MetricsScreen.tsx` and `HomeScreen.tsx`, `App.js` and the navigators are not
  part of this model.
- The chart's average and the `toFixed`/`Math.abs` text of the trend are not modelled; only
  the trend's direction is.
- `localeCompare` is an abstract total preorder `localeLe`. The actual collation of the table's
  names is not computed.
- `LegacyRecords.Merge`: a patch property explicitly set to `undefined` (which spreads as
  `undefined`) is not modelled; a patch property is either absent or a value.
- `LegacyAddModal.AddBiomarkerForm.HandleBiomarkerSelect`: the unit of a biomarker without
  units (`units[0]` is `undefined`) is modelled as `None`. Every table entry has units
  (`RawEntriesOk`).
- `Db.EntryTable.QueryEntries`: states multiset equality and the order, not which of two rows
  with the same instant and id comes first. Ids are unique, so no two rows tie.
- `Db.EntryTable.InsertEntry`: `lastInsertRowId` is modelled as the next AUTOINCREMENT id, so
  ids are never reused after a delete.
- `Strings.CodeUnitLe` compares Unicode scalar values, not UTF-16 code units as JavaScript's
  default `sort()` does. The two orders differ for characters above U+FFFF against those from
  U+E000 to U+FFFF. The table's category names are all ASCII, but the
  biomarker names of the metrics chips come from stored records and need not be.
- `id` and `createdAt` of a legacy record (`Date.now()` and the ISO time) are parameters. Two
  adds in the same millisecond, which would share an id, are not ruled out.
