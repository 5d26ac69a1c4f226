# Autoimmune marker heatmap: the data pipeline in Dafny

The dashboard (`app.py`) loads a table of patient records, standardises its
header, finds the binary marker columns, optionally drops the rows diagnosed
"Other", ranks the markers by a variability score, and shows the top N of them
as a diagnosis × marker table of prevalences (the mean of a 0/1 marker within
a diagnosis). This project models that pipeline and proves what it delivers.

Modules, in pipeline order:

- `Frames` (`frames.dfy`): the parsed table. A `Frame` is a header plus rows
  of cells; a cell is `Option<Value>` (None is a missing value), a value is a
  number (`real`, so 0/1 means are exact) or text. `Positions`/`Select` model
  boolean-mask indexing (`df.loc[mask]`, `df.loc[:, mask]`).
- `ColumnNames` (`column_names.dfy`): `str.strip()` with Python's whitespace
  set, the two `str.replace` calls, and `Normalize`, their composition.
- `Loader` (`loader.dfy`): `load_data`. The method `LoadData` rebinds `df` one
  step at a time as the source does, and is proved to return exactly the
  specification function `Loaded`, about which the lemmas are stated.
  `DuplicatedMask` is `df.columns.duplicated()` written as a scan with a set
  of seen names; it is proved to mark exactly the names that occur earlier.
- `MarkerSelection` (`markers.dfy`): `nunique()` (missing values ignored),
  `binary_cols`, `remove_cols` and the filtered marker list.
- `Aggregate` (`aggregate.dfy`): the "Other" row filter, the group keys of
  `groupby("Diagnosis")` and the per-group mean of a marker.
- `Ranking` (`ranking.dfy`): `sort_values(ascending=False).head(n)` as an
  insertion sort on the scores followed by a prefix.
- `Dashboard` (`dashboard.dfy`): one render of the script. The two
  `st.error`/`st.stop` halts and the aggregation error are `Failure` values of
  a `Result`.
- `Scenarios` (`scenarios.dfy`): two concrete tables that show edge cases.

Inputs that the source gets from outside become parameters: the parsed table
(`raw`), the "Include 'Other'" checkbox (`includeOther`), the Top N slider
value (`topN`, 5 to 20), and the variability scores (`score`, a map from
marker to `real`; a marker missing from the map has a NaN score).

Behaviour of the code worth noting:

- A column is dropped as the identifier only when its raw name is exactly
  `Patient_ID`. A header cell such as `" Patient_ID"` escapes the drop and is
  then stripped to `Patient_ID`, so the loaded table can contain that column
  (`IdColumnSurvivesOnlyByRenaming`, `PaddedIdColumnIsKept`).
- Ties in the ranking are not broken by column order. `sort_values` uses an
  unstable sort, so no contract here claims an order among equal scores.
- A marker with a NaN score is ranked after every marker with a score, as
  `sort_values` places NaN last.

## Model

| member | source | states |
|---|---|---|
| `ColumnNames.TrimStart` | app.py:16 | the result is what is left of the name after a run of leading whitespace, and it does not start with whitespace |
| `ColumnNames.TrimEnd` | app.py:16 | the result is what is left of the name before a run of trailing whitespace, and it does not end with whitespace |
| `ColumnNames.Strip` | app.py:16 | `str.strip()`: its properties are stated by `TrimStart`, `TrimEnd` and `StripIsTrimmed` |
| `ColumnNames.ReplaceChar` | app.py:17-18 | `str.replace` of one character: its effect on a name is stated by `ReplaceAbsent` and `NormalizeIsNormalized` |
| `ColumnNames.Normalize` | app.py:16-18 | the standardised name: stated by `NormalizeIsNormalized`, `NormalizeFixedPoints` and `NormalizeIdempotent` |
| `ColumnNames.ReplaceAbsent` | app.py:17-18 | replacing a character that does not occur leaves the name unchanged |
| `ColumnNames.StripIsTrimmed` | app.py:16 | a stripped name neither starts nor ends with whitespace |
| `ColumnNames.NormalizeIsNormalized` | app.py:16-18 | a standardised name contains no space and no hyphen and has no leading or trailing whitespace |
| `ColumnNames.NormalizeFixedPoints` | app.py:16-18 | standardisation leaves a name unchanged exactly when the name is already standardised |
| `ColumnNames.NormalizeIdempotent` | app.py:16-18 | standardising twice gives the same name as standardising once |
| `Loader.DropColumn` | app.py:12-13 | the result holds, in their original order, exactly the columns whose name is not the dropped one, each with its cells in every row; its names are exactly the old names other than the dropped one |
| `Loader.DuplicatedMask` | app.py:21 | entry i is true exactly when name i already occurs earlier in the header |
| `Loader.Renamed` | app.py:12-18 | the table after the drop and the renaming: stated by `RenamedHeader` and `LoadedColumnOrigin` |
| `Loader.Loaded` | app.py:8-23 | the loaded table: its contents are stated by `LoadedHeader`, `LoadedKeepsFirstOccurrences`, `LoadedColumnOrigin` and `IdColumnSurvivesOnlyByRenaming` |
| `Loader.LoadData` | app.py:8-23 | the step-by-step load (drop, strip, two replaces, de-duplication) gives exactly the loaded table `Loaded(raw)` |
| `Loader.LoadedHeader` | app.py:16-21 | the loaded header has pairwise distinct names, each standardised |
| `Loader.LoadedKeepsFirstOccurrences` | app.py:21 | the loaded columns are, in original order, exactly the first column of each standardised name, with that column's cells; every standardised name is still present |
| `Loader.FirstOccurrencesCover` | app.py:21 | keeping the first occurrence of each name loses no name and adds none |
| `Loader.FirstOccurrencesDistinct` | app.py:21 | keeping the first occurrence of each name leaves no name twice |
| `Loader.LoadedColumnOrigin` | app.py:8-23 | every loaded column is the first raw column other than `Patient_ID` whose name standardises to the loaded name, with that raw column's cell in every row |
| `Loader.RenamedHeader` | app.py:12-18 | a name is in the renamed header exactly when it is the standardised form of some raw name other than `Patient_ID` |
| `Loader.IdColumnSurvivesOnlyByRenaming` | app.py:12-18 | the loaded table has a `Patient_ID` column exactly when some raw name other than `Patient_ID` standardises to it |
| `MarkerSelection.NUnique` | app.py:35 | `nunique()`, the number of distinct non-missing values; used by `MarkerIff` |
| `MarkerSelection.BinaryCols` | app.py:35 | the columns with two distinct values: stated by `MarkerIff` |
| `MarkerSelection.RemoveCols` | app.py:38-40 | `Diagnosis`, plus `Gender` when present: stated by `MarkerIff` |
| `MarkerSelection.Markers` | app.py:35-42 | the marker list: stated by `MarkerIff`, `MarkersAreColumns` and `MarkersInColumnOrder` |
| `MarkerSelection.MarkerIff` | app.py:35-42 | a column is a marker exactly when it has two distinct non-missing values and is neither `Diagnosis` nor `Gender` |
| `MarkerSelection.MarkersAreColumns` | app.py:35-42 | every marker is a column of the table |
| `MarkerSelection.MarkersInColumnOrder` | app.py:35-42 | the markers are distinct columns listed in the table's column order |
| `Aggregate.NotOther` | app.py:61 | the row mask, true where the label is not "Other" (a missing label passes): stated by `FilterRowsKeepsOrder` |
| `Aggregate.FilterRows` | app.py:59-61 | the filtered table keeps the header and one cell per column in every row |
| `Aggregate.FilterRowsKeepsOrder` | app.py:59-61 | with the flag set the table is unchanged; without it, the rows left are exactly the rows not labelled "Other", in original order |
| `Aggregate.LabelsAfterFilter` | app.py:59-68 | without the flag the diagnosis groups are the original ones minus "Other"; with it they are all the original ones |
| `Aggregate.SumCountsOnes` | app.py:68 | over a 0/1 column, a group's sum is its number of ones, which is at most its number of recorded values |
| `Aggregate.MeanIsPrevalence` | app.py:68 | for a 0/1 marker the group mean is the share of the group's recorded values that are 1, so it lies in [0, 1]; it is NaN when the group has no value |
| `Aggregate.GroupMean` | app.py:64-68 | the mean of a marker within a diagnosis: stated by `MeanIsPrevalence` |
| `Aggregate.Prevalence` | app.py:68 | the diagnosis × marker table of means: each cell's value is stated by `MeanIsPrevalence` (for a 0/1 marker, the share of recorded values that are 1), the table's shape by `PrevalenceShape`, an example by `TwoGroupsSamePrevalence` |
| `Aggregate.PrevalenceShape` | app.py:68 | the prevalence table has one row per diagnosis, one cell per listed marker, every 0/1 marker cell in [0, 1] |
| `Ranking.Insert` | app.py:64 | inserting adds exactly the new marker to the list's multiset |
| `Ranking.SortByScore` | app.py:64 | the sorted list is a permutation of the markers |
| `Ranking.InsertSorted` | app.py:64 | inserting into a list sorted by score keeps it sorted |
| `Ranking.InsertDistinct` | app.py:64 | inserting a new marker into a list of distinct markers keeps them distinct |
| `Ranking.SortByScoreSorted` | app.py:64 | the sorted list is a permutation of the markers in which no marker follows one it outranks (NaN last), and distinct markers stay distinct |
| `Ranking.CutOfSorted` | app.py:64-66 | in a sorted list nothing after the cut outranks anything before it |
| `Ranking.TopN` | app.py:64-66 | the first N markers in score order: stated by `TopNIsBest` |
| `Ranking.TopNIsBest` | app.py:64-66 | the top list has min(N, number of markers) entries taken from the markers, distinct when they are, in non-increasing score order, and no marker left out outranks one kept |
| `Dashboard.Render` | app.py:29-68 | one render: its halts are stated by `RenderHalts` and `HaltsPrecedeControls`, its output by `RenderRanking` and `RenderHeatmap` |
| `Dashboard.Plot` | app.py:59-72 | the render from the filter on: stated by `PlotRanking` and `PlotHeatmap` |
| `Dashboard.RenderHalts` | app.py:29-46 | a render stops for the missing label exactly when the loaded table has no `Diagnosis`, and for want of markers exactly when it has one but no marker |
| `Dashboard.HaltsPrecedeControls` | app.py:29-53 | either halt gives the same result whatever the checkbox, the slider and the scores |
| `Dashboard.RenderRanking` | app.py:53-72 | a successful render shows between 1 and N distinct markers, best first, none left out outranking one shown, each paired with its score |
| `Dashboard.PlotRanking` | app.py:59-72 | from the filter on, with at least one marker and distinct column names, the shown list is the best min(N, number of markers) distinct markers in score order, each paired with its score |
| `Dashboard.PlotHeatmap` | app.py:59-68 | from the filter on, the heatmap has one row per remaining diagnosis and one cell per top marker; each cell is that marker's mean within that diagnosis over the filtered rows (its prevalence, by `Aggregate.MeanIsPrevalence`), and each 0/1 marker cell is in [0, 1] |
| `Dashboard.RenderHeatmap` | app.py:59-68 | a successful render's heatmap has one row per diagnosis left after the filter ("Other" only when included) and one cell per top marker; each cell is that marker's mean within that diagnosis over the filtered rows (its prevalence, by `Aggregate.MeanIsPrevalence`), and each 0/1 marker cell is in [0, 1] |
| `Dashboard.FilterKeepsZeroOne` | app.py:59-61 | dropping rows keeps a 0/1 column 0/1 |
| `Scenarios.PaddedIdNormalizes` | app.py:16-18 | `" Patient_ID"` standardises to `Patient_ID` |
| `Scenarios.PaddedIdColumnIsKept` | app.py:12-18 | a table with header `" Patient_ID"` loads with a `Patient_ID` column |
| `Scenarios.TwoGroupsSamePrevalence` | app.py:59-68 | labels A, A, B, B, Other with marker values 1, 0, 1, 0, 1 give, without "Other", prevalence 0.5 in both groups |

## Left out

- Streamlit: the title, the sidebar widgets, the expander, the caption and
  `st.stop` as control flow (app.py:27-55, 71-72, 89-92). Only the values they
  supply are modelled: the checkbox, the slider value in 5..20 and the halts.
  The "Show values" checkbox only affects drawing and is not modelled.
- `@st.cache_data` (app.py:7): framework memoisation, not logic.
- `pd.read_csv` (app.py:9): the model starts from the parsed table. Its type
  inference is not modelled: booleans are taken as the numbers 1 and 0, and the
  renaming of repeated header cells ("a", "a.1") is not applied, so the model
  accepts any header.
- The variability score `.std()` (app.py:64): floating point with a square
  root, NaN for a single group. The score is an input map, and the model does
  not tie it to the prevalence table.
- The heatmap drawing with matplotlib and seaborn (app.py:75-86).
- The order of the heatmap rows: `groupby` sorts the diagnosis keys; the model
  keys the table by diagnosis in a `map`, so the row order is not modelled.
- `df[c]` looks a column up by name; the model reads the column at the same
  position, which is the same column because the loaded header has distinct
  names (`Loader.LoadedHeader`).
- Dashboard.Render: the aggregation error is modelled as a text cell in a
  marker column in a labelled row; pandas decides it from the column's dtype
  and from the group values, which the model does not represent.
- Dashboard.Plot: assumes pandas 2 or later, where `groupby(...).mean()`
  raises a TypeError on a text column. With pandas 1.x the default
  `numeric_only` drops such a column with a warning and the render goes on;
  no pandas version is pinned for app.py, and that behaviour is not modelled.
- Ranking.TopNIsBest: states no order among markers with equal scores,
  because the source's sort is unstable.
