# EV charging report: per-state aggregation and choropleth classification

This project models the two batch scripts of the EV charging report in Dafny.

- **Stage A, `extract_chargers_by_state.py`.** It reads a row-per-station table of public EV chargers and keeps five columns. It maps each two-letter state code to a full state name through the fixed 51-entry table `us_state_to_full`. It tries to count the chargers mentioned in the free-text notes (`extract_numbers`; as written, line 75 counts none, see below), fills missing cells with 0, and adds up a per-station total. It then groups by state name into a two-column summary, `State` and `Total EVSEs`.
- **Stage B, `Map_EVSE_100miles.py`.** It left-joins a table of state boundaries with a per-state density table. It colours each state with one of five fixed colours (`get_color`). It moves Alaska and Hawaii for display and labels each state that has an entry in `state_abbreviations`.

The scripts change their DataFrames in place, so each DataFrame is a class whose fields are its columns: `StationAggregation.StationFrame` for `db` and `ChoroplethMap.MergedFrame` for `merged`. Each script step is a method that reassigns the columns it writes and states what every other column keeps. Pure functions specify what the steps compute. The lemmas about those functions carry the properties. One method per script runs the steps in the script's order. `ExtractChargersByState` is proved equal to the pure function `Summarize`. `DrawChoropleth` is proved against a row-by-row specification: each state's name, its colour from the joined density, its drawn polygon, and the labels.

Modules:
- `DigitRuns` (digit_runs.dfy) is the `\d+` digit-run sum: `re.findall(r'\d+', s)` followed by `sum(int(...))`.
- `StationAggregation` (station_aggregation.dfy) is stage A.
- `ChoroplethMap` (choropleth_map.dfy) is stage B.
- `StateTables` (state_tables.dfy) relates the two scripts' state tables.
- `Wrappers` (wrappers.dfy) holds `Option`, which stands for pandas' missing values.

Two behaviours of the code are modelled as written:
- The comment at extract_chargers_by_state.py:70 says the notes are meant to be counted, but `extract_numbers` (line 75) runs its regular expression over the literal string `'text'`, not over its argument. It therefore always returns 0 (`ExtractNumbers`). `ExtractNumbers` does call `DigitRuns.DigitRunSum`, but only on the constant `"text"`; the aggregation never applies it to the notes. So two Californian stations with counts 2, 3, 1 and notes "5 units" give California 6 (`CaliforniaExample`).
- `fillna(0)` (line 82) runs after the state names are mapped (line 68). A station with a missing or unknown code is therefore grouped under the key `0` and not dropped (`UnmappedStationCountedUnderZero`).

The map script reads the column `EVSEs/100 miles`, while the aggregator writes `Total EVSEs`. The classifier is therefore modelled over an abstract `Option<real>` density, and the two stages are not wired together. Only their state tables are related, in `StateTables`.

## Model

| member | source | states |
|---|---|---|
| DigitRuns.FindDigitRuns | extract_chargers_by_state.py:75 | `re.findall(r'\d+', s)`: every match is a non-empty run of digits |
| DigitRuns.NoDigitsNoRuns | extract_chargers_by_state.py:75-76 | a string with no digit has no match, and its digit-run sum is 0 |
| DigitRuns.AllDigitsOneRun | extract_chargers_by_state.py:75-76 | a non-empty all-digit string is a single match, and its sum is the decimal number it spells |
| DigitRuns.RunsSplitAtNonDigit | extract_chargers_by_state.py:75 | the matches of `s + [c] + t`, for a non-digit `c`, are the matches of `s` followed by those of `t` |
| DigitRuns.DigitRunSumAdditive | extract_chargers_by_state.py:75-76 | the digit-run sum is additive across a non-digit separator |
| DigitRuns.RunsCoverAllDigits | extract_chargers_by_state.py:75 | the matches put back together are exactly the digits of the string, in order |
| StationAggregation.StateFullName | extract_chargers_by_state.py:13-65 | lookup in `us_state_to_full`; every key is a two-letter code |
| StationAggregation.MapState | extract_chargers_by_state.py:68 | `Series.map(us_state_to_full)` on one cell: a known code gives its full name; any other cell gives NaN, never a number |
| DigitRuns.DecimalValue | extract_chargers_by_state.py:76 | `int(num)` for a run of decimal digits; `AllDigitsOneRun` ties it to the digit-run sum |
| DigitRuns.DigitRunSum | extract_chargers_by_state.py:75-76 | `sum(int(num) for num in re.findall(r'\d+', s))`; its properties are `NoDigitsNoRuns`, `AllDigitsOneRun` and `DigitRunSumAdditive` |
| StationAggregation.ExtractNumbers | extract_chargers_by_state.py:72-76 | as written, `extract_numbers` is 0 for a missing cell and for every other cell, because it scans the digit-free constant `'text'` |
| StationAggregation.FillCell | extract_chargers_by_state.py:82 | `fillna(0)` on an object cell: a missing cell becomes the number 0, and present cells are unchanged |
| StationAggregation.FillCount | extract_chargers_by_state.py:82 | `fillna(0)` on a numeric cell: a missing count becomes 0, and present counts are unchanged |
| StationAggregation.GroupKey | extract_chargers_by_state.py:68-82 | the key a station is grouped under, its mapped name filled with 0: always a state name or the number 0 |
| StationAggregation.StationTotal | extract_chargers_by_state.py:83-88 | a station's total is L1 + L2 + DC with each missing count as 0 (the notes add nothing); a station with every count missing contributes 0 |
| StationAggregation.StationTotalNonNegative | extract_chargers_by_state.py:83-88 | a station's total is non-negative when its counts are |
| StationAggregation.GroupKeyOfUnmappedIsZero | extract_chargers_by_state.py:68-82 | a station is keyed by the number 0 exactly when its code is missing or not in the table; otherwise it is keyed by the code's full name |
| StationAggregation.GroupSum | extract_chargers_by_state.py:91 | group-by sum: its keys are exactly the keys that occur, and each key's total is the sum of the totals of the rows with that key |
| StationAggregation.GroupSumNonNegative | extract_chargers_by_state.py:91 | every group total is non-negative when every row total is |
| StationAggregation.GroupSumPreservesTotal | extract_chargers_by_state.py:91 | the group totals add up to the sum of all row totals |
| StationAggregation.Summarize | extract_chargers_by_state.py:91-93 | the summary's columns are exactly `State` and `Total EVSEs` |
| StationAggregation.SummaryRowsPerKey | extract_chargers_by_state.py:91 | the summary has one row per distinct station key, holding the sum of that key's station totals |
| StationAggregation.SummaryKeysAreNamesOrZero | extract_chargers_by_state.py:68-91 | every summary key is the full name of some code, or 0 |
| StationAggregation.UnmappedStationCountedUnderZero | extract_chargers_by_state.py:68-91 | a station with a missing or unknown code makes the key 0 appear in the summary; it is not dropped |
| StationAggregation.SummaryTotals | extract_chargers_by_state.py:83-91 | the summary totals add up to the sum of all station totals and are non-negative when no count is negative |
| StationAggregation.CaliforniaExample | extract_chargers_by_state.py:68-91 | two CA stations with counts (2, 3, 1) and (0, 0, 0) plus notes "5 units" give California 6 |
| StationAggregation.StationFrame.constructor | extract_chargers_by_state.py:9 | the five selected columns hold the input stations' fields, and no derived column exists yet |
| StationAggregation.StationFrame.MapStateNames | extract_chargers_by_state.py:68 | `State Full` becomes the mapped state of each row; every other column is unchanged |
| StationAggregation.StationFrame.CountOtherInfo | extract_chargers_by_state.py:79 | `EV Other Info Count` becomes `extract_numbers` of each row's notes; every other column is unchanged |
| StationAggregation.StationFrame.FillMissingWithZero | extract_chargers_by_state.py:82 | every missing cell of the five selected columns and of `State Full` becomes 0, and present cells keep their values; `EV Other Info Count` and `Total EVSEs` are unchanged |
| StationAggregation.StationFrame.ComputeTotals | extract_chargers_by_state.py:83-88 | the integer cast succeeds exactly when no count is missing; then `Total EVSEs` is the four-term sum per row, otherwise nothing changes |
| StationAggregation.StationFrame.GroupByState | extract_chargers_by_state.py:91-93 | called, as in the script, when no `State Full` cell is missing: a two-column summary whose keys are exactly the `State Full` values that occur, each holding the sum of `Total EVSEs` over its rows |
| StationAggregation.ExtractChargersByState | extract_chargers_by_state.py:9-93 | running the script's steps in order never fails the cast, and yields the summary of the input stations |
| ChoroplethMap.GetColor | Map_EVSE_100miles.py:19-29 | the colour is grey exactly for a missing value, and always one of the five colours |
| ChoroplethMap.GetColorIsBandColor | Map_EVSE_100miles.py:19-29 | `get_color` gives a class's colour exactly when the value lies in that class's band (< 1, [1, 5], (5, 10], > 10, missing) |
| ChoroplethMap.BandsPartition | Map_EVSE_100miles.py:19-29 | every value, and the missing value, lies in exactly one band |
| ChoroplethMap.ClassColorsDistinct | Map_EVSE_100miles.py:21-29 | the five classes have five different colours |
| ChoroplethMap.GetColorMonotone | Map_EVSE_100miles.py:22-29 | a larger value never gets a lower class |
| ChoroplethMap.GetColorBoundaries | Map_EVSE_100miles.py:20-27 | missing is grey, 1 and 5 are yellow, and 10 is light green |
| ChoroplethMap.JoinedDensity | Map_EVSE_100miles.py:16 | a name absent from the density table joins NaN; a name present in it joins the table's value |
| ChoroplethMap.LeftJoin | Map_EVSE_100miles.py:16 | one row per boundary record, in order, with its name, its polygon and the joined density |
| ChoroplethMap.JoinedColor | Map_EVSE_100miles.py:16-31 | an unmatched boundary state is grey; a matched one is coloured by its table value |
| ChoroplethMap.StateAbbreviation | Map_EVSE_100miles.py:49-62 | lookup in `state_abbreviations`; every abbreviation has two letters |
| ChoroplethMap.RowLabel | Map_EVSE_100miles.py:66-69 | a row gets a label exactly when its name is a key of the table: its abbreviation, at its centroid |
| ChoroplethMap.RowLabels | Map_EVSE_100miles.py:65-69 | the labels the loop emits, in row order: at most one per row; `RowLabelsCount`, `RowLabelsSound` and `RowLabelsComplete` pin it down |
| ChoroplethMap.RowLabelsCount | Map_EVSE_100miles.py:65-69 | the loop emits one label per row whose name has an abbreviation |
| ChoroplethMap.RowLabelsSound | Map_EVSE_100miles.py:65-69 | every emitted label is the label of some row |
| ChoroplethMap.RowLabelsComplete | Map_EVSE_100miles.py:65-69 | every row whose name has an abbreviation has its label among the emitted ones |
| ChoroplethMap.DistrictOfColumbiaUnlabelled | Map_EVSE_100miles.py:49-69 | the District of Columbia gets no label |
| ChoroplethMap.DisplayGeometry | Map_EVSE_100miles.py:34-42 | the polygon a state is drawn with: Alaska and Hawaii get their own transforms, and every other state keeps its polygon |
| ChoroplethMap.IndexOfName | Map_EVSE_100miles.py:34 | the first row carrying a name, or none |
| ChoroplethMap.MergedFrame.Join | Map_EVSE_100miles.py:16 | `merged` holds the rows of the left join, and no colour column yet |
| ChoroplethMap.MergedFrame.ApplyColors | Map_EVSE_100miles.py:31 | the colour column is `get_color` of each row's density; names, polygons and densities are unchanged |
| ChoroplethMap.MergedFrame.Reposition | Map_EVSE_100miles.py:34-42 | the lookup succeeds exactly when one row carries the name; then only that row's polygon is replaced by its transform, and names, densities and colours are unchanged |
| ChoroplethMap.MergedFrame.PlaceLabels | Map_EVSE_100miles.py:65-69 | the loop over the rows emits exactly the row labels, in row order |
| ChoroplethMap.DrawChoropleth | Map_EVSE_100miles.py:16-69 | the script stops unless Alaska and Hawaii each occur once; otherwise every state keeps its place and its colour from the joined density, unaffected by the move, only Alaska and Hawaii are moved, and the labels are placed on the drawn polygons |
| StateTables.AbbreviationsInvertFullNames | Map_EVSE_100miles.py:49-62 | every entry of `state_abbreviations` maps back to its name in `us_state_to_full` |
| StateTables.FullNamesInvertAbbreviations | extract_chargers_by_state.py:13-65 | every code but DC is the abbreviation of its own full name |
| StateTables.DistrictOfColumbiaOnlyInFullNames | extract_chargers_by_state.py:64 | DC is in `us_state_to_full`, and its name has no abbreviation |
| StateTables.StateFullNameInjective | extract_chargers_by_state.py:13-65 | no two codes give the same full name |
| StateTables.LabelledExactlyMappedStates | Map_EVSE_100miles.py:49-66 | a name has an abbreviation exactly when it is the full name of some code other than DC |

## Left out

- File input and output (`read_csv`, `read_excel`, `gpd.read_file`, `to_excel`, `savefig`, `show`) and the `print` calls. The input tables are parameters, and the summary and the drawing data are results.
- Rendering: the font, figure, axes, title, subtitle, legend patches, caption and the `plot` call. Only the colour of each class is modelled, as `DensityClass.Color`, and the labels' text and position.
- Shapely geometry: `affinity.scale`, `affinity.translate` and `.centroid`. The two transforms and the centroid are function parameters of `DrawChoropleth`, and polygons are an opaque field.
- Pandas type details: the float-to-int truncation of `astype(int)` is not modelled (counts are integers), and neither is the order of the group-by output (the summary is a map). Only NaN in a count column is modelled as a cast failure.
- The group-by keys are `Cell` values (a name or the number 0), so the ordering `groupby` uses for keys of mixed type is not modelled. The 0 key is not dropped: after `fillna` there is no NaN key to drop.
- The density table is a map from state name to value. Duplicate `State` rows in the spreadsheet, which would duplicate joined rows, are not modelled. Nor are the spreadsheet's other columns that the join would carry along.
- Integer width: pandas' `astype(int)` and `sum()` work on 64-bit integers and can overflow. Dafny's `int` is unbounded, so overflow is not modelled.
- StationAggregation.StationFrame.GroupByState requires that no `State Full` cell is missing. pandas' `groupby` would drop NaN keys, but the script only calls it after `fillna`, when there are none.
- The regular-expression engine in general: only `\d+` over ASCII digits is modelled.
- The size of `us_state_to_full` (51 entries) is not stated as a lemma. The table is the 51 cases of `StateFullName`.
