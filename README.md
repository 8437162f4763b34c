# Indian bank branch analytics, modelled in Dafny

This project models the data core of a small bank-branch analytics
dashboard, written in Python with pandas. It covers two parts.

- **`BankDataLoader`** (`data/data_loader.py`) cleans a freshly read branch
  table (`_clean_dataframe`) in four steps:
  - it standardises the column labels and renames three of them;
  - it coerces the coordinates to numbers and keeps only the rows inside
    India's bounding box;
  - it derives a six-digit pincode from the address when no pincode column
    exists (`_extract_pincode`);
  - it normalises the State and City text.

  It also filters the table by state, city and bank (`filter_data`).
- **The dashboard** (`dashboard/app.py`) computes these market figures:
  - the branch density of a state (branches per 1000 km²);
  - the underserved (State, City) groups;
  - the Herfindahl-Hirschman index (HHI) of a state, and the "Market Type"
    band derived from it;
  - the expansion-opportunity score of every state;
  - the state-by-bank competition matrix.

The files are:

- `cells.dfy`: one pandas cell, which is either NaN (`Missing`), Python's
  None (`Null`), text or a number. It also gives `astype(str)`,
  `to_numeric(errors='coerce')` and elementwise `==`.
- `pystr.dfy`: `str.strip`, `str.title`, `replace('_', ' ')` and the
  character classes of the pincode regular expression.
- `pincode.dfy`: `_extract_pincode` as a leftmost search for the pattern
  `\b\d{6}\b`.
- `data_loader.dfy`: the cleaning and the filter.
  - The table is a list of labels plus rows of cells.
  - `CleanTable` is the pure specification of `_clean_dataframe`.
  - `Frame.Clean` performs the cleaning step by step on a frame object and
    is proved equal to `CleanTable`. The frame stands for the table that
    `_clean_dataframe` returns. The source relabels and coerces the caller's
    own frame in place (lines 44, 55, 59-60), but the row filter of lines
    63-70 binds `df` to a new frame, so the later steps act on that new frame.
- `analytics.dfy`: the dashboard computations over rows of (State, City,
  Bank). Two loops become methods:
  - the opportunity-scoring loop (`ExpansionScores`);
  - the competition-matrix loop (`CompetitionMatrix`).

  Each method is proved equal to a specification function.
- `seqs.dfy` and `wrappers.dfy`: generic sequence helpers, plus `Option` and
  `Result`.

pandas semantics that the model follows:

- `groupby`, `value_counts` and `nunique` leave out missing keys.
- `unique()` keeps missing keys.
- `column == key` is false whenever the key is missing.
- When a label the loader must read (Latitude and Longitude together,
  Address, State, City) names more than one column, pandas raises. The model
  returns `Err(AmbiguousColumn(label))` instead.

Two conversions belong to Python rather than to this repository, so the
model takes them as parameters (`Conversions`):

- how `to_numeric` parses a string;
- how `str` prints a float.

## Model

| member | source | states |
|---|---|---|
| Cells.Stringify | data/data_loader.py:79 | `astype(str)` writes NaN as "nan", None as "None" and leaves text unchanged |
| Cells.ToNumeric | data/data_loader.py:59-60 | coercion leaves numbers unchanged, turns missing cells into NaN, and always yields a number or NaN |
| PyStr.StripLeft | data/data_loader.py:44 | the result is a suffix of the input that starts with a non-space, and everything dropped is whitespace |
| PyStr.StripRight | data/data_loader.py:44 | the result is a prefix of the input that ends with a non-space, and everything dropped is whitespace |
| PyStr.Strip | data/data_loader.py:44 | the result is no longer than the input and has no whitespace at either end |
| PyStr.StripSlice | data/data_loader.py:44 | `strip` returns the slice of its input that remains after the whitespace at both ends is dropped: everything before and after the slice is whitespace |
| PyStr.StripFixes | data/data_loader.py:44 | `strip` leaves a string unchanged exactly when the string has no whitespace at either end |
| PyStr.Title | data/data_loader.py:44 | title-casing keeps the length (its idempotence is `TitleIdempotent`) |
| PyStr.Underscores | data/data_loader.py:44 | replacing `_` by a space keeps the length and leaves no `_` |
| PyStr.StripIdempotent | data/data_loader.py:79 | stripping twice gives the same result as stripping once |
| PyStr.TitleIdempotent | data/data_loader.py:79 | title-casing twice gives the same result as title-casing once |
| PyStr.StripTitle | data/data_loader.py:79 | `strip` and `title` commute |
| PyStr.TitleStripIdempotent | data/data_loader.py:79 | the state/city text transform is idempotent on strings |
| PyStr.TitleIsNan | data/data_loader.py:79-81 | `title()` yields "Nan" exactly for the three-letter strings that spell "nan" in any letter case |
| PyStr.StripPadded | data/data_loader.py:44 | `strip` removes one space on each side of a non-empty stripped string and gives that string back |
| PyStr.TitlePadded | data/data_loader.py:44 | title-casing a string framed by spaces title-cases the inner string and keeps the spaces |
| Pincode.SearchFrom | data/data_loader.py:92 | `re.search` returns the leftmost position at or after the start where `\b\d{6}\b` matches; there is no such position when it returns None |
| Pincode.ExtractPincode | data/data_loader.py:86-93 | a missing address gives None; otherwise the result is the six digits of the leftmost match, or None exactly when nothing matches |
| Pincode.PincodeCell | data/data_loader.py:74 | each derived pincode cell holds either text or None |
| Pincode.WordBoundaryNeeded | data/data_loader.py:92 | six digits followed by a letter or preceded by a digit do not match; a code after a comma and a space does |
| DataLoader.Resolve | data/data_loader.py:54-60 | a label is absent exactly when no column has it and ambiguous exactly when two or more do; otherwise it resolves to its column |
| DataLoader.StandardName | data/data_loader.py:44-55 | no label is left under a name the rename table renames ("Bank Name", "Branch Name", "Location Type") |
| DataLoader.StandardColumns | data/data_loader.py:44-55 | label standardisation followed by the rename loop keeps one label per column and maps each label independently through strip, `_`-to-space, title and the rename table |
| DataLoader.RenameCases | data/data_loader.py:47-55 | the rename loop maps "Bank Name", "Branch Name" and "Location Type" to "Bank", "Branch" and "Type" and leaves every other label alone |
| DataLoader.RenameFixesTargets | data/data_loader.py:47-55 | the renamed labels are not renamed again |
| DataLoader.RenamedFixed | data/data_loader.py:44-55 | a label the rename loop changes had no edge whitespace, and its new name passes through standardisation unchanged |
| DataLoader.StandardNameIdempotent | data/data_loader.py:44-55 | standardising a label twice gives the same result as once, if and only if the label has no whitespace at either end after `_` becomes a space |
| DataLoader.PaddedTwice | data/data_loader.py:44-55 | a label whose underscores become edge spaces changes again on a second pass |
| DataLoader.UnderscorePaddedLabel | data/data_loader.py:44-55 | "_bank_name_" becomes " Bank Name ", which escapes the rename; a second pass turns it into "Bank" |
| DataLoader.Geofence | data/data_loader.py:58-70 | the coordinate step fails exactly when both coordinate labels exist and one of them names several columns, and the error names such a label; on success it keeps the labels and never adds a row (the coordinate cells are coerced, as `GeofenceKeepsExactly` states) |
| DataLoader.GeofenceKeepsExactly | data/data_loader.py:58-70 | the geofence keeps exactly the coerced rows whose coordinates are numeric and inside lat 6-37, lng 68-97, bounds included. It keeps every copy of each such row, in the original order, and coercion touches only the two coordinate cells |
| DataLoader.GeofenceEstablishes | data/data_loader.py:58-70 | after the geofence, every row has in-box numeric coordinates |
| DataLoader.GeofenceIdempotent | data/data_loader.py:58-70 | a second geofence changes nothing |
| DataLoader.DerivePincode | data/data_loader.py:73-74 | the pincode step fails exactly when there is no Pincode column and Address names several columns, with an Address error; on success it keeps every row |
| DataLoader.DerivePincodeSpec | data/data_loader.py:73-74 | an existing Pincode column, or a missing Address column, leaves the table untouched. Otherwise the code of each row's address is appended as a new last column and every other cell is kept |
| DataLoader.DerivePincodePreserves | data/data_loader.py:73-74 | deriving pincodes keeps the coordinate guarantee |
| DataLoader.NormaliseCell | data/data_loader.py:79-81 | a normalised State/City cell is always text or None |
| DataLoader.NormaliseCellText | data/data_loader.py:79-81 | a normalised text cell is stripped and title-cased, and is never "Nan" |
| DataLoader.NormaliseCellNull | data/data_loader.py:79-81 | a cell becomes None exactly when its stripped text spells "nan" in any letter case (NaN, "nan", " NAN " and so on) |
| DataLoader.NormaliseMissingAndNone | data/data_loader.py:79-81 | NaN becomes None, but None becomes the text "None" |
| DataLoader.NormaliseCellIdempotent | data/data_loader.py:79-81 | normalising a text result again changes nothing |
| DataLoader.NormaliseColumn | data/data_loader.py:78-81 | normalising one column fails exactly when its label names several columns, with that label as the error; otherwise it keeps the labels, every row and every row's length, each cell of that column becomes `NormaliseCell` of the old cell, and every other cell is unchanged |
| DataLoader.NormaliseColumns | data/data_loader.py:77-81 | the State/City loop keeps the labels and every row, and fails only on one of its labels that names several columns; when no label is listed twice, exactly the cells of the listed columns become `NormaliseCell` of the old cells and all others are unchanged |
| DataLoader.TextColumnsNormalised | data/data_loader.py:77-81 | after the State/City loop on a rectangular table, every State and City cell is None or a stripped, title-cased text other than "Nan" |
| DataLoader.CleanTextColumns | data/data_loader.py:41-83 | every State and City cell of the clean table is None or a stripped, title-cased text other than "Nan", whatever the raw table held |
| DataLoader.NormaliseColumnsPreserve | data/data_loader.py:76-81 | the State/City pass keeps the labels, the row count and the coordinate guarantee |
| DataLoader.CleanTable | data/data_loader.py:41-83 | the clean table has the standardised labels, with "Pincode" appended when it is derived, and no more rows than the input; cleaning fails only on a label that names several standardised columns |
| DataLoader.StepsKeepBox | data/data_loader.py:72-81 | the pincode and State/City steps keep the coordinate guarantee the geofence establishes |
| DataLoader.CleanKeepsCoordinatesInBox | data/data_loader.py:41-83 | when both coordinate labels survive standardisation, every row of the clean table has in-box numeric coordinates |
| DataLoader.CleanKeepsRowsWithoutCoordinates | data/data_loader.py:41-83 | without both coordinate labels, cleaning drops no row |
| DataLoader.StateOnlyClean | data/data_loader.py:41-83 | on a table with just a State column, cleaning only normalises that column |
| DataLoader.CleanTwiceDiffers | data/data_loader.py:76-81 | cleaning is not idempotent: a NaN state becomes None, and a second clean turns None into the text "None" |
| DataLoader.Frame.Clean | data/data_loader.py:41-83 | the step-by-step cleaning leaves the frame equal to `CleanTable` of its old value, the table `_clean_dataframe` returns, or reports the same ambiguous-label error |
| DataLoader.Frame.Standardise | data/data_loader.py:44-55 | the in-place label pass and rename loop leave the rows alone and set the labels to the standardised labels of the old ones |
| DataLoader.Frame.Fence | data/data_loader.py:58-70 | the in-place coordinate step leaves the frame equal to the geofenced table, or reports the ambiguous coordinate label |
| DataLoader.Frame.AddPincodes | data/data_loader.py:73-74 | the in-place pincode step leaves the frame equal to the table with derived pincodes, or reports an ambiguous Address label |
| DataLoader.Frame.NormaliseText | data/data_loader.py:77-81 | the in-place State/City loop leaves the frame equal to the normalised table, or reports the first ambiguous label |
| DataLoader.FilterData | data/data_loader.py:138-154 | filtering keeps the columns |
| DataLoader.FilterDataRows | data/data_loader.py:143-154 | the three successive filters equal one filter by the conjunction of the given criteria |
| DataLoader.FilterIfRows | data/data_loader.py:145-152 | one guarded filter keeps the columns and keeps exactly the rows equal to the value when the filter is given and its column exists; otherwise it keeps every row |
| DataLoader.FilterDataSpec | data/data_loader.py:138-154 | the result keeps exactly the rows that match every non-empty filter whose column exists, with every copy of each, in order. With no filter given, the result is the input |
| Analytics.Present | dashboard/app.py:99 | the non-missing cells, each with its full multiplicity |
| Analytics.NUnique | dashboard/app.py:442-443 | `nunique` is at most the number of values that are not missing |
| Analytics.NUniqueZero | dashboard/app.py:442-443 | `nunique` is 0 exactly when every value is missing |
| Analytics.Where | dashboard/app.py:87 | `df[df[col] == key]` keeps only rows of the original whose cell equals the key, and no more rows than the original |
| Analytics.WhereExactly | dashboard/app.py:87 | `df[df[col] == key]` keeps every copy of each row whose cell equals the key and no copy of any other row |
| Analytics.InStateMissing | dashboard/app.py:87 | a missing state matches no row |
| Analytics.WhereCount | dashboard/app.py:87 | for a key that is not missing, the number of matching rows equals the key's count in the column |
| Analytics.SelectBanks | dashboard/app.py:140 | `isin(selected_banks)` keeps only rows of the original whose bank is selected |
| Analytics.SelectBanksExactly | dashboard/app.py:140 | `isin(selected_banks)` keeps every copy of each row whose bank is selected and no copy of any other row |
| Analytics.Area | dashboard/app.py:78-86 | a listed state gets its tabled area; any other key, missing ones included, gets 100000; every area is positive |
| Analytics.PerThousand | dashboard/app.py:88 | `count / (area / 1000)` equals 1000·count/area, is non-negative, and is 0 exactly when the count is 0 |
| Analytics.BranchDensity | dashboard/app.py:75-88 | the density is 1000 times the state's branch count divided by its area; it is non-negative and 0 exactly when the state has no branch |
| Analytics.DensityAdditive | dashboard/app.py:75-88 | the density of two tables joined is the sum of their densities |
| Analytics.DensityOfMissingState | dashboard/app.py:86-88 | a missing state has density 0 |
| Analytics.Insert | dashboard/app.py:94 | inserting into a count-sorted list keeps it sorted and adds exactly one element |
| Analytics.SortByCount | dashboard/app.py:94 | `sort_values('Branch_Count')` yields a count-sorted permutation of its input |
| Analytics.GroupSizes | dashboard/app.py:92 | every group has a present State and City and at least one row |
| Analytics.Underserved | dashboard/app.py:90-94 | the result is sorted by count, and each reported group is a group of the table with fewer than `threshold` branches |
| Analytics.GroupSizesSpec | dashboard/app.py:92 | `groupby(['State','City']).size()` lists each occurring present key once, with its number of rows (at least 1), and nothing else |
| Analytics.UnderservedSpec | dashboard/app.py:90-94 | the result is sorted by count and holds exactly the groups with fewer than `threshold` branches, each once, each with a present State and City |
| Analytics.SharesSumToOne | dashboard/app.py:99 | the normalised `value_counts` shares of a state's banks sum to 1 |
| Analytics.BankCountsSpec | dashboard/app.py:99 | the per-bank counts are positive and add up to the state's number of rows with a bank |
| Analytics.Hhi | dashboard/app.py:96-101 | the index lies in [0, 10000] |
| Analytics.HhiIntegerForm | dashboard/app.py:96-101 | the index equals 10000·Σcount² / n², with n the state's number of rows with a bank |
| Analytics.CountsIndexBounds | dashboard/app.py:100 | for positive counts the index lies in (0, 10000] and equals 10000 exactly when there is one count |
| Analytics.MergeRaises | dashboard/app.py:96-101 | merging two banks with branches into one strictly raises the index over the same total, so merging two equal shares does |
| Analytics.HhiOfCounts | dashboard/app.py:96-101 | the state's rows with a bank number the sum of its bank counts, and with any bank the index is the counts' index over that sum |
| Analytics.MergeRaisesHhi | dashboard/app.py:96-101 | of two tables whose bank counts in a state differ only by two banks merged into one, the merged one has the strictly higher index |
| Analytics.FiveToThree | dashboard/app.py:96-101 | a state whose two banks have five and three branches has index 5312.5 |
| Analytics.HhiBounds | dashboard/app.py:96-101 | the index is 0 when no bank is present, otherwise in (0, 10000], and equals 10000 if and only if a single bank is present |
| Analytics.HhiOfNoRows | dashboard/app.py:98-101 | a state without rows has index 0 |
| Analytics.Band | dashboard/app.py:386 | Competitive below 1500, Moderate from 1500 up to but not including 2500, Concentrated from 2500 on, each as an if-and-only-if |
| Analytics.BandMonotone | dashboard/app.py:386 | a higher index never gives a less concentrated band |
| Analytics.MonopolyConcentrated | dashboard/app.py:386 | a state served by a single bank is Concentrated |
| Analytics.Score | dashboard/app.py:447-466 | every opportunity score lies in [0, 100] and is a multiple of 5 |
| Analytics.ScoreOf | dashboard/app.py:447-466 | the step-by-step accumulation equals the sum of the four criteria's points |
| Analytics.StateOpportunity | dashboard/app.py:440-475 | one pass of the loop body yields the record of branch count, bank count, city count, index and score for that state |
| Analytics.OpportunityOf | dashboard/app.py:440-475 | a record names its state and its branch count; its bank and city counts never exceed the branch count, its index lies in [0, 10000], and its score in [0, 100] is a multiple of 5 |
| Analytics.ScoreStates | dashboard/app.py:439-475 | the loop appends exactly one record per given state, in order |
| Analytics.ExpansionScores | dashboard/app.py:439-475 | the result is the records of the distinct State values, missing ones included, in order of first appearance |
| Analytics.ExpansionScoresCover | dashboard/app.py:439 | every distinct State value gets exactly one record, and no value gets two |
| Analytics.OpportunityCounts | dashboard/app.py:441-443 | a record's bank and city counts never exceed its branch count, and a present state that occurs has at least one branch |
| Analytics.MissingStateOpportunity | dashboard/app.py:439-466 | a missing State value still gets a record: no branches, banks or cities, index 0 and score 35 |
| Analytics.RowCounts | dashboard/app.py:322-324 | each per-bank count is the number of that bank's rows in the state |
| Analytics.StateRow | dashboard/app.py:319-326 | the inner loop produces the state, one count per selected bank (that bank's rows in the state, in order) and the state's row total |
| Analytics.CompetitionMatrix | dashboard/app.py:318-327 | the matrix has one row per top state, holding the state, the count of each selected bank in order, and the state's total |
| Analytics.MatrixTotals | dashboard/app.py:318-327 | on the selected banks' rows, a state's total equals the sum of its per-bank counts, provided no bank is selected twice and none is missing |

## Left out

- DataLoader.CleanTextColumns: stated for a rectangular raw table, one cell per label in every row. Every pandas frame is rectangular; the model's list of rows need not be, and a short row has no State or City cell to normalise.
- Reading CSV files (`load_combined_data`, `load_individual_bank`) and the
  statistics and distribution helpers built on them. These are file I/O and
  not part of the modelled core.
- The Streamlit page, the charts and the map. Only the computations behind
  them are modelled.
- Rounding to two decimals (`round(..., 2)`) in the density and the index.
  `BranchDensity` and `Hhi` are the exact values before rounding, and `Band`
  and the index criterion of `Score` are applied to those exact values. The
  source compares the rounded value, and the two differ only within 0.005 of
  a threshold.
- Floating-point arithmetic. Shares, index and density are exact reals.
- How `to_numeric` parses a string and how `str` prints a float. Both are
  parameters (`Conversions`), because they belong to Python, not to this
  repository.
- Unicode. `title`, `\d` and `\w` are modelled over ASCII letters and digits.
  `strip` uses Python's full whitespace set.
- `top_states` (`value_counts().head(10).index`) and `selected_banks` (the
  sidebar selection) are parameters of `CompetitionMatrix`, because they come
  from the UI and from an ordering whose tie order pandas does not fix.
- Analytics.SortByCount: ties keep their input order (a stable sort).
  pandas' default quicksort leaves the order of equal counts unspecified, so
  only sortedness and the permutation are claimed as the source's promise.
- Analytics.GroupSizes lists groups in order of first appearance, while
  `groupby` sorts its keys. The order is not observable after
  `sort_values`, except among ties.
- Analytics.CompetitionMatrix stores the per-bank counts as a list aligned
  with `selected`. The source uses a dict, so a bank literally named "State"
  or "Total" would overwrite a field; that collision is not modelled.
- DataLoader.FilterData requires that an active filter's label names at most
  one column. With a duplicated label, pandas indexes with a boolean frame
  (`DataFrame.where`) instead of filtering rows; that case is not modelled.
- A duplicated label that the loader must read raises an exception in
  pandas. The model returns `AmbiguousColumn` instead, and does not
  reproduce pandas' exact exception.
- DataLoader.Frame.Clean models the frame that `_clean_dataframe` returns,
  not the caller's frame. When the geofence runs, the caller's frame keeps
  the standardised labels and the coerced coordinates but is not filtered
  and gets no Pincode column or State/City normalisation; that side effect
  is not modelled.
- The dashboard computations assume the State, City and Bank columns exist:
  a `Branch` row always holds the three cells. When one is missing the
  source raises `KeyError`: for State at dashboard/app.py:87 and 98, for City
  at 92, 154 and 443, for Bank at 99 and 127. That error is not modelled.
- `Frame.Clean` stops at the first such error, with the frame part-way
  cleaned, as the source's exception does. Its contract does not describe
  that part-way state.
