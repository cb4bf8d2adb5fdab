# Project timeline derivation, modelled in Dafny

This project models the core of a project-timeline dashboard (`app.py`). The
dashboard reads one spreadsheet row per project. Each row has eight milestone
("TR") gates, TR1, TR2, TR3, TR3A, TR4, TR4A, TR5 and TR6. Each gate has a
nominal date column and a reschedule column ("…延期"). At start-up the program
derives, for every project, a padded time span, an ordered map `trs_delay` of
the present dates with their delays, and a vertical slot. It then derives one
global date range over all projects. Separately, column matching decides
whether the spreadsheet can be used or the built-in sample data is loaded. The
chart shows the projects whose names are selected.

Dates are day numbers. An absent date (pandas `NaT`) is `None`, and the clock
is a parameter `now`.

Modules, leaves first:

- `Wrappers` holds `Option`.
- `Schema` holds the milestones and the sixteen slots. It has the two slot
  orders: `tr_order` interleaves each nominal slot with its reschedule slot;
  `tr_keys` lists all nominal slots, then all reschedule slots.
- `OrderedMaps` models a Python `dict` with its insertion order.
- `Columns` holds `strip`/`lower`, `clean_col_map`, the project-column scan,
  the required-TR-column check and the fallback decision of `load_excel_data`.
- `Delays` holds the delay rule.
- `Span` holds the forward and reverse scans and the padded start and end.
- `Timeline` holds the loaded table, the per-row derivation loop (a method
  proved against the function `ProjectOf`) and the global range.
- `Selection` holds the project filter.

## Quirks of the code

- **Every stored delay is 0.** The comment on line 190 calls `delay_date` the
  reschedule time ("延期时间"), and the comment on line 194 says the delay is the
  difference when the reschedule time exists and is later. But line 190 reads
  `excel_data[f"{tr_key}"][i]`, the same key as `tr_date` on line 189, so the
  delay rule only ever compares a date with itself. The model keeps the general
  rule (`Delays.Delay`), calls it with the slot's own column as the loop does,
  and `Timeline.AllDelaysZero` proves that every stored delay is 0.
- **Reschedule slots are entries of their own.** `tr_keys` (lines 185-186)
  lists the eight nominal keys and also the eight "…延期" keys, so a present
  reschedule date becomes its own `trs_delay` entry
  (`Timeline.TrsDelayEntries`).
- **Spans may be inverted.** The start comes from the first present date in
  `tr_order` and the end from the last one, and nothing reorders them, so a
  row whose dates are out of order gets a start after its end
  (`Span.SpanMayInvert`).

## Model

| member | source | states |
|---|---|---|
| `Schema.TrOrderPositions` | app.py:150-152 | `tr_order` lists the sixteen slots, each nominal slot followed by its reschedule slot; slot `s` is at position `OrderIndex(s)` and nowhere else |
| `Schema.TrKeysPositions` | app.py:185-186 | `tr_keys` lists the eight nominal slots, then the eight reschedule slots; each slot is at `KeyIndex(s)` and nowhere else |
| `Schema.SlotOrdersComplete` | app.py:150-152 | both orders contain every slot and have no repeats |
| `Columns.Strip` | app.py:79 | `str.strip()`: drops whitespace (Python's `isspace` set) from both ends; `StripInfix` and `StripIdempotent` characterise it |
| `Columns.StripInfix` | app.py:79 | `strip()` returns an infix `s[i..j]` of the name: everything before `i` and from `j` on is whitespace, and a non-empty result neither starts nor ends with whitespace |
| `Columns.StripIdempotent` | app.py:79 | stripping a stripped name changes nothing |
| `Columns.Lower` | app.py:79 | lower-casing keeps the length, leaves no ASCII capital, keeps every other character and maps each capital to its small letter |
| `Columns.LowerIdempotent` | app.py:83 | lower-casing twice is lower-casing once |
| `Columns.Clean` | app.py:79 | the `strip().lower()` normal form under which column names are compared; its keys are the ones `CleanColMap` and the TR-column check use |
| `Columns.CleanColMap` | app.py:79 | the keys of `clean_col_map` are exactly the cleaned names of the columns; every value is one of the columns and cleans to its key |
| `Columns.CleanColMapLastWins` | app.py:79 | when several columns clean to one name, the last of them is kept |
| `Columns.RequiredTrColsAreSlotNames` | app.py:91-96 | `required_tr_cols` is the list of slot column names in `tr_order` order |
| `Columns.FindProjectColumn` | app.py:80-85 | no column is found exactly when no candidate's lower-case form is a key; otherwise the result is the column mapped by the first candidate that is a key |
| `Columns.MissingNames` | app.py:97-102 | the reference fold for `missing_tr_cols`: the required names whose cleaned form is not a key, in list order; `MissingNamesMembers` characterises it and `CheckTrColumns` is proved equal to it |
| `Columns.MatchedNames` | app.py:98-104 | the reference fold for `tr_col_map`: each required name whose cleaned form is a key, mapped to that key's column; `MatchedNamesMembers` characterises it and `CheckTrColumns` is proved equal to it |
| `Columns.CheckTrColumns` | app.py:97-104 | the loop builds `missing_tr_cols` as the fold `MissingNames` (the unmatched required names, in list order) and `tr_col_map` as the fold `MatchedNames` |
| `Columns.MissingNamesMembers` | app.py:99-102 | a name is in `missing_tr_cols` exactly when it is required and its cleaned form is not a key of `clean_col_map` |
| `Columns.MatchedNamesMembers` | app.py:99-104 | `tr_col_map` has exactly the required names whose cleaned form is a key, each mapped to the column `clean_col_map` gives for it |
| `Columns.MatchColumns` | app.py:79-107 | the sample data is chosen exactly when no project candidate matches or some required TR name is missing, with that reason (the missing names in list order); otherwise the project column is the first candidate's match and all sixteen TR names are mapped to spreadsheet columns |
| `Delays.Delay` | app.py:194-198 | the delay is never negative and is 0 without a reschedule date; with one, the nominal date plus the delay is the later of the two dates |
| `Delays.DelayPositiveIff` | app.py:195-196 | the delay is positive (so at least one day) exactly when the reschedule date is present and strictly later |
| `Delays.DelayNotLater` | app.py:197-198 | a reschedule date on or before the nominal date gives delay 0 |
| `Delays.DelayOfSameDate` | app.py:189-190 | a date compared with itself gives delay 0 |
| `Span.FirstPresent` | app.py:159-163 | the scan finds nothing exactly when every date is absent; otherwise it finds a present date with every earlier date absent |
| `Span.StartDate` | app.py:158-167 | `start_date`: the first present date in `tr_order`, or `now` when none is present, minus 15; `SpanEndpoints`, `SpanSinglePresent` and `SpanAllAbsent` characterise it |
| `Span.EndDate` | app.py:172-181 | `end_date`: the first present date of the reversed order, i.e. the last present one, or `now + 90` when none is present, plus 15; `ReverseScanFindsLast`, `SpanEndpoints`, `SpanSinglePresent` and `SpanAllAbsent` characterise it |
| `Span.ReverseScanFindsLast` | app.py:153 | scanning the reversed order finds the last present date of the original order |
| `Span.SpanEndpoints` | app.py:158-181 | when some date is present, the start is the first present date minus 15 and the end is the last present date plus 15; the first present position is at or before the last |
| `Span.SpanSinglePresent` | app.py:167 | with exactly one present date, the span runs from that date minus 15 to that date plus 15, so it is 30 days wide |
| `Span.SpanAllAbsent` | app.py:165-181 | with no present date, the span runs from `now - 15` to `now + 105` |
| `Span.SpanMayInvert` | app.py:159-177 | some 16-slot row with out-of-order dates has a start after its end |
| `OrderedMaps.OrderedMap.Put` | app.py:199 | assigning a key keeps the dict well formed; an existing key keeps its position, and a new key is appended |
| `OrderedMaps.Empty` | app.py:184 | the new dict is well formed and empty |
| `Timeline.CollectTrs` | app.py:184-199 | what the `tr_keys` loop builds is a well-formed ordered dict |
| `Timeline.PresentSlots` | app.py:193 | this reference filter holds exactly the keys whose date is present |
| `Timeline.ProjectOf` | app.py:149-208 | the record one loop iteration appends for row `i`: stripped name, padded span, `y_pos = 30·i` and `trs_delay`; `ProjectRow`, `ProjectSpan`, `TrsDelayEntries` and `AllDelaysZero` characterise it |
| `Timeline.AllProjects` | app.py:148-208 | the list `projects` after the loop: `ProjectOf` of every row, in row order; `DeriveProjects` is proved equal to it |
| `Timeline.ScanFirst` | app.py:159-163 | the `for … break` loop returns the date of the first present slot in the given order, or nothing when none is present |
| `Timeline.BuildTrsDelay` | app.py:184-199 | the loop over `tr_keys` builds `CollectTrs` over all sixteen keys |
| `Timeline.DeriveProject` | app.py:149-208 | one loop iteration builds exactly `ProjectOf` of its row: the padded span from the forward and reverse scans, the `trs_delay` dict and the given `y_pos = 30·i` |
| `Timeline.DeriveProjects` | app.py:148-208 | the loop returns one project per input row, equal to `AllProjects`: the record at position `k` is `ProjectOf` of row `k`, in row order |
| `Timeline.ReversedRowDates` | app.py:173-174 | reading a row in `reverse_tr_order` gives the row's `tr_order` dates reversed |
| `Timeline.CollectTrsEntries` | app.py:188-199 | an entry exists exactly for each listed key whose date is present; it holds that date and delay 0 |
| `Timeline.CollectTrsOrder` | app.py:184-199 | with distinct keys, the dict's entries follow the key order |
| `Timeline.TrsDelayEntries` | app.py:184-199 | a project's `trs_delay` is well formed; its slots are exactly the present ones (reschedule slots included), in `tr_keys` order, each with its own date |
| `Timeline.AllDelaysZero` | app.py:189-199 | every delay stored in `trs_delay` is 0 |
| `Timeline.ProjectRow` | app.py:201-208 | project `k` is named by its row's stripped name and has `y_pos = 30·k` |
| `Timeline.SlotsIncrease` | app.py:139-140 | vertical slots strictly increase with the row, so no two projects share a slot |
| `Timeline.ProjectSpan` | app.py:158-181 | a project with no date spans `now - 15 … now + 105`; otherwise its span runs from its first present slot in `tr_order` minus 15 to its last present slot plus 15 |
| `Timeline.MinStart` | app.py:212 | the minimum is one project's start and is at most every start |
| `Timeline.MaxEnd` | app.py:213 | the maximum is one project's end and is at least every end |
| `Timeline.GlobalRange` | app.py:211-216 | with projects, `min_date` is some project's start and at most every start, and `max_date` is some project's end and at least every end; with none, the range is `now - 30 … now + 30` |
| `Selection.KeepNamed` | app.py:227 | the filter keeps only projects whose name is selected, and never adds a project |
| `Selection.KeepNamedAppend` | app.py:227 | the filter distributes over concatenation, so it keeps the original order |
| `Selection.KeepNamedComplete` | app.py:227 | every project whose name is selected is kept |
| `Selection.KeepNamedAll` | app.py:226-227 | selecting every project's name keeps the whole list |
| `Selection.SelectProjects` | app.py:224-227 | an empty selection yields all projects unchanged; otherwise the result is the order-preserving filter `KeepNamed` of the projects, so it holds exactly the projects whose names are selected, in their original order |

## Left out

- The Dash app gets no model: its layout, its callbacks and the x-range syncing in `update_figures` (app.py:346-421) are user-interface plumbing.
- Plotly figure building, marker and colour styling, and palette indexing (app.py:229-340) are view code. The palette indexing `colors[projects.index(p)]` does not cycle, so it fails past 17 projects.
- File lookup, `pd.read_excel` and its error fallbacks (app.py:57-76), console messages and locale setup (app.py:14-21) are I/O and environment. They are not modelled.
- The built-in sample data `create_sample_data` (app.py:27-51) is not part of this model. Falling back to it appears only as the `UseSample` outcome of `Columns.MatchColumns`.
- After column matching, `load_excel_data` renames columns, drops rows with an empty project cell, falls back on zero rows and converts cells (app.py:110-131). These steps work on cell values through pandas and are not modelled. A `Timeline.Table` stands for their result.
- `pd.to_datetime(..., errors='coerce')` (app.py:50, 129) is a library parser. Its output is taken as given: `Option<int>` day numbers, `None` for `NaT`.
- `str(project_name)` is taken as the identity, because the names are already strings.
- `pd.Timestamp.now()` reads the wall clock at each fallback (app.py:166, 180, 215-216). The model passes one `now`, so readings taken a fraction of a second apart are not distinguished.
- Time of day is dropped: all dates are whole days, so `.days` is plain subtraction.
- The monthly ticks `tick_dates`/`tick_texts` (app.py:217-218) are not modelled. They depend on pandas month-start offsets and on locale formatting.
- Columns.Lower: it lower-cases only the ASCII letters. Python's `str.lower` also maps non-ASCII capitals, including those in spreadsheet headers. No matching outcome changes, because the only non-ASCII characters that lower-case to ASCII text are U+0130 (to "i" plus a combining dot) and U+212A (to "k"), and neither "i" nor "k" occurs in any candidate or required name.
- Columns.CleanColMap: column labels are taken to be strings. A numeric or date header cell gives pandas a non-string label, and `col.strip()` on line 79 then raises `AttributeError` outside the `try` of lines 68-76, so loading crashes (line 137) instead of falling back to the sample data. That crash is not modelled.
- Selection.SelectProjects: it takes the selection as a list. A `None` value from the dropdown, which the source also treats as "all", is not modelled.
