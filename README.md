# Coxswain2Fit TCX reader and time aligner, in Dafny

This project models the core of `parse_tcx.py` of Coxswain2Fit. That script reads
Training Center Database (TCX v2) exports from two devices: a Concept2 rowing
machine (`concept2*` files) and a Garmin wrist device (`activity*` files). It brings the
rowing machine's clock onto the wrist device's clock and joins the two trackpoint
streams on time. The intended join gives every rowing trackpoint the heart rate of
the latest wrist sample at or before it. The join the script writes at line 200 also
passes `by="time"`, which matches only samples with exactly the same time. The model
states both joins, and the whole run uses the intended one (see "## Findings").

The modules follow the script's layers:

- `Wrappers` (`wrappers.dfy`): `Option` and `Result`. `:-` propagates the first error, the way
  an exception aborts the script.
- `Xml` (`xml.dfy`): the element tree the reader walks and the three ElementPath lookups it
  uses: `find(tag)` is `Find`, `findall(tag)` is `FindAll`, and `find('.//tag')` is
  `SearchBelow`, a depth-first search proved equal to the first match in document order.
- `Tcx` (`tcx.dfy`): the namespace map, `convert_local`, and the two field extractors
  `get_tcx_lap_data` and `get_tcx_trackpoint_data`. Each builds a record
  whose optional fields are present exactly when their elements are.
- `Walker` (`walker.dfy`): `get_dataframes`. It is a method with the script's two nested loops, a
  lap counter and two growing lists. It is proved equal to a fold (`LoadDocument`), and
  the numbering, lap-major order and lap stamps of the walk are proved about that fold.
- `Aligner` (`aligner.dfy`): the main block. It covers the file loop (a method proved
  equal to a fold), concatenation, sort, clock offset and shift, and the as-of join
  as a two-pointer sweep (`MergeAsOf`, proved equal to the reference `AsOf`). It also
  covers the `duration` and `hhmmss_1` columns. `Run` is the whole main block as one method.

Every failure the script can raise is a distinct `Error` constructor, raised in the order the script meets them:

- a missing attribute;
- a missing child;
- a missing text;
- an unconvertible value;
- a timestamp without an offset;
- a document without an `Activities` child, or with an empty one;
- no rowing-machine file to concatenate;
- no wrist-device file;
- an empty laps table, whose minimum start is undefined;
- an empty wrist-device trackpoints table, whose `time` column is not a datetime join key;
- an empty rowing-machine trackpoints table, refused for the same reason;
- unsorted join keys.

Timestamps are whole seconds. The local time zone is a parameter: a fixed UTC offset
`localOffset`. The text conversions `float`, `int` and `pd.to_datetime` are the parameter
`Coercions`, which holds total functions that answer None where Python would raise.

## Model

| member | source | states |
|---|---|---|
| Xml.FirstTagged | parse_tcx.py:49 | the first element with a tag is None exactly when no element has it; otherwise it has the tag and is one of the elements |
| Xml.FirstTaggedIsFirst | parse_tcx.py:49 | no element before the chosen one carries the tag |
| Xml.Find | parse_tcx.py:49-50 | `find` is None exactly when no direct child carries the tag; otherwise it returns a child with that tag |
| Xml.FindAll | parse_tcx.py:117 | `findall` returns at most the children, each with the tag |
| Xml.TaggedMembers | parse_tcx.py:117 | `findall` keeps every element with the tag and nothing else |
| Xml.TaggedAppend | parse_tcx.py:117 | filtering by tag distributes over concatenation, so document order is kept |
| Xml.SearchIn | parse_tcx.py:96-98 | the recursive search over siblings finds the first match of the pre-order listing |
| Xml.SearchBelow | parse_tcx.py:96-98 | `find('.//tag')` is the first element strictly below, in document order, that carries the tag |
| Tcx.PrefixesResolve | parse_tcx.py:15-21 | the prefixes `ns` and `ns3` resolve through the namespace map to the namespaces the reader's tags use |
| Tcx.Names | parse_tcx.py:24-27 | the names of a list of keys, one per key, in order |
| Tcx.ColumnNames | parse_tcx.py:24-27 | the laps and trackpoints columns are spelled and ordered as `LAPS_COLUMN_NAMES` and `TRACKPOINT_COLUMN_NAMES` |
| Tcx.KeyNamesDistinct | parse_tcx.py:24-27 | distinct keys have distinct names |
| Tcx.ToLocal | parse_tcx.py:29-33 | the naive local time names the same UTC instant on the local clock |
| Tcx.Reattach | parse_tcx.py:32 | reading a naive time on a clock with a given offset gives that offset and the instant the local clock meant |
| Tcx.LocalRoundTrip | parse_tcx.py:32 | re-attaching the original offset after dropping the zone gives back the original timestamp |
| Tcx.LocalDependsOnInstantOnly | parse_tcx.py:30-32 | two timestamps give the same local time exactly when they name the same instant |
| Tcx.ConvertLocal | parse_tcx.py:29-33 | succeeds exactly on text that parses to an offset-bearing timestamp; gives its local time; missing text and unparsable text fail with their own errors |
| Tcx.Scalar | parse_tcx.py:49-63 | an absent element gives an absent field; a present one succeeds exactly when its text converts, and the field is that value; no text and bad text are told apart |
| Tcx.Nested | parse_tcx.py:65-71 | a heart-rate field comes from the `Value` child of its wrapper; a wrapper without `Value` fails |
| Tcx.WattField | parse_tcx.py:98-100 | an absent `Watts` element gives no watt; one with no text or empty text gives 0.0; other text converts or fails |
| Tcx.LapKeysOf | parse_tcx.py:39-71 | a lap dictionary always has `start_time`, has each optional key exactly when the field has a value, and has no other key |
| Tcx.ExtractLap | parse_tcx.py:35-73 | succeeds exactly on a well-formed lap (a `StartTime` attribute with a zoned timestamp, convertible optional elements); gives the local start and every present field; a missing `StartTime` fails |
| Tcx.LapKeysExact | parse_tcx.py:44-71 | the extracted lap has `start_time`, and each optional key exactly when its child element exists |
| Tcx.PointKeysOf | parse_tcx.py:79-102 | a trackpoint dictionary always has `time`, has each optional key exactly when the field has a value, and has no other key |
| Tcx.WattsElement | parse_tcx.py:96-98 | the `Watts` element is the first one with that tag at any depth below the trackpoint |
| Tcx.PointFields | parse_tcx.py:84-100 | succeeds exactly when the present optional elements convert; cadence, distance and heart rate are decoded; watt follows the empty-text rule |
| Tcx.ExtractPoint | parse_tcx.py:75-102 | a trackpoint without `Time` fails; success exactly on a well-formed trackpoint, whose time is the local time of its `Time` text |
| Tcx.PointKeysExact | parse_tcx.py:81-100 | the extracted trackpoint has `time`, and each optional key exactly when its element exists (watt at any depth) |
| Tcx.PointKeysNonEmpty | parse_tcx.py:127-128 | a trackpoint dictionary is never empty, so the `if single_point_data` test never skips a trackpoint |
| Walker.Reader | parse_tcx.py:119-127 | the readers the walk calls are `get_tcx_lap_data`, the `Track`/`Trackpoint` lookup and `get_tcx_trackpoint_data` |
| Walker.LapsColumnsKeepAll | parse_tcx.py:120-135 | every key of a numbered lap dictionary is a column of the laps table |
| Walker.PointRow | parse_tcx.py:129-137 | restricting a trackpoint entry to the trackpoint columns drops exactly the `lap` key |
| Walker.PointRows | parse_tcx.py:137 | the trackpoints table has one row per entry, in order |
| Walker.LoadDocument | parse_tcx.py:110-112 | a document without `Activities`, or with an empty `Activities`, fails with its own error |
| Walker.GetDataframes | parse_tcx.py:104-141 | the method walking the first activity returns exactly the fold `LoadDocument` with this program's readers |
| Walker.WalkLaps | parse_tcx.py:114-131 | the outer loop with its counter returns exactly the fold `LoadLaps` |
| Walker.WalkTrack | parse_tcx.py:125-130 | the inner loop returns exactly the fold `LoadPoints` |
| Walker.LoadPointsPrefixFailure | parse_tcx.py:125-130 | a failing trackpoint fails the lap, whatever follows it |
| Walker.LoadLapsPrefixFailure | parse_tcx.py:117-131 | a failing lap fails the walk, whatever follows it |
| Walker.LoadPointsShape | parse_tcx.py:125-130 | the inner loop succeeds exactly when every trackpoint extracts; then it gives one entry per trackpoint, in order, stamped with the lap number (the empty-dictionary skip never fires) |
| Walker.LoadLapShape | parse_tcx.py:119-130 | one lap gets through exactly when it extracts, has a `Track` and all its trackpoints extract; then it yields its numbered entry and its stamped trackpoints |
| Walker.LoadLapLoads | parse_tcx.py:119-130 | one lap gets through the walk exactly when it extracts, has a `Track`, and all its trackpoints extract |
| Walker.LoadLapsSucceeds | parse_tcx.py:117-131 | the walk succeeds exactly when every lap loads |
| Walker.LoadLapsNumbering | parse_tcx.py:116-121 | lap `i` (from 0) is laps-table entry `i`, numbered `i + 1`, holding that lap's data |
| Walker.LoadLapsCount | parse_tcx.py:125-130 | there is one trackpoint entry per trackpoint of all laps |
| Walker.LoadLapsPlacement | parse_tcx.py:117-131 | trackpoint `m` of lap `i` is entry (trackpoints of earlier laps) + `m`, stamped `i + 1` (lap-major document order) |
| Walker.LoadLapsStamps | parse_tcx.py:129 | every trackpoint entry's lap number is between 1 and the number of laps, and lap numbers never decrease along the trackpoints |
| Walker.DocumentShape | parse_tcx.py:110-141 | the document loads exactly when it has a non-empty `Activities` whose first child's laps all load; the tables then have one row per lap and per trackpoint |
| Walker.ReaderLapLoads | parse_tcx.py:119-127 | with this program's readers a lap loads exactly when it is well formed, has a `Track`, and all its trackpoints are well formed |
| Aligner.Insert | parse_tcx.py:165-166 | inserting into a sorted sequence keeps it sorted and adds exactly the new row |
| Aligner.SortBy | parse_tcx.py:165-166 | `sort_values` gives a non-decreasing arrangement of exactly the same rows |
| Aligner.MinKey | parse_tcx.py:176-180 | `min()` is attained by some row and is at most every row's key |
| Aligner.MinKeyPermutation | parse_tcx.py:180 | the minimum does not depend on row order |
| Aligner.SortKeepsMin | parse_tcx.py:165-180 | sorting keeps the number of rows and the minimum |
| Aligner.SortedMin | parse_tcx.py:165-180 | the minimum of sorted rows is the first row's key |
| Aligner.CollectFiles | parse_tcx.py:153-161 | the file loop returns exactly the fold `CollectSpec` over the listing |
| Aligner.ReadFile | parse_tcx.py:156-161 | one pass of the file loop returns exactly one step of the fold: a `concept2*` file appends its tables, an `activity*` file replaces the wrist tables, a failing read fails |
| Aligner.CollectPrefixFailure | parse_tcx.py:155-161 | a file that fails to load fails the run, whatever follows it |
| Aligner.Concept2Files | parse_tcx.py:156 | the selected files are at most the listing, each named `concept2*` |
| Aligner.Concept2FilesMembers | parse_tcx.py:156 | the selected files are exactly the `concept2*` files of the listing |
| Aligner.CollectConcept2 | parse_tcx.py:156-159 | the rowing-machine tables are those of the `concept2*` files, one per file, in listing order |
| Aligner.CollectLastActivityWins | parse_tcx.py:160-161 | the wrist-device tables are those of the last `activity*` file, and there are none exactly when no file is one |
| Aligner.LastFileGarmin | parse_tcx.py:160-161 | the last file sets the wrist tables when it is an `activity*` file and leaves them unchanged otherwise |
| Aligner.ConcatMembers | parse_tcx.py:163-164 | a row is in a concatenation exactly when it is in one of the per-file tables |
| Aligner.ConcatAppend | parse_tcx.py:163-164 | concatenation keeps every row, repeats included, in file order: the concatenation of two runs of tables is the concatenation of their concatenations |
| Aligner.ConcatLength | parse_tcx.py:163-164 | a concatenation has as many rows as all the per-file tables together |
| Aligner.ConcatEmpty | parse_tcx.py:163-164 | a concatenation is empty exactly when every per-file table is |
| Aligner.ShiftLaps | parse_tcx.py:194 | every lap start moves by the offset; nothing else of a row changes |
| Aligner.ShiftPoints | parse_tcx.py:196 | every trackpoint time moves by the offset; nothing else of a row changes |
| Aligner.ShiftRoundTrip | parse_tcx.py:194-196 | shifting back by the negated offset restores both tables |
| Aligner.ShiftKeepsOrder | parse_tcx.py:194-196 | a uniform shift keeps time order, in both directions |
| Aligner.ShiftMin | parse_tcx.py:194 | a shift moves the earliest lap start by the offset |
| Aligner.ClockOffset | parse_tcx.py:176-185 | the offset is defined exactly when both laps tables are non-empty, and it carries the earliest rowing lap start onto the earliest wrist lap start |
| Aligner.LastAtOrBeforeIsLatest | parse_tcx.py:200 | the chosen wrist sample is at or before the time with no later such sample; there is none exactly when every sample is later |
| Aligner.AsOf | parse_tcx.py:200 | the corrected backward as-of join has one row per rowing row, in order, keeping its `time`, `distance`, `watt` and `cadence`, with the heart rate of the latest wrist sample at or before it |
| Aligner.JoinRow | parse_tcx.py:200 | a joined row keeps the selected rowing columns `time`, `distance`, `watt` and `cadence`, and carries the given heart rate |
| Aligner.SplitPoint | parse_tcx.py:200 | in a sorted stream split at `j`, the latest sample at or before `t` is sample `j - 1` |
| Aligner.MergeAsOf | parse_tcx.py:200 | the two-pointer sweep over two time-sorted streams returns exactly the as-of join `AsOf` |
| Aligner.AsOfByTime | parse_tcx.py:200 | the join as written has one row per rowing row, in order, keeping its rowing columns, with the heart rate of a wrist sample with exactly its time |
| Aligner.LastAtTimeIsExact | parse_tcx.py:200 | the sample the join as written picks has exactly the row's time, with no later sample at that time; there is none exactly when no sample has that time |
| Aligner.ByTimeLosesHeartRate | parse_tcx.py:200 | on a two-sample example the as-of join gives both heart rates and the join as written gives none |
| Aligner.NoEarlierSample | parse_tcx.py:200 | a rowing row earlier than every wrist sample gets no heart rate |
| Aligner.Duration | parse_tcx.py:201 | `.dt.seconds` lies in [0, 86400), is congruent to the difference modulo a day, and equals it under a day |
| Aligner.TimeOfDay | parse_tcx.py:202 | the clock has valid hours, minutes and seconds that add up to the duration |
| Aligner.WithDurations | parse_tcx.py:201-202 | an empty merged table fails; otherwise every row keeps its data, with its duration since the first row and the matching clock |
| Aligner.Run | parse_tcx.py:153-202 | the main block as a method returns exactly `RunSpec`, the fold of the files followed by the alignment |
| Aligner.RunAlignment | parse_tcx.py:176-202 | offset, shift and merge return exactly `AlignTables` |
| Aligner.RunMerge | parse_tcx.py:200-202 | the emptiness and order checks, the sweep and the durations return exactly `Merge` |
| Aligner.MergeRows | parse_tcx.py:200-202 | the merge fails on an empty right side, then on an empty left side, then on unsorted left keys, then on unsorted right keys; otherwise it has one row per left row, which keeps the row's rowing columns and time, carries the heart rate of the latest right sample at or before it and the duration since the first row, and has the matching `hhmmss_1` clock |
| Aligner.AlignTablesClocks | parse_tcx.py:184-196 | on sorted tables the offset is the difference of the earliest lap starts; the shifted tables stay sorted, and the earliest shifted lap starts with the earliest wrist lap |
| Aligner.AlignTablesValue | parse_tcx.py:184-196 | a successful alignment has both laps tables non-empty, keeps the wrist tables, and moves both rowing tables by the offset between the earliest lap starts |
| Aligner.ShiftedClocks | parse_tcx.py:184-196 | shifting sorted rowing tables by that offset keeps them sorted and puts their earliest lap start on the wrist one |
| Aligner.AlignErrors | parse_tcx.py:163-200 | the run fails with no rowing file, then with no wrist file, then when a laps table is empty; it never fails on the shifted rowing stream's order; it succeeds exactly when none of the six failures applies, so an empty wrist trackpoints table fails |
| Aligner.AlignLaterErrors | parse_tcx.py:200 | once both sides have laps, an empty wrist trackpoints table fails, then an empty rowing stream, then unsorted wrist samples with the right-keys error |
| Aligner.AlignTablesSucceeds | parse_tcx.py:184-202 | on a sorted rowing stream the alignment never fails on left-key order, and succeeds exactly when both sides have laps and trackpoints and the wrist samples are in time order |
| Aligner.AlignSortedClocks | parse_tcx.py:165-196 | aligning sorted arrangements takes the offset against the unsorted rows' earliest start and shifts each sorted table by it |
| Aligner.AlignedClocks | parse_tcx.py:163-196 | after a run, the rowing tables are the sorted concatenations moved by the offset between the earliest lap starts; they are time-ordered, and the earliest rowing lap starts with the earliest wrist lap |
| Aligner.MergedRows | parse_tcx.py:200-202 | after a run with the corrected join, the merged table has one row per shifted rowing trackpoint, in order. Each row keeps that trackpoint's `time`, `distance`, `watt` and `cadence`, with the heart rate of the latest wrist sample at or before it, the duration from the first row, and its `hhmmss_1` clock |
| Aligner.AlignMerged | parse_tcx.py:200-202 | a run's merged table is the merge of its shifted rowing trackpoints with the wrist trackpoints |

The extractors fill a dictionary one field at a time in straight-line code, with no loop. They are
functions that chain the fields with `:-`. The two loops of `get_dataframes` and
the file loop of the main block are methods with `while` loops.

## Left out

- lxml parsing of the file, and namespace resolution (parse_tcx.py:110-111). The model starts from a parsed element tree whose tags already carry their namespace.
- pandas: DataFrames, `set_index`, `info()`, `print`, the Excel writer and `to_excel` (parse_tcx.py:135-137, 149, 167-174, 191-197, 204-206). Tables are sequences of records, and a missing value is an absent field.
- Logging (parse_tcx.py:48, 123, 139, 147, 187-189), and the earliest and latest trackpoint times at lines 177-178 and 181-182, which are only logged.
- `os.listdir` and paths (parse_tcx.py:151, 155). The directory listing is a parameter: a sequence of names paired with parsed documents, in listing order.
- `float`, `int` and `pd.to_datetime` on text (parse_tcx.py:30, 51-94). They are parameters that succeed or fail, so float semantics such as NaN or rounding are not modelled.
- Tcx.ToLocal: the local zone is one fixed UTC offset, because `tzlocal.get_localzone()` is machine state. Daylight-saving changes between timestamps are not modelled.
- Tcx.ConvertLocal: timestamps are whole seconds. Fractions of a second, which `pd.to_datetime` keeps, are not modelled.
- Aligner.SortBy: states only that the result is sorted and a permutation. The order of rows with equal keys is left open, since `sort_values` uses an unstable sort by default.
- Aligner.Run: the failures of pandas are single `Error` values. The script's concrete exceptions and messages are not modelled. These are `ValueError` from concatenating nothing, `NameError` when no wrist file was read, an exception in lines 184-194 when a laps table is empty, a refusal of the join at line 200 when either trackpoints table is empty, and `ValueError` ("left keys must be sorted" or "right keys must be sorted") on unsorted keys. The failure of `iloc[0]` at line 201, which `WithDurations` keeps, is then never reached.
- Aligner.MergeRows: the order of the join-time failures (empty wrist table, then empty rowing stream, then unsorted left keys, then unsorted right keys) follows pandas' checks of key types, right side first, before key order. An empty table's `time` column is not a datetime column. Which pandas exception an empty table raises is not modelled.
- The namespaces `ns2`, `ns4` and `ns5` are in the map (parse_tcx.py:17-20), but no lookup uses them.
- Tcx.WattField: follows the code (parse_tcx.py:100). Only a missing or empty text gives 0.0; a whitespace-only text goes to `float` and fails.
- Aligner.Run: `Run`, `RunSpec`, `RunAlignment`, `Merge` and the lemmas about them use the corrected as-of join `AsOf` (latest wrist sample at or before each rowing row). The join as written at parse_tcx.py:200, with `by="time"`, is `AsOfByTime`, and `ByTimeLosesHeartRate` shows where the two differ.

## Findings

| source | as written | input that shows it | evidently intended | confidence | as-written member | corrected member |
|---|---|---|---|---|---|---|
| parse_tcx.py:200 | `merge_asof(..., on="time", by="time")` groups by exact time, so a rowing row only matches a wrist sample with exactly its time | wrist samples at 0 s (100 bpm) and 10 s (110 bpm), rowing samples at 3 s and 12 s: both rows get no heart rate | the backward as-of join on `time` alone: each rowing row gets the heart rate of the latest wrist sample at or before it (100 and 110 here) | not executed | Aligner.ByTimeLosesHeartRate | Aligner.MergeAsOf |
