# Noviga dashboard core, modelled in Dafny

The dashboard has two pages over a mock back end.

The **scatter-plot page** (`ScatterPage`):
- The operator picks a machine and a date/time window.
- The page fetches the machine's calibration changelogs and its prediction cycles from a mock HTTP layer (`MockScatterApi`).
- It plots one point per cycle, in one of three series by the cycle's anomaly value (true, false or null).
- It offers the tool sequences of the first changelog as a menu.
- It draws one threshold segment per changelog for the chosen sequence.
- It computes one x-axis tick per day of the window.
- The search button is enabled only once every input is set.

The **time-series chart** (`TimeseriesGraph`) does two things:
- It zips the time, actual and ideal arrays by index into chart rows.
- It turns a `snake_case` signal name into a title.

The **topology page** (`TreePage`):
- It colours each node of the production line by its membership in the not-allowed and bypass lists.
- It derives the flow graph's nodes and `source->target` edges from the machine map.
- Saving the edit dialog moves a machine between the lists and renames its nodes.

Two redux slices hold UI state: `MainSlice` and `TreeSlice`. Each is a class whose case reducers assign one field in place. A pure `Reduce` function on value snapshots serves as the reference for the classes.

Modules:
- `Common`: Option, Result, JavaScript truthiness of query parameters, and the decimal rendering of integers.
- `ScatterTypes` and `TreeTypes`: the records.
- One module per core source file.

Foreign code enters as parameters:
- The JSON fixtures are parameters of the handlers.
- `new Date(s).getTime()` is a function `parseDate: string -> Option<int>`, where `None` stands for NaN.
- The dagre layout is a function `centre: int -> Point` from node id to layout centre.

Where the code and its documentation disagree, the model follows the code:
- A cycle without the selected signal makes `formatPredictionData` throw. It is not skipped. The model returns `Failure(MissingSignal(..))`.
- The same holds for a changelog entry without the selected tool sequence in `onToolChange`.
- `/predictions` answers with `{Status, cycles}`, not `{Status, Result}`. See "## Findings".

## Model

| member | source | states |
|---|---|---|
| Common.Truthy | src/backend/controllers/ScatterData.ts:77 | `!param` is false exactly for a present, non-empty query string (definition) |
| Common.ParseInt | src/pages/ScatterData.tsx:111 | the decimal reading of an optionally signed digit string, used to show a menu label reads back as its id; the inverse of `IntToString` by `IntToStringRoundTrip` |
| Common.NatToString | src/pages/TreeData.tsx:98 | the decimal rendering of a natural number: at least one character, all digits |
| Common.IntToString | src/pages/ScatterData.tsx:111 | `String(i)`: non-empty; starts with `-` exactly when i < 0, otherwise all digits |
| Common.NatToStringRoundTrip | src/pages/ScatterData.tsx:111 | reading the digits of a natural number's rendering gives the number back |
| Common.IntToStringRoundTrip | src/pages/ScatterData.tsx:111 | `ParseInt(IntToString(i)) == i` for every integer, so a menu label reads back as its id |
| Common.IntToStringInjective | src/pages/TreeData.tsx:74-87 | different integers render as different strings, so string node ids keep integer ids apart |
| MockScatterApi.EffectiveLimit | src/backend/controllers/ScatterData.ts:71 | `Number(limit) \|\| 10`: a non-zero number is kept; NaN (absent or non-numeric) and 0 give 10 |
| MockScatterApi.SliceTo | src/backend/controllers/ScatterData.ts:91 | `slice(0, end)`: a prefix of length min(end, len) for end >= 0; a negative end counts back from the end, clamped at 0 |
| MockScatterApi.EntriesOfMachine | src/backend/controllers/ScatterData.ts:85-87 | the filter returns no more entries than the fixture, every one from the fixture and of the machine |
| MockScatterApi.EntriesOfMachineComplete | src/backend/controllers/ScatterData.ts:85-87 | an entry is in the filtered list exactly when it is in the fixture and has the queried machine id |
| MockScatterApi.MatchIndices | src/backend/controllers/ScatterData.ts:85-87 | the fixture positions the filter visits and keeps, each a valid index |
| MockScatterApi.MatchIndicesPick | src/backend/controllers/ScatterData.ts:85-87 | the i-th kept position holds the i-th filtered entry, and there are as many positions as results |
| MockScatterApi.MatchIndicesAscending | src/backend/controllers/ScatterData.ts:85-87 | the kept positions strictly ascend: the filter keeps fixture order |
| MockScatterApi.MatchIndicesExactly | src/backend/controllers/ScatterData.ts:85-87 | a position is kept exactly when its entry has the queried machine id |
| MockScatterApi.EntriesOfMachineInOrder | src/backend/controllers/ScatterData.ts:85-87 | the filtered list is the subsequence of the fixture taking every matching position: strictly increasing fixture indices, and every index of a matching entry among them |
| MockScatterApi.GetChangeLogs | src/backend/controllers/ScatterData.ts:69-93 | 400 "machine_id is required" exactly when machine_id is absent or empty; any other reply has Status true |
| MockScatterApi.ChangeLogsArePrefix | src/backend/controllers/ScatterData.ts:85-92 | with a positive limit the result is the first min(limit, count) matching entries in fixture order, all of the machine |
| MockScatterApi.ChangeLogsNegativeLimit | src/backend/controllers/ScatterData.ts:71-91 | a negative limit keeps the matching entries except the last \|limit\|: the result is that prefix of the matching entries |
| MockScatterApi.ChangeLogsIgnoreWindow | src/backend/controllers/ScatterData.ts:69-93 | from_time and to_time do not affect the reply |
| MockScatterApi.FindMachine | src/backend/controllers/ScatterData.ts:108-110 | `find`: None exactly when no record has the id; otherwise the first record that has it |
| MockScatterApi.InWindow | src/backend/controllers/ScatterData.ts:127-129 | `dateFromEpoch >= from && dateFromEpoch <= to` on epoch*1000, false whenever a bound is NaN (definition; used by `KeptCyclesExactly`) |
| MockScatterApi.KeptCycles | src/backend/controllers/ScatterData.ts:121-132 | every kept cycle is an input cycle in the window; ascending epoch keys stay ascending |
| MockScatterApi.KeptCyclesExactly | src/backend/controllers/ScatterData.ts:126-131 | a cycle is kept, with key and value unchanged, exactly when from <= epoch*1000 <= to (inclusive; NaN bounds keep nothing) |
| MockScatterApi.PredictionReply | src/backend/controllers/ScatterData.ts:95-138 | 400 "Missing required query params" exactly when a parameter is missing; 400 not-found exactly when no record has the machine; otherwise Status true and only window cycles of that machine |
| MockScatterApi.GetPredictionData | src/backend/controllers/ScatterData.ts:95-138 | the handler with its filtering loop returns exactly `PredictionReply` |
| MockScatterApi.AnomalyColour | src/backend/controllers/ScatterData.ts:63-67 | "true" gives red, "false" green, "null" black, anything else (or absent) green |
| MockScatterApi.GetCycleData | src/backend/controllers/ScatterData.ts:140-182 | 400 exactly when machine_id, cycle_log_id or signal is missing; then 500 exactly when the machine is unknown; otherwise data has the single key cycle_log_id, mapped to the selected trace or `{}` |
| MockScatterApi.AnomalyOptional | src/backend/controllers/ScatterData.ts:143-155 | anomaly is not required: leaving it out answers as "false" does |
| ScatterPage.PointOf | src/pages/ScatterData.tsx:155-159 | the pushed point `{x: epoch*1000, y: distance, id}` (definition; characterized by `PointsOfExactly`) |
| ScatterPage.PointsOf | src/pages/ScatterData.tsx:152-177 | the points of one anomaly class in visit order (definition; pinned down by `PointsOfExactly`, `PointsAscending`, `PartitionComplete`) |
| ScatterPage.Partition | src/pages/ScatterData.tsx:147-181 | the three arrays `formatPredictionData` returns (definition; `PlotOf` yields it on success) |
| ScatterPage.FirstWithoutSignal | src/pages/ScatterData.tsx:152-153 | the index of the first cycle lacking the signal: all cycles before it have it |
| ScatterPage.PlotOf | src/pages/ScatterData.tsx:143-182 | no data gives three empty arrays; with data it succeeds exactly when every cycle carries the signal, and otherwise fails at the first cycle that lacks it |
| ScatterPage.FormatPredictionData | src/pages/ScatterData.tsx:143-182 | the loop pushing into three arrays returns exactly `PlotOf` |
| ScatterPage.FirstWithoutSignalAt | src/pages/ScatterData.tsx:152-153 | the cycle the loop throws at is the first one lacking the signal |
| ScatterPage.PointsOfStep | src/pages/ScatterData.tsx:153-174 | one more cycle appends its point to the array of its own class and leaves the others |
| ScatterPage.PartitionComplete | src/pages/ScatterData.tsx:152-177 | the three array lengths add up to the number of cycles |
| ScatterPage.PointsOfExactly | src/pages/ScatterData.tsx:153-174 | a point is in the array of class a exactly when it is (epoch*1000, distance, id) of a cycle whose anomaly is a |
| ScatterPage.PointsAscending | src/pages/ScatterData.tsx:152-174 | within each array the points keep cycle order, so x strictly increases |
| ScatterPage.PartitionDisjoint | src/pages/ScatterData.tsx:153-177 | points in arrays of different classes have different x: no cycle lands in two arrays |
| ScatterPage.ThresholdSegments | src/pages/ScatterData.tsx:89-98 | succeeds exactly when every entry has the sequence, with one segment per entry in order (start ms, end ms, threshold); otherwise fails at the first entry without it |
| ScatterPage.GenerateXAxisTicks | src/pages/ScatterData.tsx:184-194 | tick i is start + i days and is <= end; the day after the last tick is > end; empty exactly when start > end; floor((end-start)/day)+1 ticks otherwise |
| ScatterPage.DayCount | src/pages/ScatterData.tsx:188-191 | k ticks with the last <= end and the next > end means k = floor(span/day)+1 |
| ScatterPage.FormatToolOptions | src/pages/ScatterData.tsx:103-122 | no changelogs gives only the placeholder; otherwise one option per tool-sequence entry of the first changelog, in order, with id the number, label its string and value the key |
| ScatterPage.ToolOptionsMeaning | src/pages/ScatterData.tsx:107-121 | every option's label parses back to its id, and its (value, id) pair is an entry of the first changelog's map; only the placeholder has no value |
| ScatterPage.IsSearchActive | src/pages/ScatterData.tsx:196-199 | the button is enabled exactly when machine, both dates, both times and the tool sequence are all set |
| ScatterPage.ReceivedPredictions | src/services/scatterData.ts:26-42 | what the service hands the page is always `undefined`, for every reply |
| ScatterPage.SearchPlotAlwaysEmpty | src/pages/ScatterData.tsx:124-141 | as written, every search plots three empty series |
| ScatterPage.ReceivedPredictionsCorrected | src/backend/controllers/ScatterData.ts:134-137 | the intended hand-over: data exactly on a 200 reply, carrying the reply's cycles |
| ScatterPage.SearchPlotShowsWindow | src/pages/ScatterData.tsx:128-139 | with the corrected hand-over, each cycle of the window appears in the array of its class, and the counts add up |
| TimeseriesGraph.At | src/components/TimeseriesGraph.tsx:31-32 | `arr[i]` is defined exactly when i < length, and is then the element |
| TimeseriesGraph.FormatTimeSeriesData | src/components/TimeseriesGraph.tsx:25-37 | no data gives no rows; otherwise one row per time value, row i being (time[i], actual[i], ideal[i]) with `undefined` past an array's end |
| TimeseriesGraph.Times | src/components/TimeseriesGraph.tsx:29-33 | the time column of the rows, pointwise |
| TimeseriesGraph.DefinedOfZipped | src/components/TimeseriesGraph.tsx:31-32 | reading a column back up to its first `undefined` gives the array cut at the row count |
| TimeseriesGraph.ZipRoundTrip | src/components/TimeseriesGraph.tsx:25-37 | unzipping the rows gives back `time`, and `actual` and `ideal` as far as `time` reaches |
| TimeseriesGraph.ToUpper | src/components/TimeseriesGraph.tsx:49 | ASCII a-z move to A-Z; every other character is kept |
| TimeseriesGraph.Split | src/components/TimeseriesGraph.tsx:45 | `split` never returns an empty array |
| TimeseriesGraph.Join | src/components/TimeseriesGraph.tsx:55 | `join(sep)`: the parts with one separator between neighbours (definition; inverse of `Split` by `SplitJoinRoundTrip`) |
| TimeseriesGraph.FormatSignalName | src/components/TimeseriesGraph.tsx:44-58 | split on `_`, capitalize each part, join with spaces (definition; its properties are `SignalNameAt`, `SignalNameWords`, `SignalNameIdempotent`) |
| TimeseriesGraph.CapitalizeFirst | src/components/TimeseriesGraph.tsx:47-51 | capitalizing a part keeps its length |
| TimeseriesGraph.CapitalizeAll | src/components/TimeseriesGraph.tsx:46-53 | one capitalized part per part |
| TimeseriesGraph.Titled | src/components/TimeseriesGraph.tsx:44-58 | the character-wise reference rendering keeps the length |
| TimeseriesGraph.Capped | src/components/TimeseriesGraph.tsx:46-53 | capitalizing all parts but possibly the first keeps the part count |
| TimeseriesGraph.SplitPartsCount | src/components/TimeseriesGraph.tsx:45 | n separators give n+1 parts, none containing the separator |
| TimeseriesGraph.SplitJoinRoundTrip | src/components/TimeseriesGraph.tsx:45-55 | joining the split parts with the separator gives the input back |
| TimeseriesGraph.JoinConsFirst | src/components/TimeseriesGraph.tsx:55 | a character put before the first part ends up before the joined string |
| TimeseriesGraph.CappedAfterSeparator | src/components/TimeseriesGraph.tsx:45-55 | a leading `_` becomes a leading space and the next part is capitalized |
| TimeseriesGraph.CappedAfterChar | src/components/TimeseriesGraph.tsx:45-55 | a leading non-separator character is capitalized only at a part start |
| TimeseriesGraph.FormatIsTitled | src/components/TimeseriesGraph.tsx:44-58 | the split-capitalize-join pipeline equals the character-wise rendering |
| TimeseriesGraph.FormatSignalNameIsTitled | src/components/TimeseriesGraph.tsx:44-58 | `formatSignalName` equals the character-wise rendering |
| TimeseriesGraph.TitledAt | src/components/TimeseriesGraph.tsx:46-55 | the rendering at index i: a space for `_`, upper case at a part start, the character otherwise |
| TimeseriesGraph.SignalNameAt | src/components/TimeseriesGraph.tsx:44-58 | the title has the name's length; each `_` is a space, the first character of each part is upper-cased, and every other character is kept |
| TimeseriesGraph.SignalNameWords | src/components/TimeseriesGraph.tsx:45-55 | the title is (number of `_`)+1 words joined by single spaces, and contains no `_` |
| TimeseriesGraph.SignalNameHasNoUnderscore | src/components/TimeseriesGraph.tsx:45-55 | no character of the title is `_` |
| TimeseriesGraph.UpperIsNotUnderscore | src/components/TimeseriesGraph.tsx:49 | upper-casing never produces `_` and is idempotent |
| TimeseriesGraph.SignalNameIdempotent | src/components/TimeseriesGraph.tsx:44-58 | formatting a title again changes nothing |
| TreeTypes.NodeColor.Name | src/types/TreeData.ts:34-38 | RED is "red", BLUE is "blue" and WHITE is "white", each exactly, so the three strings differ |
| TreePage.GetBgColorName | src/pages/TreeData.tsx:40-48 | RED exactly when not allowed; BLUE exactly when bypassed and not not-allowed; WHITE exactly when in neither list |
| TreePage.GetBgColor | src/pages/TreeData.tsx:30-38 | the background is the colour of the category `getBgColorName` gives |
| TreePage.Background | src/utils/Colors.ts:9-11 | the `COLORS.node_*` background of each category (definition; tied to `getBgColor` by its ensures) |
| TreePage.GetFontColor | src/pages/TreeData.tsx:50-58 | the font is white exactly when the id is in either list, and black exactly on WHITE nodes |
| TreePage.Edge.Id | src/pages/TreeData.tsx:85 | the edge id `${source}->${target}` (definition; `EdgeIdInjective` shows it identifies the pair) |
| TreePage.Edge.Source | src/pages/TreeData.tsx:86 | `source.toString()` (definition) |
| TreePage.Edge.Target | src/pages/TreeData.tsx:87 | `node.id.toString()` (definition) |
| TreePage.Edge.Kind | src/pages/TreeData.tsx:88 | the edge type `"step"` (definition) |
| TreePage.EdgesOf | src/pages/TreeData.tsx:80-91 | the edges of the nested loop, node order then input order (definition; `EdgeCount`, `EdgesExactly`, and `GetFlowElements` proved equal to it) |
| TreePage.StationEdges | src/pages/TreeData.tsx:82-90 | one edge per input station of a node, in input order, from that station to the node |
| TreePage.EdgeCount | src/pages/TreeData.tsx:80-91 | edges are not deduplicated: their count is the sum of the input-station counts |
| TreePage.EdgesExactly | src/pages/TreeData.tsx:80-91 | an edge is derived exactly for each (input station, node) pair of the map |
| TreePage.ArrowAt | src/pages/TreeData.tsx:85 | in `x->y` with x a rendered integer, the first `>` is right after `x-` |
| TreePage.EdgeIdInjective | src/pages/TreeData.tsx:85 | two edges have the same `source->target` id exactly when they join the same pair |
| TreePage.FlowNodes | src/pages/TreeData.tsx:95-117 | one node per machine-map entry in order: id, name, station number and machine id copied; position is the layout centre less (225, 25); category and colours from the rules |
| TreePage.FlowNodeIdsDistinct | src/pages/TreeData.tsx:95-98 | entries with different ids give flow nodes with different ids |
| TreePage.GetFlowElements | src/pages/TreeData.tsx:60-120 | nothing exactly when the data is absent; otherwise the nodes of `FlowNodes` and the edges the nested loop pushes |
| TreePage.StationEdgesStep | src/pages/TreeData.tsx:82-90 | one more input station appends its one edge |
| TreePage.EdgesOfStep | src/pages/TreeData.tsx:81-91 | one more node appends the edges of its input stations |
| TreePage.RemoveAll | src/pages/TreeData.tsx:147-149 | `filter(id => id !== m)` keeps exactly the other elements and never grows the list |
| TreePage.RemoveAllIdempotent | src/pages/TreeData.tsx:161-166 | filtering twice equals filtering once |
| TreePage.RenameNodes | src/pages/TreeData.tsx:172-181 | every node of the machine gets the new name and station number; other nodes, length and order are unchanged |
| TreePage.Edited | src/pages/TreeData.tsx:139-188 | BLUE/RED with the id not already in the target list: appended there and removed from the other; already there: both lists kept; WHITE: removed from both; any other colour: both kept; nodes renamed |
| TreePage.OnModalSave | src/pages/TreeData.tsx:139-188 | the updater's push-and-filter sequence returns exactly `Edited` |
| TreePage.EditKeepsExclusive | src/pages/TreeData.tsx:139-188 | an edit keeps "no id in both lists", and afterwards the machine is in the list its colour names and in no other |
| TreePage.EditIdempotent | src/pages/TreeData.tsx:139-188 | saving the same edit twice gives the state of saving it once |
| MainSlice.Reduce | src/reducers/mainSlice.ts:22-39 | each action sets its own field and no other |
| MainSlice.ReduceAllLastWins | src/reducers/mainSlice.ts:25-38 | after any run of actions each field holds the payload of the last action setting it, or its start value |
| MainSlice.ReduceAll | src/reducers/mainSlice.ts:22-39 | the state after a run of dispatches, oldest first (definition; `ReduceAllLastWins` states its meaning) |
| MainSlice.ReduceIdempotent | src/reducers/mainSlice.ts:25-38 | dispatching an action twice equals dispatching it once |
| MainSlice.MainState.constructor | src/reducers/mainSlice.ts:16-20 | the initial state: drawer closed, no time-series data, not loading |
| MainSlice.MainState.ToggleDrawer | src/reducers/mainSlice.ts:26-28 | sets `openDrawer` to the payload; the other fields are unchanged |
| MainSlice.MainState.SetTimeSeriesData | src/reducers/mainSlice.ts:29-34 | sets `timeSeriesData` to the payload; the other fields are unchanged |
| MainSlice.MainState.SetLoading | src/reducers/mainSlice.ts:35-37 | sets `loading` to the payload; the other fields are unchanged |
| MainSlice.MainState.Dispatch | src/reducers/mainSlice.ts:22-39 | the slice reducer's new state is `Reduce` of the old state |
| MainSlice.MainState.DispatchAll | src/reducers/mainSlice.ts:22-39 | a run of dispatches leaves `ReduceAll` of the old state |
| TreeSlice.Reduce | src/reducers/treeSlice.ts:13-24 | each action sets its own field and no other |
| TreeSlice.ReduceIdempotent | src/reducers/treeSlice.ts:17-22 | both transitions are idempotent |
| TreeSlice.SelectThenOpenCommute | src/reducers/treeSlice.ts:17-22 | selecting a node and opening the dialog commute |
| TreeSlice.TreeState.constructor | src/reducers/treeSlice.ts:9-11 | the initial state: dialog closed, no node selected |
| TreeSlice.TreeState.ToggleEditNodeModal | src/reducers/treeSlice.ts:17-19 | sets `openNodeModal` to the payload; the selected node is unchanged |
| TreeSlice.TreeState.UpdateSelectNode | src/reducers/treeSlice.ts:20-22 | sets `selectedNode` to the payload; the dialog flag is unchanged |
| TreeSlice.TreeState.Dispatch | src/reducers/treeSlice.ts:13-24 | the slice reducer's new state is `Reduce` of the old state |

## Left out

- The dagre layout is foreign code. The model takes each node's layout centre as a function of its id and models only the half-size offset. Node `type: "node"`, `borderRadius: 10` and `draggable: false` are constants of the rendered record and are not modelled.
- `fetch`, axios, the mock router and `TreeVisualization.ts` are I/O. Fixtures are parameters, and the services appear only in `ReceivedPredictions`.
- Date handling is foreign code: `new Date(s)`, `combineDateAndTimeToISO` (local time zone) and date-fns `addDays`.
  - Dates in the time pickers are epoch milliseconds or absent.
  - `new Date(s).getTime()` is the parameter `parseDate`.
- ScatterPage.GenerateXAxisTicks: a day is a fixed 86 400 000 ms. `addDays` follows local calendar days, so days of 23 or 25 hours across daylight-saving changes are not modelled.
- React state, effects and `startTransition` are not modelled. Examples: `setToolSequence` runs before the threshold loop can throw; `onSearch` reads `changeLogs[0]` before formatting.
- Distances, thresholds and time-series values are JavaScript numbers that are only copied. They are integers here.
- ScatterPage.FormatToolOptions: tool-sequence map values are integers here. The type allows `undefined` (and the JSON `null`), on which `value.toString()` throws, and a fractional value renders as e.g. `"1.5"`; neither case is modelled.
- MockScatterApi.EffectiveLimit: a fractional or infinite `limit` is not represented. `JsNumber` has only NaN and integers.
- MockScatterApi.AnomalyColour and MockScatterApi.GetCycleData: keys inherited from `Object.prototype` (such as `"toString"`) are not modelled. Only own keys of the lookup tables count.
- TimeseriesGraph.ToUpper: upper-cases ASCII letters only. JavaScript's full Unicode `toUpperCase` can change a string's length (`"ß"` gives `"SS"`), so the length and idempotence lemmas hold for this model, not for every Unicode input.
- Records keep only the fields the core reads or writes:
  - `AxisValue` holds only `{x, y, id}`, the fields `formatPredictionData` pushes.
  - `sequence`, `last_synced_time` and the other unused fields are dropped.
- `CustomTooltip` is not modelled, because it formats floats and dates for display. The other rendering components are not modelled either.
- The drill-down from a point to its time series is not modelled: no shown code calls `getTimeseriesData` or `setTimeSeriesData`.

## Findings

| source | as written | input that shows it | evidently intended | confidence | as-written member | corrected member |
|---|---|---|---|---|---|---|
| src/services/scatterData.ts:38 with src/backend/controllers/ScatterData.ts:134-137 | the service returns `res.data.Result`, but the `/predictions` handler replies `{Status: true, cycles}` and has no `Result`; a 400 makes the service return `undefined` too | any search, e.g. a machine with cycles in the window: the page receives `undefined` and plots three empty series | the page receives the machine's prediction data with the window's cycles and plots each cycle | not executed | ScatterPage.ReceivedPredictions, ScatterPage.SearchPlotAlwaysEmpty | ScatterPage.ReceivedPredictionsCorrected, ScatterPage.SearchPlotShowsWindow |
