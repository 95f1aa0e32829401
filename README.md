# ulog_explorer in Dafny

A model of the non-graphical core of ulog_explorer, a PX4 flight-log viewer. The model has three parts:

- **The curve selection and its colour palette** (`GUIBackend.py`).
  - The selection is an ordered list of curves. Each curve has a topic, a field, a combined `topic->field` name, a colour key and an RGB colour.
  - The palette is ten ordered colours `C0`..`C9`, each with an occupied flag.
  - These are the `Backend` class in `curves.dfy`. Its fields are the list and the palette, and its methods are `contains`, add, remove and clear.
  - The join and split on `"->"` that name a curve are pure functions.
- **The discrete parts of the dataset builder** (`GraphData.py`).
  - How the log's datasets become topic tables (`graphdata.dfy`).
  - The title.
  - VTOL transition edges (`transitions.dfy`).
  - The best-effort blocks of derived columns, the latitude/longitude anchor, `dt*` and the expansion of two bit words into 0/1 flag columns (`derive.dfy`).
  - The h:m:s arithmetic of the log summary (`loginfo.dfy`).
  - `GraphData` is a class whose `ulog_to_df` clears and refills its tables, copies the log's metadata, sets the title and the transition lists, and adds the derived fields.
- **The session callbacks of the main window** (`ulog_explorer.py`), with every Qt call removed (`explorer.dfy`).
  - A tree click toggles a field.
  - A list click removes the field named on the clicked row.
  - Clear and the menu toggles.
  - The auto-range policy of `update_frontend`.
  - The arrow keys.
  - The marker-line label (`marker.dfy`). It reads, for each curve, the sample at `argmax(index > t) - 1`, including Python's wrap-around of index -1. A `...flags` field also shows its value in binary.

Tables are `map<string, Table>`. A `Table` is an index of seconds plus named columns of `Int` or `Real` values. Every floating-point operation (norms, `arctan2`, angles, the map projection) is a `Numerics` parameter. The model follows which columns appear and their length, and gives the integer, index and string behaviour exactly; the three values it takes as exact rationals are named under "## Left out".

Common helpers are in `common.dfy` (Option/Result, decimal and binary numerals with their parsers) and `tables.dfy`.

Where the code's own comments or its documented behaviour differ from the code, the model follows the code:

- The forward-transition list keeps both edges of a flag that flips at samples 5 and 12. `pop(0)` removes the artificial row 0, which always compares unequal to the shifted-in missing value (`Transitions.FlipsAtFiveAndTwelve`).
- Without a `vehicle_status_0` table, `_get_transition_timestamps` raises out of `ulog_to_df`. It does not leave the lists empty, and the derived fields are then never added (`GraphData.GraphData.UlogToDf`).
- When the back-transition candidate list is empty, `pop(0)` raises after the forward list has been assigned (`Transitions.TransitionStep`).
- GUIBackend.py:59 comments that adding "returns false" when every colour is taken. The code instead raises at line 68, because `color_key` is unbound. The model returns `Err(PaletteFull)` and leaves the state unchanged.
- `auto_range` becomes true whenever the selection is empty at a frontend update, not only when it has just become empty.

## Model

| member | source | states |
|---|---|---|
| Curves.Combined | GUIBackend.py:96-97 | the `topic + "->" + field` join: `Separate` inverts it for separator-free names (`SeparateCombined`), where it is injective (`CombinedInjective`); with a separator inside a name two pairs collide (`CombinedCollision`) |
| Curves.Split | GUIBackend.py:101-102 | `split('->')`: at least one segment; exactly one when the string has no separator; the first segment is a separator-free prefix that ends at the first separator |
| Curves.Separate | GUIBackend.py:100-103 | raises exactly when there is no "->"; otherwise the two separator-free leading segments, whose join is a prefix of the input that ends at its end or at a separator |
| Curves.SeparateCombined | GUIBackend.py:96-103 | splitting `t + "->" + f` gives back `(t, f)` when neither name contains "->" |
| Curves.SeparateDropsTail | GUIBackend.py:100-103 | the segments after the second are dropped: a field holding "->" comes back cut at its first separator |
| Curves.CombinedInjective | GUIBackend.py:96-97 | without separators inside names, the combined name determines the pair |
| Curves.CombinedCollision | GUIBackend.py:96-97 | ("a->b", "c") and ("a", "b->c") share one combined name |
| Curves.NewCurveSplits | GUIBackend.py:87-93 | a curve's stored combined name always splits, and gives back its own pair when the names hold no separator |
| Curves.NewCurve | GUIBackend.py:87-93 | the curve entry: topic, field, their combined name, colour key and RGB; its stored name splits back to the pair (`NewCurveSplits`) |
| Curves.PaletteKeysDistinct | GUIBackend.py:30-39 | ten palette keys, ten colours, all keys distinct |
| Curves.AllFree | GUIBackend.py:29-41 | the initial palette has exactly the ten keys, none occupied |
| Curves.FirstFree | GUIBackend.py:61-66 | the first free colour in C0..C9 order at or after a position, or none when every later one is occupied |
| Curves.Consistent | GUIBackend.py:60-83 | the backend invariant: exactly the ten palette keys, each entry's name is its pair's join and its key and RGB are one palette entry, entries hold distinct colour keys, and a colour is occupied exactly when an entry holds it; `Backend.Add`, `Backend.Remove` and `Backend.Clear` keep it |
| Curves.OccupiedCountIsLength | GUIBackend.py:60-83 | under the invariant, the number of occupied colours equals the number of curves |
| Curves.PaletteFullIffTenEntries | GUIBackend.py:60-68 | under the invariant, no colour is free exactly when ten curves are selected |
| Curves.Filter | GUIBackend.py:71-78 | the reference removal: every entry without a match, in order, and no match is left |
| Curves.SweepRemove | GUIBackend.py:71-78 | the list the pop-while-iterating loop leaves: equal to `Filter` when at most one entry matches (`SweepIsExactWhenUnique`), but an entry right after a popped one is skipped (`SweepSkipsAdjacentDuplicate`); kept entries come from the list (`SweepKeepsEntries`) |
| Curves.SweepPopped | GUIBackend.py:71-78 | the entries that loop pops: with the kept ones they cover the list's colours (`SweepCoversImage`), and on distinct colours the two are disjoint (`SweepSeparates`) |
| Curves.SweepIsExactWhenUnique | GUIBackend.py:71-78 | with at most one matching entry, the pop-while-iterating sweep equals the reference removal and pops exactly the matches; with none it changes nothing |
| Curves.SweepSkipsAdjacentDuplicate | GUIBackend.py:72-78 | two adjacent entries for the same pair: only the first is removed |
| Curves.UniqueNamesAtMostOneMatch | GUIBackend.py:51-78 | distinct combined names, which callers keep by checking `contains` before adding, leave at most one entry per pair |
| Curves.SweepKeepsConsistent | GUIBackend.py:71-78 | removal with the popped colours freed keeps the invariant, and keeps names distinct when they were |
| Curves.AppendKeepsConsistent | GUIBackend.py:60-68 | appending with the first free colour and occupying it keeps the invariant; names stay distinct when the new one was absent |
| Curves.AddThenRemove | GUIBackend.py:60-78 | adding an unselected pair and then removing it restores the list and the palette |
| Curves.ContainsIffPairPresent | GUIBackend.py:51-57 | `contains` on names agrees with pair equality when no name holds "->" |
| Curves.ContainsWithoutPair | GUIBackend.py:51-78 | a curve ("a->b", "c") makes `contains("a", "b->c")` true, while removing ("a", "b->c") finds nothing |
| Curves.Backend.constructor | GUIBackend.py:7-41 | empty list, all colours free, symbol none, width 1, auto-range on, every display flag off, mode "2D"; plus the marker-line and secondary-graph flags the window reads, both false (see "## Left out") |
| Curves.Backend.Contains | GUIBackend.py:51-57 | true exactly when some stored combined name equals `topic->field` |
| Curves.Backend.Add | GUIBackend.py:60-68 | raises exactly when no colour is free, changing nothing; otherwise occupies the first free colour and appends one curve with that key and RGB, earlier entries unchanged; keeps the invariant |
| Curves.Backend.Remove | GUIBackend.py:71-78 | the list becomes the sweep's result and exactly the popped curves' colours are freed; keeps the invariant and distinct names |
| Curves.Backend.Clear | GUIBackend.py:80-83 | empty list and the all-free palette (so clearing twice is clearing once) |
| Common.IntToStringRoundTrip | GraphData.py:69 | the decimal text of an integer parses back to it |
| Common.IntToBinaryRoundTrip | ulog_explorer.py:175 | the `{0:b}` text of an integer, sign included, parses back to it |
| Tables.TruncToInt | GraphData.py:69 | `int()` of a float truncates toward zero |
| Tables.IntOfIntegral | GraphData.py:69 | `int()` of an integral value is that integer |
| Tables.SetColumn | GraphData.py:49 | `df[name] = col` adds or replaces one column and keeps the index and every other column |
| GraphData.TopicKey | GraphData.py:45 | `name + "_" + str(multi_id)`, which determines name and multi id (`TopicKeyInjective`) |
| GraphData.TopicKeyInjective | GraphData.py:45 | `name + "_" + str(multi_id)` determines name and multi id |
| GraphData.TableOf | GraphData.py:46-49 | one dataset as a frame indexed by `timestamp / 1e6`; its columns, length and alignment in `TableOfShape` |
| GraphData.TableOfShape | GraphData.py:46-49 | a dataset's frame has every data key but timestamp as a column, as many rows as timestamps, and is aligned |
| GraphData.TablesOf | GraphData.py:44-51 | the tables the loop leaves are aligned when the datasets are well shaped |
| GraphData.TablesOfKeys | GraphData.py:44-51 | there is a table for each dataset's key and for no other key |
| GraphData.TablesOfLastWins | GraphData.py:44-51 | the table under a key is that of the last dataset with that key |
| GraphData.TitleOf | GraphData.py:66-69 | the logfile string, plus " (id)" when AIRCRAFT_ID is set (`TitleOfSpec`) |
| GraphData.TitleOfSpec | GraphData.py:66-69 | the title starts with the logfile string, has more exactly when AIRCRAFT_ID is set, and then ends in " (id)" whose digits read back as `int(AIRCRAFT_ID)` |
| GraphData.BuildTable | GraphData.py:46-49 | the column-by-column loop builds exactly the dataset's frame |
| GraphData.SelectRows | GraphData.py:308-318 | `index[mask].tolist()`: the timestamps of the selected rows, in row order |
| GraphData.GraphData.constructor | GraphData.py:8-37 | empty tables, parameters, lists, path and title; marker line hidden at 0 |
| GraphData.GraphData.SetTitle | GraphData.py:66-69 | the title is the logfile string with the aircraft id appended when set |
| GraphData.GraphData.GetTransitionTimestamps | GraphData.py:306-320 | the transition lists and the outcome are those of `TransitionStep` on the tables and the previous lists |
| GraphData.GraphData.AddAllFieldsToDf | GraphData.py:72-237 | the tables become `AllFields` of the old ones; still aligned |
| GraphData.GraphData.AddFieldsUnlessRaised | GraphData.py:62-64 | the derived fields are added only when the transition step did not raise |
| GraphData.GraphData.UlogToDf | GraphData.py:40-64 | the tables are the log's topic tables, with derived fields exactly when the transition step passed; metadata and title copied; transition lists and outcome as `TransitionStep` gives them; path and marker untouched |
| GraphData.GraphData.Reload | GraphData.py:40-63 | everything `ulog_to_df` does before the derived fields |
| GraphData.GraphData.CopyMetadata | GraphData.py:53-57 | parameters, messages and start and end timestamps copied from the log |
| GraphData.GraphData.LoadTables | GraphData.py:41-51 | the tables are cleared, then hold exactly the tables of the datasets by key |
| Transitions.ChangeMask | GraphData.py:308 | `ne(shift())`: row 0 is always a change; row i is one exactly when it differs from row i-1 |
| Transitions.BackMask | GraphData.py:312-317 | a change of in_transition_mode with is_rotary_wing equal to True |
| Transitions.Positions | GraphData.py:308-318 | the rows a mask selects, each once, in increasing order |
| Transitions.At | GraphData.py:308-318 | the timestamps of the given rows |
| Transitions.ForwardRows | GraphData.py:308-309 | the changed rows of in_transition_to_fw after `pop(0)`, each a row of the column |
| Transitions.ForwardRowsAreEdges | GraphData.py:308-310 | `pop(0)` drops exactly the artificial row 0: the forward rows are the rows i ≥ 1 that differ from row i-1, increasing |
| Transitions.BackRows | GraphData.py:318-319 | the back candidates after `pop(0)`, or none when the pop raises; each a row of the column |
| Transitions.BackRowsSpec | GraphData.py:312-320 | the pop raises exactly when no row is a rotary-wing change. A log that starts rotary-wing gives every rotary-wing edge. Otherwise the back rows are exactly the rotary-wing edges except the first |
| Transitions.TransitionStep | GraphData.py:306-320 | raises, keeping both lists, without vehicle_status_0, in_transition_mode or, when there is activity, in_transition_to_fw; keeps both lists without activity (`NoActivityKeepsLines`); otherwise replaces the forward list with the edge timestamps (`ForwardTimestamps`) before the back step, which raises without is_rotary_wing or a candidate and else sets the back list (`BackRowsSpec`) |
| Transitions.NoActivityKeepsLines | GraphData.py:307 | with no transition activity both lists keep their old values and nothing raises |
| Transitions.ForwardTimestamps | GraphData.py:307-310 | with activity the forward list is the set of edge timestamps, and it is replaced even when the back step raises |
| Transitions.FlipsAtFiveAndTwelve | GraphData.py:308-309 | a flag flipping at samples 5 and 12 gives forward rows [5, 12] |
| Derive.Compute | GraphData.py:73-156 | a derived column has one value per row, each from the input columns' values in that row |
| Derive.RunStepsAddsPrefix | GraphData.py:73-156 | a try block adds exactly the outputs of the steps that completed, and keeps the index |
| Derive.RunStepsKeepsColumns | GraphData.py:73-156 | a column no completed step writes keeps its values, so logged columns are never removed |
| Derive.RunStepsStops | GraphData.py:73-156 | a block that stops early stops at a step whose input is missing, and the result is that of the earlier steps alone |
| Derive.AvailableInputsCompleteBlock | GraphData.py:73-156 | when each input is logged or computed earlier in the block, the whole block completes |
| Derive.WindMagnitudeSurvives | GraphData.py:88-94 | the wind magnitude stays when the variance fields are missing |
| Derive.YawPitchRoll | GraphData.py:289-304 | the six angle steps from `suffix[0..3]`: their outputs in `YawPitchRollOutputs`, and all complete when the quaternion is logged (`YawPitchRollComplete`) |
| Derive.YawPitchRollComplete | GraphData.py:289-304 | with the four quaternion columns, all six angle columns appear |
| Derive.YawPitchRollOutputs | GraphData.py:296-302 | the angle columns are named `suffix + "_yaw312*"` and the rest, with " [deg]" variants |
| Derive.FirstNonZero | GraphData.py:249-252 | the first row with a nonzero value, if any |
| Derive.AnchorRows | GraphData.py:243-254 | the reference rows for the anchor latitude and longitude, if any (`AnchorRowsSpec`) |
| Derive.AnchorRowsSpec | GraphData.py:243-254 | both anchors come from the first nonzero ref_timestamp row of vehicle_local_position_0 when ref_lat and ref_lon are there; ref_lat alone gives only the latitude anchor; a longitude anchor never comes without a latitude anchor |
| Derive.LatLonM | GraphData.py:239-258 | the projection of one lat/lon pair (`LatLonMColumns`, `LatLonMAnchors`) |
| Derive.LatLonMColumns | GraphData.py:239-258 | `lat+"_m*"` and `lon+"_m*"` appear exactly when the table and non-empty columns exist; nothing else changes |
| Derive.LatLonMAnchors | GraphData.py:240-258 | row i of the outputs holds the projection of row i's radians about the anchor, which is the reference row's `ref_lat`/`ref_lon` where `AnchorRows` gives one and otherwise row 0's own latitude/longitude |
| Derive.AddDt | GraphData.py:188-193 | `dt*` is added to a non-empty sensor_combined_0 and nothing else changes; its values in `DtColumn` and `DtTelescopes`, its effect on the tables in `AddDtGrows` |
| Derive.DtColumn | GraphData.py:188-193 | as long as the index, 0 first, then `(t[i]-t[i-1])*1e6` |
| Derive.DtTelescopes | GraphData.py:191 | the first n entries of `dt*` sum to the time covered by the first n rows, in microseconds |
| Derive.FlagColumn | GraphData.py:199-234 | `((2**k & v) > 0) * 1`: 1 exactly where bit k is set, row by row |
| Derive.IntColumn | GraphData.py:197-224 | a flag word can be bit-tested exactly when every value is an integer, and then gives those integers |
| Derive.AddFlagsSpec | GraphData.py:199-234 | column names[k] holds bit k for every k; other columns and the index stay |
| Derive.FlagNamesDistinct | GraphData.py:199-234 | the 24 and 10 flag names are 34 distinct columns |
| Derive.FlagTable | GraphData.py:196-237 | the estimator_flags* frame: contents in `FlagTableBits`, alignment in `FlagTableAligned` |
| Derive.FlagTableBits | GraphData.py:196-237 | the flag table has estimator_status_0's rows, column k of each group is bit k of its word, and the GPS group is present exactly when its word could be read |
| Derive.FlagTableAligned | GraphData.py:196-237 | every flag column has one value per row |
| Derive.EstimatorFlags | GraphData.py:195-237 | the flag block: its table in `EstimatorFlagsBits`, its effect on the rest in `EstimatorFlagsGrows` |
| Derive.EstimatorFlagsBits | GraphData.py:196-237 | `estimator_flags*` holds the 24 CS_* columns of control_mode_flags, plus the 10 GPS_CHECK_FAIL_* columns when that word is readable |
| Derive.ReassembleBits | GraphData.py:199-222 | the bits tested for k < n, weighted by 2^k, give back v mod 2^n, negative words included |
| Derive.ControlFlagsRoundTrip | GraphData.py:199-222 | the bits behind the 24 control-status flags give back the word mod 2^24 |
| Derive.SensorBlocks | GraphData.py:73-156 | the norm, wind, velocity, state and innovation try blocks in source order, each as `RunStepsAddsPrefix`, `RunStepsKeepsColumns` and `RunStepsStops` describe (`SensorBlocksGrow`) |
| Derive.AttitudeBlocks | GraphData.py:158-163 | the five yaw/pitch/roll calls (`AttitudeBlocksGrow`) |
| Derive.PositionBlocks | GraphData.py:165-186 | the four lat/lon calls (`PositionBlocksGrow`) |
| Derive.AllFields | GraphData.py:72-237 | `_add_all_fields_to_df`: sensor, attitude, position, `dt*` and flag blocks in source order (`AllFieldsGrows`) |
| Derive.SensorBlocksGrow | GraphData.py:73-156 | the norm, wind, velocity, state and innovation blocks keep every table, its index and its column names, and keep tables aligned |
| Derive.AttitudeBlocksGrow | GraphData.py:158-163 | the five yaw/pitch/roll calls keep every table, index and column name, and alignment |
| Derive.LatLonMGrows | GraphData.py:239-258 | the projection keeps every table, index and column name, and alignment |
| Derive.PositionBlocksGrow | GraphData.py:165-186 | the four lat/lon calls keep every table, index and column name, and alignment |
| Derive.AddDtGrows | GraphData.py:188-193 | adding `dt*` keeps every table, index and column name, and alignment |
| Derive.EstimatorFlagsGrows | GraphData.py:195-237 | the flag block keeps every table but `estimator_flags*` with its index and column names, and keeps alignment |
| Derive.AllFieldsGrows | GraphData.py:72-237 | `_add_all_fields_to_df` never removes a table, and never removes a column or changes an index of any table but `estimator_flags*`; it keeps every table aligned |
| LogInfo.Seconds | GraphData.py:326 | `int(t / 1e6)`, truncating toward zero (`SecondsOfNonNegative`) |
| LogInfo.StartTime | GraphData.py:326-327 | the h:m:s of the start time, as `Hms` states |
| LogInfo.Duration | GraphData.py:328-329 | the h:m:s of the log's length (`DurationSeconds`) |
| LogInfo.MessageTime | GraphData.py:377-378 | the h:m:s of a logged message (`MessageTimeSeconds`) |
| LogInfo.SecondsOfNonNegative | GraphData.py:326 | `int(t / 1e6)` is the floor for non-negative t |
| LogInfo.Hms | GraphData.py:326-327 | `h*3600 + m*60 + s` is the seconds value, with 0 ≤ m, s < 60 |
| LogInfo.HmsUnique | GraphData.py:326-327 | that decomposition is the only one with m and s below 60 |
| LogInfo.DivModUnique | GraphData.py:326-329 | quotient and remainder of `divmod` are unique |
| LogInfo.DurationSeconds | GraphData.py:328-329 | the duration's h:m:s gives back the whole seconds between start and end |
| LogInfo.MessageTimeSeconds | GraphData.py:377-378 | a message's h:m:s gives back `floor(t / 1e6)`, with non-negative hours |
| Marker.FirstAbove | ulog_explorer.py:171 | the first position whose timestamp exceeds t, or the length when none does |
| Marker.FirstAfter | ulog_explorer.py:171 | `argmax(index > t)`: the first True, and 0 when there is none |
| Marker.MarkerRow | ulog_explorer.py:171-172 | no row exactly for an empty index; otherwise a valid row |
| Marker.MarkerRowIsLastAtOrBefore | ulog_explorer.py:171-172 | on a sorted index with t at or after the first sample, the row read is the last sample at or before t |
| Marker.MarkerRowWraps | ulog_explorer.py:171-172 | before the first sample the lookup wraps to the last one |
| Marker.IsFlagsField | ulog_explorer.py:174 | the `[-5:] == 'flags'` test (`IsFlagsFieldSpec`) |
| Marker.IsFlagsFieldSpec | ulog_explorer.py:174 | the `[-5:] == 'flags'` test holds exactly for names ending in "flags" |
| Marker.ValueText | ulog_explorer.py:173-175 | the value text of one curve (`ValueTextSpec`) |
| Marker.ValueTextSpec | ulog_explorer.py:173-175 | the text starts with `str(value)` and has more exactly for a flags field: " (binary)" that reads back as `int(value)` |
| Marker.LabelLine | ulog_explorer.py:170-177 | one curve's line raises exactly when its table is missing, its index is empty or its column is missing, with that error |
| Marker.LabelLines | ulog_explorer.py:169-177 | the curve lines in list order, ending at the first that raises (`LabelLinesError`, `LabelLinesAppend`, `LabelLinesFirstProblem`) |
| Marker.FirstProblem | ulog_explorer.py:170-177 | the position of the first curve whose line cannot be written |
| Marker.LabelLinesError | ulog_explorer.py:170-177 | the label raises exactly when some curve's line does, with the first such curve's error |
| Marker.LabelLinesAppend | ulog_explorer.py:170-177 | a writable curve appends its line to the label so far |
| Marker.LabelLinesFirstProblem | ulog_explorer.py:170-177 | the first unwritable curve decides the whole label |
| Marker.Label | ulog_explorer.py:166-179 | the header followed by the curve lines, or the first line's error; `Explorer.Explorer.UpdateMarkerLineStatus` computes it |
| Explorer.AutoRangeStep | ulog_explorer.py:472-478 | the view is auto-ranged exactly when the selection is non-empty and the flag is set; the flag is then set exactly when the selection is empty |
| Explorer.AutoRangeSettles | ulog_explorer.py:472-478 | a second update with the same selection does not auto-range again |
| Explorer.BoldToggled | ulog_explorer.py:217-223 | the width becomes 3 exactly from 1, otherwise 1 |
| Explorer.BoldToggleTwice | ulog_explorer.py:217-223 | twice gives back widths 1 and 3; any other width becomes 3 |
| Explorer.MarkerToggled | ulog_explorer.py:209-215 | no symbol becomes 'o', any symbol becomes none |
| Explorer.MarkerToggleTwice | ulog_explorer.py:209-215 | twice gives back none and 'o' |
| Explorer.ArrowMoved | ulog_explorer.py:319-328 | a shown marker moves by -1 or +1; a hidden one stays |
| Explorer.ArrowsCancel | ulog_explorer.py:319-328 | left then right, or right then left, gives the position back |
| Explorer.ClickField | ulog_explorer.py:386-403 | a field click removes a selected field or adds an unselected one; a raise changes nothing |
| Explorer.ClickFieldOutcome | ulog_explorer.py:386-403 | a click raises exactly when the field is unselected and the palette is full; an added field is appended with a colour that was free and is now occupied |
| Explorer.ClickTwiceRestores | ulog_explorer.py:386-403 | clicking an unselected field twice with a free colour gives back the selection and the palette |
| Explorer.Explorer.constructor | ulog_explorer.py:142 | the marker line starts at 300 with an empty label |
| Explorer.Explorer.UpdateFrontend | ulog_explorer.py:472-478 | the flag and the auto-range count change as `AutoRangeStep` says |
| Explorer.Explorer.TopicTreeClicked | ulog_explorer.py:386-403 | a topic row changes nothing; a field row changes the selection as `ClickField` says, the frontend is updated unless adding raised, and names stay distinct |
| Explorer.Explorer.FieldClicked | ulog_explorer.py:393-403 | the selection and palette change as `ClickField` says and the method raises exactly when it does; after a raise the auto-range state is untouched, otherwise the flag is set exactly when the selection is empty; names stay distinct |
| Explorer.Explorer.SelectedFieldsListClicked | ulog_explorer.py:375-380 | raises, changing nothing, exactly when the text has no "->"; otherwise removes the named pair and updates |
| Explorer.Explorer.ClearPlot | ulog_explorer.py:382-384 | empty selection, all colours free, auto-range armed |
| Explorer.Explorer.ToggleRescaleCurves | ulog_explorer.py:204-207 | rescaling flips; auto-range is requested and at once used by a non-empty selection |
| Explorer.Explorer.ToggleMarker | ulog_explorer.py:209-215 | the symbol toggles; nothing else but the auto-range step |
| Explorer.Explorer.ToggleBold | ulog_explorer.py:217-223 | the width toggles |
| Explorer.Explorer.ToggleTitle | ulog_explorer.py:225-227 | the title flag flips |
| Explorer.Explorer.ToggleLegend | ulog_explorer.py:229-231 | the legend flag flips |
| Explorer.Explorer.ToggleTransitionLines | ulog_explorer.py:233-235 | the transition-lines flag flips |
| Explorer.Explorer.ToggleRoi | ulog_explorer.py:249-257 | the region flag flips |
| Explorer.Explorer.ToggleMarkerLine | ulog_explorer.py:237-247 | the marker-line flag flips and the marker moves to the middle of the view |
| Explorer.Explorer.ToggleSecondaryGraph | ulog_explorer.py:196-202 | the trajectory flag flips; turning it on with the marker line hidden shows the marker line, centred |
| Explorer.Explorer.ArrowKey | ulog_explorer.py:319-328 | with the marker line shown, the marker moves one second and the label is rebuilt for the new position; otherwise nothing changes |
| Explorer.Explorer.UpdateMarkerLineStatus | ulog_explorer.py:166-179 | the label becomes the header plus one line per curve when every line can be written; otherwise the first failing curve's error is returned and the label is unchanged |

## Left out

- Floating-point values: every norm, `arctan2`, `arcsin`, degree conversion and the map projection (`_map_projection`, GraphData.py:261-287) is the `Numerics` parameter applied row by row, so for those columns only the names, presence and length are modelled.
- Three values that the source computes in float64 are exact rationals in the model: the index `timestamp / 1e6` (GraphData.py:46), the `dt*` differences (GraphData.py:191) and `int(t / 1e6)` (GraphData.py:326, 328, 377). They agree with float64 for timestamps far below 2^53 µs.
- The pyulog parser (GraphData.py:43): the log is a `ULog` value carrying the datasets, parameters, messages and timestamps. Dropouts and the info dictionaries (GraphData.py:58-61) are not stored.
- GraphData.TablesOf iterates the datasets in the order given, not in the sorted order of GraphData.py:44. Keys determine name and multi id (`TopicKeyInjective`), so with the parser's distinct (name, multi id) pairs the order changes nothing.
- The printing of `ulog_info` and `ulog_messages` (GraphData.py:322-380), beyond the h:m:s arithmetic.
- All Qt and pyqtgraph code: window and widget construction, plotting, the legend, the tree, the file dialog and the rest of `update_frontend`.
  - The auto-range call is counted in `autoRanges`.
  - Explorer.Explorer.UpdateFrontend models only the auto-range step (ulog_explorer.py:472-478).
- As written, the window reads backend attributes that `GUIBackend.__init__` (GUIBackend.py:7-43) never creates.
  - `show_marker_line` and `show_secondary_graph` are read at ulog_explorer.py:197, 199, 238, 320, 326 and 459 before anything assigns them.
  - `df_dict` is read at line 421 whenever the selection is non-empty.
  - `forward_transition_lines` is read at line 444 whenever transition lines are shown.
  - So every `update_frontend` raises AttributeError: at 421 with a non-empty selection, at 444 with transition lines shown, otherwise at 459. This comes before the auto-range step (473-478) and the label refresh (484).
  - The `update_frontend()` that ends `Window.__init__` (line 164) raises the same way, as does every click and toggle, which all end with `update_frontend`. The marker-line and secondary-graph toggles, and the arrow keys, already raise at their first read of `show_marker_line` / `show_secondary_graph`.
  - The model adds `showMarkerLine` and `showSecondaryGraph` to `Backend`, both starting false. No callback raises an AttributeError in it. `UpdateFrontend` carries out the auto-range step, and the marker label takes the tables as a parameter.
- Explorer.Explorer.UpdateFrontend leaves out the label refresh at ulog_explorer.py:484, which as written is never reached (see above). In the model `markerLabel` changes only through `ArrowKey`.
- Explorer.Explorer.constructor leaves out the `update_frontend()` call that ends `Window.__init__` (ulog_explorer.py:164). As written, that call raises at line 459.
- Explorer.Explorer.ToggleRoi: placing the region on the middle half of the view (ulog_explorer.py:252-256) is not modelled.
- Explorer.Explorer.ToggleMarkerLine: the midpoint of the view is the parameter `mid`.
- Explorer.Explorer.UpdateMarkerLineStatus takes three things as parameters:
  - the tables, which the method receives explicitly because the window reads `backend.df_dict` and the backend has none;
  - `str(value)`, as `show`;
  - the "t = {:0.2f}" header, as `header`.
- Explorer.Explorer.UpdateMarkerLineStatus builds the label as the header plus the finished lines, not by appending to a string.
- Explorer.Explorer.UpdateMarkerLineStatus leaves out the trajectory arrow (ulog_explorer.py:181-187). As written, that code reads a `'yaw321* [deg]'` column, which no derivation creates; `_add_yaw_pitch_roll` names its output `'q_yaw312* [deg]'`.
- Explorer.Explorer.ArrowKey returns `Ok` once the label is written. In the source `update_marker_line_status` then goes on, because the marker line is shown. It reads the trajectory columns at ulog_explorer.py:182-186, and the `'yaw321* [deg]'` lookup raises a KeyError there. A missing vehicle_local_position_0 or vehicle_attitude_0 raises a KeyError too. So for a log without that column, the arrow keys, and every `update_frontend` while the marker line is shown, end in that exception after the label has been set.
- `GUIBackend.load_ulog_to_graph_data` (GUIBackend.py:45-48) calls `add_all_fields_to_df` and `get_transition_timestamps`, but GraphData defines them only with a leading underscore, so it raises. It is not modelled; the backend and GraphData are modelled independently.
- Derive.AddDt leaves a sensor_combined_0 with no rows unchanged. In pandas, assigning the one-element `dt*` value to the empty frame adopts that value's index: the frame becomes one row at index 0, with NaN in every logged column and `dt*` equal to 0. `Value` has no NaN. pyulog gives datasets only for topics that logged data, so the case needs an empty dataset. `Derive.AddDtGrows` and `Derive.AllFieldsGrows` are statements about the model's `AddDt`; for that frame the source changes the index.
- The rendering handles of `GraphData.__init__` (GraphData.py:21-30) are not modelled.
- The ROI statistics (ulog_explorer.py:338-347), the rescale normalisation (ulog_explorer.py:423-424) and the keyboard shortcuts other than the arrow keys are not modelled.
