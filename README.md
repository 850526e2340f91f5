# RaceMultiTimer timing core in Dafny

A Dafny model of the timing core of RaceMultiTimer, a multi-lane stopwatch
for coaches: the lane timer engine of `RaceTimerViewModel`, the `Lane`
getters, the `TimeUtils` formatters, the pace-split table of `PaceMarker`,
the `IdGenerator` counter, and the pure helpers of the dialogs, the control
bar and the pace bar. Every member is proved against a specification.

## Modules

| file | module | what it holds |
|---|---|---|
| `wrappers.dfy` | `Wrappers` | `Option`, standing for Kotlin's nullable values |
| `arith.dfy` | `Arith` | Kotlin's truncating `/` and `%` (`Quot`, `Rem`) and their bounds |
| `text.dfy` | `Text` | decimal printing, `padStart`, `toIntOrNull`, `trim`/`isBlank`, and digit runs used to read formatted text back |
| `seqs.dfy` | `Seqs` | `filter`, `sorted`, `distinct`, and the `removeAt`/`add` move |
| `models.dfy` | `Models` | laps, lanes and their getters, colours, presets, race events, split intervals, pace markers, coach notes |
| `time_utils.dfy` | `TimeUtils` | `formatTime`, `formatLapTime` and `formatDuration`, each with a read-back lemma |
| `pace.dfy` | `Pace` | `getSplits` (a loop, proved equal to the split table `Splits`) and `formatSplitLabel` |
| `lanes.dfy` | `Lanes` | the pure lane transforms: start, stop, lap (100 ms debounce), reset, renumbering, colour choice, removal |
| `id_generator.dfy` | `IdGen` | the `IdGenerator` object as a class with a counter field |
| `engine.dfy` | `Engine` | `RaceTimerState` and every transition as a function on it, with the state invariant `Valid` |
| `view_model.dfy` | `ViewModel` | `RaceTimerViewModel` as a class: the state, the shared id generator and the countdown and rest jobs as fields; one method per event, plus `OnEvent` |
| `dialogs.dfy` | `Dialogs` | preset labels, marker times, rest-dialog steppers and preset merge, and `generateResults` as a builder loop |
| `control_bar.dfy` | `ControlBar` | the toolbar's enable flags, the countdown overlay label, `formatRestTime` |
| `pace_maker_bar.dfy` | `PaceMakerBar` | `formatPaceTime`, the split row with its dividers, and `MarkersSection` |

The state invariant (`Engine.Valid`) says the following:
- each lane runs exactly when it has a start time;
- each lane's paused time is non-negative;
- each lane's lap list is well formed: laps are numbered 1..n, each lap is at least 100 ms, and each duration is the gap from the previous lap (so, by `Models.DurationsSum`, the durations add up to the last elapsed time);
- lane positions are 1..n in list order;
- lane ids are distinct;
- the custom rest presets are strictly ascending and positive.

The view model's invariant (`ViewModel.Inv`) adds two conditions:
- every running lane started no later than the latest clock reading;
- every lane id was issued by the generator.

From these it follows that a newly generated id never collides with a current lane.

Formatted text is read back through its maximal digit runs (`Text.Runs`,
`Text.Values`) and the characters between them (`Text.NonDigits`). A
read-back lemma therefore says that the printed fields hold the intended
numbers and, together, give back the duration.

## Model

| member | source | states |
|---|---|---|
| `Models.LaneColorsComplete` | composeApp/src/commonMain/kotlin/io/github/warforged5/racemultitimer/domain/Models.kt:65-80 | The palette has ten colours, no colour twice and every colour of the enumeration in it, in declaration order. |
| `Models.Lane.CurrentElapsedTime` | composeApp/src/commonMain/kotlin/io/github/warforged5/racemultitimer/domain/Models.kt:33-38 | A running lane with a start time shows the paused time plus the time since its start; otherwise exactly the paused time. |
| `Models.Lane.LastLapTime` | composeApp/src/commonMain/kotlin/io/github/warforged5/racemultitimer/domain/Models.kt:40-41 | The elapsed time of the last recorded lap, 0 with no laps. |
| `Models.Lane.CurrentLapDuration` | composeApp/src/commonMain/kotlin/io/github/warforged5/racemultitimer/domain/Models.kt:43-44 | The current lap is the elapsed time itself before the first lap, else the elapsed time minus the last lap's elapsed time. |
| `Models.Lane.LapCount` | composeApp/src/commonMain/kotlin/io/github/warforged5/racemultitimer/domain/Models.kt:46-47 | The number of recorded laps. |
| `Models.Lane.AverageLapTime` | composeApp/src/commonMain/kotlin/io/github/warforged5/racemultitimer/domain/Models.kt:49-52 | 0 without laps; otherwise, for a non-negative total, the total of the lap durations divided by the lap count, rounded down. |
| `Models.Lane.BestLapTime` | composeApp/src/commonMain/kotlin/io/github/warforged5/racemultitimer/domain/Models.kt:54-55 | None exactly without laps, else a recorded lap duration no longer than any other. |
| `Models.Lane.WorstLapTime` | composeApp/src/commonMain/kotlin/io/github/warforged5/racemultitimer/domain/Models.kt:57-58 | None exactly without laps, else a recorded lap duration no shorter than any other. |
| `Models.NewLane` | composeApp/src/commonMain/kotlin/io/github/warforged5/racemultitimer/domain/Models.kt:22-31 | A lane built from id, name, position and colour is stopped, has no start time, no paused time and no laps. |
| `Models.MinDuration` | composeApp/src/commonMain/kotlin/io/github/warforged5/racemultitimer/domain/Models.kt:54-55 | None exactly without laps; otherwise a lap's duration that is no longer than any lap (the best lap). |
| `Models.MaxDuration` | composeApp/src/commonMain/kotlin/io/github/warforged5/racemultitimer/domain/Models.kt:57-58 | None exactly without laps; otherwise a lap's duration that is no shorter than any lap (the worst lap). |
| `Models.BestNotAboveWorst` | composeApp/src/commonMain/kotlin/io/github/warforged5/racemultitimer/domain/Models.kt:54-58 | Best and worst lap exist together, and the best is never longer than the worst. |
| `Models.ElapsedMonotone` | composeApp/src/commonMain/kotlin/io/github/warforged5/racemultitimer/domain/Models.kt:33-38 | Displayed elapsed time never goes down as the clock moves forward, and is frozen while the lane is stopped. |
| `Models.LapsSpaced` | composeApp/src/commonMain/kotlin/io/github/warforged5/racemultitimer/domain/Models.kt:11-16 | In a lap list built by the debounced lap recorder, lap j was recorded at least 100 ms per lap after lap i. |
| `Models.DurationsSum` | composeApp/src/commonMain/kotlin/io/github/warforged5/racemultitimer/domain/Models.kt:11-16 | The lap durations of such a list add up to the elapsed time of its last lap. |
| `Models.SumAtLeast` | composeApp/src/commonMain/kotlin/io/github/warforged5/racemultitimer/domain/Models.kt:11-16 | Every lap of such a list lasts at least 100 ms, so the durations sum to at least 100 ms per lap. |
| `Models.AverageAtLeastDebounce` | composeApp/src/commonMain/kotlin/io/github/warforged5/racemultitimer/domain/Models.kt:49-52 | With at least one lap, the average and the best lap are both at least the 100 ms debounce. |
| `Models.RaceEvent.DistanceMeters` | composeApp/src/commonMain/kotlin/io/github/warforged5/racemultitimer/domain/Models.kt:223-236 | Every race event is at least 100 m long (the distances of the enumeration). |
| `Models.SplitInterval.DistanceMeters` | composeApp/src/commonMain/kotlin/io/github/warforged5/racemultitimer/domain/Models.kt:242-248 | Every split interval is at least 100 m long, so split counting divides by a positive length. |
| `TimeUtils.SecondsSplit` | composeApp/src/commonMain/kotlin/io/github/warforged5/racemultitimer/domain/Models.kt:175-178 | Whole seconds split into hours, minutes below 60 and seconds below 60 add back up to the whole seconds. |
| `TimeUtils.FormatTime` | composeApp/src/commonMain/kotlin/io/github/warforged5/racemultitimer/domain/Models.kt:139-159 | Defines formatTime; `FormatTimeReadsBack` and `CentisecondsExtendClock` state its layouts. |
| `TimeUtils.FormatLapTime` | composeApp/src/commonMain/kotlin/io/github/warforged5/racemultitimer/domain/Models.kt:161-172 | Defines formatLapTime; `FormatLapTimeReadsBack` states its two layouts. |
| `TimeUtils.FormatDuration` | composeApp/src/commonMain/kotlin/io/github/warforged5/racemultitimer/domain/Models.kt:174-185 | Defines formatDuration; `FormatDurationReadsBack` states its three layouts. |
| `TimeUtils.MillisSplit` | composeApp/src/commonMain/kotlin/io/github/warforged5/racemultitimer/domain/Models.kt:140-144 | Seconds and centiseconds add back up to the duration rounded down to 10 ms; centiseconds stay below 100. |
| `TimeUtils.TimeFields` | composeApp/src/commonMain/kotlin/io/github/warforged5/racemultitimer/domain/Models.kt:140-144 | On non-negative durations the truncating divisions of formatTime agree with the mathematical fields. |
| `TimeUtils.ClockFields` | composeApp/src/commonMain/kotlin/io/github/warforged5/racemultitimer/domain/Models.kt:139-159 | formatTime shows zero-padded hours (only when there is at least one), minutes, seconds and optionally centiseconds, in range, adding up to the duration. |
| `TimeUtils.ClockReads` | composeApp/src/commonMain/kotlin/io/github/warforged5/racemultitimer/domain/Models.kt:146-158 | The clock layout reads back as its fields: separators "::.", "::", ":." or ":", and two-digit fields except an hour field of two or more digits. |
| `TimeUtils.HoursClockReads` | composeApp/src/commonMain/kotlin/io/github/warforged5/racemultitimer/domain/Models.kt:139-159 | From one hour on, formatTime reads back as hours (at least 1), minutes, seconds and, if shown, centiseconds that sum to the duration. |
| `TimeUtils.MinutesClockReads` | composeApp/src/commonMain/kotlin/io/github/warforged5/racemultitimer/domain/Models.kt:139-159 | Below one hour, formatTime reads back as two-digit minutes, seconds and, if shown, centiseconds that sum to the duration. |
| `TimeUtils.FormatTimeReadsBack` | composeApp/src/commonMain/kotlin/io/github/warforged5/racemultitimer/domain/Models.kt:139-159 | formatTime is faithful for every non-negative duration: its digit fields give the duration to the centisecond (with showMillis) or to the second. |
| `TimeUtils.CentisecondsExtendClock` | composeApp/src/commonMain/kotlin/io/github/warforged5/racemultitimer/domain/Models.kt:154-157 | The text with centiseconds is the text without them followed by "." and the two digits of (millis % 1000) / 10. |
| `TimeUtils.FormatLapTimeReadsBack` | composeApp/src/commonMain/kotlin/io/github/warforged5/racemultitimer/domain/Models.kt:161-172 | formatLapTime reads back as unpadded minutes, two-digit seconds and centiseconds from a minute on, else unpadded seconds, centiseconds and "s"; both sum to the duration. |
| `TimeUtils.MinutesTextReads` | composeApp/src/commonMain/kotlin/io/github/warforged5/racemultitimer/domain/Models.kt:168 | The "m:ss.cc" layout reads back as three fields separated by ":" and ".". |
| `TimeUtils.SecondsTextReads` | composeApp/src/commonMain/kotlin/io/github/warforged5/racemultitimer/domain/Models.kt:170 | The "s.ccs" layout reads back as two fields separated by "." and ending in "s". |
| `TimeUtils.FormatDurationReadsBack` | composeApp/src/commonMain/kotlin/io/github/warforged5/racemultitimer/domain/Models.kt:174-185 | formatDuration prints canonical numbers with unit letters h, m and s, dropping leading zero units; the fields sum to the whole seconds. |
| `TimeUtils.UnitsTextReads` | composeApp/src/commonMain/kotlin/io/github/warforged5/racemultitimer/domain/Models.kt:181-183 | Each of the three unit layouts reads back as its fields in order with the unit letters between them. |
| `Pace.MeterValues` | composeApp/src/commonMain/kotlin/io/github/warforged5/racemultitimer/domain/Models.kt:311 | The meter intervals' names with the "m" removed parse as 100, 200 and 400. |
| `Pace.FormatSplitLabel` | composeApp/src/commonMain/kotlin/io/github/warforged5/racemultitimer/domain/Models.kt:305-319 | Defines the split label; `SplitLabelReads` states it. |
| `Pace.SplitTime` | composeApp/src/commonMain/kotlin/io/github/warforged5/racemultitimer/domain/Models.kt:274-281 | Defines the even-pace time at a distance; `SplitTimesPaced` and `EvenPaceTimes` bound it. |
| `Pace.Splits` | composeApp/src/commonMain/kotlin/io/github/warforged5/racemultitimer/domain/Models.kt:264-302 | Defines the split table; `SplitsShape`, `SplitDistancesIncrease` and `SplitLabels` state it, and `GetSplits` builds it. |
| `Pace.HundredsName` | composeApp/src/commonMain/kotlin/io/github/warforged5/racemultitimer/domain/Models.kt:311 | A name of the form "d00m" with the "m" removed parses as d times 100. |
| `Pace.NumberWithUnit` | composeApp/src/commonMain/kotlin/io/github/warforged5/racemultitimer/domain/Models.kt:311 | A digit string followed by "m" parses back, once the "m" is removed, as the number it spells. |
| `Pace.SplitLabelReads` | composeApp/src/commonMain/kotlin/io/github/warforged5/racemultitimer/domain/Models.kt:305-320 | Mile and km split labels are the bare split count; meter labels are the accumulated distance in parentheses. |
| `Pace.GetSplits` | composeApp/src/commonMain/kotlin/io/github/warforged5/racemultitimer/domain/Models.kt:264-303 | The loop of getSplits builds exactly the split table Splits defines. |
| `Pace.RowsAppend` | composeApp/src/commonMain/kotlin/io/github/warforged5/racemultitimer/domain/Models.kt:279-292 | Adding one more passed split distance appends exactly that split's row. |
| `Pace.PassesNumbered` | composeApp/src/commonMain/kotlin/io/github/warforged5/racemultitimer/domain/Models.kt:270-292 | The intermediate splits are numbered 1, 2, ... and the last full split is dropped when it lands on the finish. |
| `Pace.SplitsShape` | composeApp/src/commonMain/kotlin/io/github/warforged5/racemultitimer/domain/Models.kt:264-303 | At least one row; the last is the event at its full distance and target time, marked final; earlier rows are not final, lie strictly before the finish at multiples of the interval with an even-pace time. |
| `Pace.SplitLabels` | composeApp/src/commonMain/kotlin/io/github/warforged5/racemultitimer/domain/Models.kt:284-291 | Each intermediate split is labelled with formatSplitLabel of the interval and its number. |
| `Pace.SplitDistancesIncrease` | composeApp/src/commonMain/kotlin/io/github/warforged5/racemultitimer/domain/Models.kt:264-303 | Split distances strictly increase down the table. |
| `Pace.SplitTimesPaced` | composeApp/src/commonMain/kotlin/io/github/warforged5/racemultitimer/domain/Models.kt:264-303 | With a non-negative target, every split time lies between 0 and the target, and times never decrease down the table. |
| `Pace.EvenPaceTimes` | composeApp/src/commonMain/kotlin/io/github/warforged5/racemultitimer/domain/Models.kt:273-292 | Any table of even-pace intermediate times ending at the target has times within the target and non-decreasing. |
| `Pace.TimeWithinTarget` | composeApp/src/commonMain/kotlin/io/github/warforged5/racemultitimer/domain/Models.kt:274-281 | An even-pace time at a distance before the finish is between 0 and the target time. |
| `Lanes.StartLane` | composeApp/src/commonMain/kotlin/io/github/warforged5/racemultitimer/viewmodel/RaceTimerViewModel.kt:321-334 | Starting a stopped lane keeps its paused time and laps and makes the elapsed time continue from there; a running lane is unchanged. |
| `Lanes.StopLane` | composeApp/src/commonMain/kotlin/io/github/warforged5/racemultitimer/viewmodel/RaceTimerViewModel.kt:336-348 | Stopping freezes the elapsed time at its current value; the lane keeps its laps; a stopped lane is unchanged. |
| `Lanes.RecordLap` | composeApp/src/commonMain/kotlin/io/github/warforged5/racemultitimer/viewmodel/RaceTimerViewModel.kt:304-319 | A lap is appended only when the current lap is at least 100 ms long; it records the current elapsed time, so the new current lap starts at 0. |
| `Lanes.AppendLap` | composeApp/src/commonMain/kotlin/io/github/warforged5/racemultitimer/viewmodel/RaceTimerViewModel.kt:311-318 | Appending a correctly numbered lap of at least 100 ms, timed from the previous lap, keeps the lap list well formed. |
| `Lanes.LapIfTimed` | composeApp/src/commonMain/kotlin/io/github/warforged5/racemultitimer/viewmodel/RaceTimerViewModel.kt:282-302 | A lane that is neither running nor holding paused time gets no lap; otherwise the lap recorder runs; running state is kept. |
| `Lanes.ResetLane` | composeApp/src/commonMain/kotlin/io/github/warforged5/racemultitimer/viewmodel/RaceTimerViewModel.kt:350-360 | A reset lane is a fresh lane with the same id, name, position and colour: zero time, no laps, stopped. |
| `Lanes.Renumber` | composeApp/src/commonMain/kotlin/io/github/warforged5/racemultitimer/viewmodel/RaceTimerViewModel.kt:217-218 | Renumbering keeps every lane apart from its position and sets positions to 1..n in list order. |
| `Lanes.FirstFree` | composeApp/src/commonMain/kotlin/io/github/warforged5/racemultitimer/viewmodel/RaceTimerViewModel.kt:200-203 | The first palette colour not in use, or None exactly when every palette colour is in use. |
| `Lanes.NextColor` | composeApp/src/commonMain/kotlin/io/github/warforged5/racemultitimer/viewmodel/RaceTimerViewModel.kt:200-203 | A new lane takes the first unused colour; only when all are used does it take the colour at its position modulo 10. |
| `Lanes.FreeColorExists` | composeApp/src/commonMain/kotlin/io/github/warforged5/racemultitimer/viewmodel/RaceTimerViewModel.kt:200-203 | With fewer than ten lanes a free colour always exists. |
| `Lanes.AllColorsUsed` | composeApp/src/commonMain/kotlin/io/github/warforged5/racemultitimer/viewmodel/RaceTimerViewModel.kt:200-203 | The wrap-around colour is reached only with at least ten lanes. |
| `Lanes.WithoutLane` | composeApp/src/commonMain/kotlin/io/github/warforged5/racemultitimer/viewmodel/RaceTimerViewModel.kt:217 | The result is Kotlin `filter` of the other ids (`Seqs.Filter`, whose order and counts `FilterCounts` and `FilterInOrder` pin): no lane with that id remains, every other lane stays, and distinct ids stay distinct. |
| `Lanes.FilterDistinctIds` | composeApp/src/commonMain/kotlin/io/github/warforged5/racemultitimer/viewmodel/RaceTimerViewModel.kt:217 | Filtering a lane list keeps its ids distinct. |
| `IdGen.IdKind.Prefix` | composeApp/src/commonMain/kotlin/io/github/warforged5/racemultitimer/domain/Models.kt:195-215 | Each id kind's prefix (lane_, preset_, pace_, note_) holds no digit and ends in "_". |
| `IdGen.IdShowsCount` | composeApp/src/commonMain/kotlin/io/github/warforged5/racemultitimer/domain/Models.kt:195-199 | The last number in a generated id is the counter value it was made with. |
| `IdGen.IdsDistinct` | composeApp/src/commonMain/kotlin/io/github/warforged5/racemultitimer/domain/Models.kt:191-216 | Ids made with different counter values differ, whatever their kinds and clock readings. |
| `IdGen.NextIdIsNew` | composeApp/src/commonMain/kotlin/io/github/warforged5/racemultitimer/domain/Models.kt:195-199 | The id made after an increment was not issued before it. |
| `IdGen.IdIssuedBy` | composeApp/src/commonMain/kotlin/io/github/warforged5/racemultitimer/domain/Models.kt:195-199 | An id made at a count is counted as issued by any generator that has reached that count. |
| `IdGen.IdGenerator.constructor` | composeApp/src/commonMain/kotlin/io/github/warforged5/racemultitimer/domain/Models.kt:192 | The counter starts at 0. |
| `IdGen.IdGenerator.Generate` | composeApp/src/commonMain/kotlin/io/github/warforged5/racemultitimer/domain/Models.kt:195-216 | Each call increments the counter by one and returns the id built from the clock reading and the new counter. |
| `Engine.InitialState` | composeApp/src/commonMain/kotlin/io/github/warforged5/racemultitimer/viewmodel/RaceTimerViewModel.kt:14-42 | The default state: no lanes, idle, a 3 s countdown, a 60 s rest timer not running, no custom rest presets; it satisfies the invariant. |
| `Engine.Valid` | composeApp/src/commonMain/kotlin/io/github/warforged5/racemultitimer/viewmodel/RaceTimerViewModel.kt:14-42 | The state invariant each transition keeps. |
| `Engine.SameIdentities` | composeApp/src/commonMain/kotlin/io/github/warforged5/racemultitimer/viewmodel/RaceTimerViewModel.kt:252-371 | Updates that keep each lane's identity keep the id, name and colour lists and the position order. |
| `Engine.AddLane` | composeApp/src/commonMain/kotlin/io/github/warforged5/racemultitimer/viewmodel/RaceTimerViewModel.kt:197-213 | One lane is appended, named "Lane n" at position n with the next colour; nothing else changes; with a fresh id the invariant is kept. |
| `Engine.AppendLane` | composeApp/src/commonMain/kotlin/io/github/warforged5/racemultitimer/viewmodel/RaceTimerViewModel.kt:212 | Appending a valid lane at the next position with a fresh id keeps the lane list valid. |
| `Engine.AddLaneFreshColor` | composeApp/src/commonMain/kotlin/io/github/warforged5/racemultitimer/viewmodel/RaceTimerViewModel.kt:200-203 | While fewer than ten lanes exist, the new lane's colour is one no lane has. |
| `Engine.AddLaneKeepsColorsDistinct` | composeApp/src/commonMain/kotlin/io/github/warforged5/racemultitimer/viewmodel/RaceTimerViewModel.kt:200-203 | While fewer than ten lanes exist, distinct lane colours stay distinct. |
| `Engine.RemoveLane` | composeApp/src/commonMain/kotlin/io/github/warforged5/racemultitimer/viewmodel/RaceTimerViewModel.kt:215-224 | The lane with that id is gone, all others stay (renumbered), no id is added, and the expanded lane is cleared only if it was the removed one. |
| `Engine.RemovedLanes` | composeApp/src/commonMain/kotlin/io/github/warforged5/racemultitimer/viewmodel/RaceTimerViewModel.kt:215-224 | After a removal the lane list lacks that id, keeps every other lane's id, gains no id, and stays valid with every start time still in the past. |
| `Engine.RenameLane` | composeApp/src/commonMain/kotlin/io/github/warforged5/racemultitimer/viewmodel/RaceTimerViewModel.kt:226-236 | Only the matching lane changes, taking the trimmed new name unless it is blank; the rename dialog closes. |
| `Engine.ReorderLanes` | composeApp/src/commonMain/kotlin/io/github/warforged5/racemultitimer/viewmodel/RaceTimerViewModel.kt:238-250 | The same index changes nothing; otherwise the lanes are those of MoveLane; the invariant is kept. |
| `Engine.MoveLane` | composeApp/src/commonMain/kotlin/io/github/warforged5/racemultitimer/viewmodel/RaceTimerViewModel.kt:241-246 | Remove-then-insert: each lane record moves whole from the index `MoveSource` gives, with only its position renumbered to 1..n; the lane at from lands at to and the ids are permuted. |
| `Engine.ReorderUndo` | composeApp/src/commonMain/kotlin/io/github/warforged5/racemultitimer/viewmodel/RaceTimerViewModel.kt:238-250 | Moving back from to to from restores the state. |
| `Engine.MoveLaneUndo` | composeApp/src/commonMain/kotlin/io/github/warforged5/racemultitimer/viewmodel/RaceTimerViewModel.kt:241-246 | Moving a lane back restores a correctly numbered lane list. |
| `Engine.RenumberedInOrder` | composeApp/src/commonMain/kotlin/io/github/warforged5/racemultitimer/viewmodel/RaceTimerViewModel.kt:244-246 | Renumbering lanes already at positions 1..n changes nothing. |
| `Engine.StartAll` | composeApp/src/commonMain/kotlin/io/github/warforged5/racemultitimer/viewmodel/RaceTimerViewModel.kt:252-265 | Every lane is started at now, keeping its displayed time, and the race is Running. |
| `Engine.StopAll` | composeApp/src/commonMain/kotlin/io/github/warforged5/racemultitimer/viewmodel/RaceTimerViewModel.kt:267-280 | Every lane stops with its displayed time frozen, and the race is Paused. |
| `Engine.LapAll` | composeApp/src/commonMain/kotlin/io/github/warforged5/racemultitimer/viewmodel/RaceTimerViewModel.kt:282-290 | Every lane that holds time gets a lap; nothing else changes. |
| `Engine.LapLane` | composeApp/src/commonMain/kotlin/io/github/warforged5/racemultitimer/viewmodel/RaceTimerViewModel.kt:292-302 | Only the lane with that id may get a lap. |
| `Engine.StartLaneById` | composeApp/src/commonMain/kotlin/io/github/warforged5/racemultitimer/viewmodel/RaceTimerViewModel.kt:321-334 | Only the lane with that id starts; an idle race becomes Running and any other race state is kept. |
| `Engine.StopLaneById` | composeApp/src/commonMain/kotlin/io/github/warforged5/racemultitimer/viewmodel/RaceTimerViewModel.kt:336-348 | Only the lane with that id stops; every displayed time is unchanged. |
| `Engine.ResetLaneById` | composeApp/src/commonMain/kotlin/io/github/warforged5/racemultitimer/viewmodel/RaceTimerViewModel.kt:350-360 | Only the lane with that id is reset. |
| `Engine.ResetAllLanes` | composeApp/src/commonMain/kotlin/io/github/warforged5/racemultitimer/viewmodel/RaceTimerViewModel.kt:362-371 | Every lane is reset to a fresh lane with the same identity, and the race is Idle. |
| `Engine.ResetEverything` | composeApp/src/commonMain/kotlin/io/github/warforged5/racemultitimer/viewmodel/RaceTimerViewModel.kt:373-383 | Back to the initial state except theme, colour palette and saved presets. |
| `Engine.StartCountdown` | composeApp/src/commonMain/kotlin/io/github/warforged5/racemultitimer/viewmodel/RaceTimerViewModel.kt:385-395 | Records the countdown length and remaining seconds, enters Countdown and closes its dialog. |
| `Engine.CountdownTick` | composeApp/src/commonMain/kotlin/io/github/warforged5/racemultitimer/viewmodel/RaceTimerViewModel.kt:396-403 | One step of the countdown job: show the next second and count down, then zero, then Start All. |
| `Engine.CountdownCompletes` | composeApp/src/commonMain/kotlin/io/github/warforged5/racemultitimer/viewmodel/RaceTimerViewModel.kt:385-405 | Run to its end, a countdown of n seconds ends in Start All with 0 seconds remaining, after n + 2 steps. |
| `Engine.CountdownFrom` | composeApp/src/commonMain/kotlin/io/github/warforged5/racemultitimer/viewmodel/RaceTimerViewModel.kt:396-403 | From any point of the count the job reaches Start All with 0 remaining. |
| `Engine.CountdownStep` | composeApp/src/commonMain/kotlin/io/github/warforged5/racemultitimer/viewmodel/RaceTimerViewModel.kt:397-400 | One counting step shows that second and goes on to the one below. |
| `Engine.CountdownEnd` | composeApp/src/commonMain/kotlin/io/github/warforged5/racemultitimer/viewmodel/RaceTimerViewModel.kt:401-403 | Past the last second the job sets 0 remaining and starts the race. |
| `Engine.StartRestTimer` | composeApp/src/commonMain/kotlin/io/github/warforged5/racemultitimer/viewmodel/RaceTimerViewModel.kt:407-416 | Records the rest length and remaining seconds, marks the rest timer running and closes its dialog. |
| `Engine.StopRestTimer` | composeApp/src/commonMain/kotlin/io/github/warforged5/racemultitimer/viewmodel/RaceTimerViewModel.kt:427-430 | The rest timer stops with 0 remaining. |
| `Engine.RestTick` | composeApp/src/commonMain/kotlin/io/github/warforged5/racemultitimer/viewmodel/RaceTimerViewModel.kt:418-424 | One step of the rest job: show the next second, or stop at the end; lanes and presets are untouched. |
| `Engine.RestCompletes` | composeApp/src/commonMain/kotlin/io/github/warforged5/racemultitimer/viewmodel/RaceTimerViewModel.kt:407-425 | A rest timer run to its end is stopped with 0 remaining. |
| `Engine.RestFrom` | composeApp/src/commonMain/kotlin/io/github/warforged5/racemultitimer/viewmodel/RaceTimerViewModel.kt:418-424 | From any point of the count the rest job reaches the stopped state. |
| `Engine.WithRestPreset` | composeApp/src/commonMain/kotlin/io/github/warforged5/racemultitimer/viewmodel/RaceTimerViewModel.kt:432-441 | Adding a custom rest preset: unchanged for a non-positive or existing value, else the value joins the sorted, duplicate-free list. |
| `Engine.WithoutRestPreset` | composeApp/src/commonMain/kotlin/io/github/warforged5/racemultitimer/viewmodel/RaceTimerViewModel.kt:443-445 | Removing a preset drops exactly that value and keeps the list sorted and duplicate-free. |
| `Engine.AddCustomRestPreset` | composeApp/src/commonMain/kotlin/io/github/warforged5/racemultitimer/viewmodel/RaceTimerViewModel.kt:432-441 | The state's custom rest presets are updated by WithRestPreset and nothing else changes. |
| `Engine.RemoveCustomRestPreset` | composeApp/src/commonMain/kotlin/io/github/warforged5/racemultitimer/viewmodel/RaceTimerViewModel.kt:443-445 | The state's custom rest presets are updated by WithoutRestPreset and nothing else changes. |
| `Engine.RestPresetAddRemove` | composeApp/src/commonMain/kotlin/io/github/warforged5/racemultitimer/viewmodel/RaceTimerViewModel.kt:432-445 | Adding a new preset and removing it again restores the list. |
| `Engine.StrictSameElements` | composeApp/src/commonMain/kotlin/io/github/warforged5/racemultitimer/viewmodel/RaceTimerViewModel.kt:438 | Two strictly ascending lists with the same elements are equal, so a sorted preset list is determined by its members. |
| `Engine.SavePreset` | composeApp/src/commonMain/kotlin/io/github/warforged5/racemultitimer/viewmodel/RaceTimerViewModel.kt:447-459 | With lanes and a non-blank name, a preset of the trimmed name, the lane names and colours is appended and the dialog closes; otherwise nothing changes. |
| `Engine.FindPreset` | composeApp/src/commonMain/kotlin/io/github/warforged5/racemultitimer/viewmodel/RaceTimerViewModel.kt:462 | The first preset with that id, or None exactly when no preset has it. |
| `Engine.PresetLanes` | composeApp/src/commonMain/kotlin/io/github/warforged5/racemultitimer/viewmodel/RaceTimerViewModel.kt:463-470 | Loading builds one fresh lane per saved name at positions 1..n, in the saved colour or the default past the end of the colour list. |
| `Engine.LoadPreset` | composeApp/src/commonMain/kotlin/io/github/warforged5/racemultitimer/viewmodel/RaceTimerViewModel.kt:461-474 | The lanes are replaced by the preset's lanes, the race is Idle and the dialog closes. |
| `Engine.SaveThenLoad` | composeApp/src/commonMain/kotlin/io/github/warforged5/racemultitimer/viewmodel/RaceTimerViewModel.kt:447-474 | Saving then loading the saved preset gives back the lane names and colours, with every lane stopped, lap-free and at zero. |
| `Engine.DeletePreset` | composeApp/src/commonMain/kotlin/io/github/warforged5/racemultitimer/viewmodel/RaceTimerViewModel.kt:476-478 | The presets become `Filter` of the other ids: none with that id remains, every other preset stays in its order, and nothing is added. |
| `Engine.AddPaceMarker` | composeApp/src/commonMain/kotlin/io/github/warforged5/racemultitimer/viewmodel/RaceTimerViewModel.kt:531-544 | A visible marker with the new id, event, interval and target is appended and the dialog closes. |
| `Engine.RemovePaceMarker` | composeApp/src/commonMain/kotlin/io/github/warforged5/racemultitimer/viewmodel/RaceTimerViewModel.kt:546-548 | The markers become `Filter` of the other ids: none with that id remains, every other marker stays in its order, and nothing is added. |
| `Engine.TogglePaceMarker` | composeApp/src/commonMain/kotlin/io/github/warforged5/racemultitimer/viewmodel/RaceTimerViewModel.kt:550-560 | Only the marker with that id flips its visibility. |
| `Engine.TogglePaceMarkerTwice` | composeApp/src/commonMain/kotlin/io/github/warforged5/racemultitimer/viewmodel/RaceTimerViewModel.kt:550-560 | Toggling a marker twice restores the state. |
| `Engine.AddCoachNote` | composeApp/src/commonMain/kotlin/io/github/warforged5/racemultitimer/viewmodel/RaceTimerViewModel.kt:562-574 | A non-blank text adds a visible note with the trimmed text and closes the dialog; a blank text changes nothing. |
| `Engine.RemoveCoachNote` | composeApp/src/commonMain/kotlin/io/github/warforged5/racemultitimer/viewmodel/RaceTimerViewModel.kt:576-578 | The notes become `Filter` of the other ids: none with that id remains, every other note stays in its order, and nothing is added. |
| `Engine.UpdateCoachNote` | composeApp/src/commonMain/kotlin/io/github/warforged5/racemultitimer/viewmodel/RaceTimerViewModel.kt:580-589 | Only the note with that id takes the trimmed text. |
| `Engine.ToggleNote` | composeApp/src/commonMain/kotlin/io/github/warforged5/racemultitimer/viewmodel/RaceTimerViewModel.kt:591-600 | Only the note with that id flips its visibility. |
| `Engine.ToggleNoteTwice` | composeApp/src/commonMain/kotlin/io/github/warforged5/racemultitimer/viewmodel/RaceTimerViewModel.kt:591-600 | Toggling a note twice restores the state. |
| `Engine.ShowDialog` | composeApp/src/commonMain/kotlin/io/github/warforged5/racemultitimer/viewmodel/RaceTimerViewModel.kt:492-506 | That dialog opens and the menu closes; nothing else changes. |
| `Engine.ShowDialogLeavesOthers` | composeApp/src/commonMain/kotlin/io/github/warforged5/racemultitimer/viewmodel/RaceTimerViewModel.kt:492-506 | Opening one dialog leaves every other dialog's flag as it was. |
| `Engine.DismissDialog` | composeApp/src/commonMain/kotlin/io/github/warforged5/racemultitimer/viewmodel/RaceTimerViewModel.kt:512-529 | Every dialog, the menu and the rename dialog close; nothing else changes. |
| `Engine.ShowThenDismiss` | composeApp/src/commonMain/kotlin/io/github/warforged5/racemultitimer/viewmodel/RaceTimerViewModel.kt:492-529 | Dismissing after showing a dialog is the same as dismissing; both keep the invariant. |
| `ViewModel.LaneIds` | composeApp/src/commonMain/kotlin/io/github/warforged5/racemultitimer/viewmodel/RaceTimerViewModel.kt:466 | The ids loadPreset generates: one lane id per saved lane, with consecutive counter values. |
| `ViewModel.LaneIdsDistinct` | composeApp/src/commonMain/kotlin/io/github/warforged5/racemultitimer/viewmodel/RaceTimerViewModel.kt:466 | The generated lane ids are pairwise distinct. |
| `ViewModel.LaneIdsIssued` | composeApp/src/commonMain/kotlin/io/github/warforged5/racemultitimer/viewmodel/RaceTimerViewModel.kt:466 | Every generated lane id was issued by the time the counter has advanced past it. |
| `ViewModel.InvOtherFields` | composeApp/src/commonMain/kotlin/io/github/warforged5/racemultitimer/viewmodel/RaceTimerViewModel.kt:103-110 | An update that leaves lanes and rest presets alone keeps the view model's invariant. |
| `ViewModel.InvSameIds` | composeApp/src/commonMain/kotlin/io/github/warforged5/racemultitimer/viewmodel/RaceTimerViewModel.kt:215-371 | A valid update that adds no lane id and leaves running lanes started by the clock keeps the invariant. |
| `ViewModel.InvRestPresets` | composeApp/src/commonMain/kotlin/io/github/warforged5/racemultitimer/viewmodel/RaceTimerViewModel.kt:432-445 | Changing only the rest presets to a sorted, duplicate-free list keeps the invariant. |
| `ViewModel.InvMoreIssued` | composeApp/src/commonMain/kotlin/io/github/warforged5/racemultitimer/viewmodel/RaceTimerViewModel.kt:193-199 | Issuing more ids keeps the invariant. |
| `ViewModel.AddLaneInv` | composeApp/src/commonMain/kotlin/io/github/warforged5/racemultitimer/viewmodel/RaceTimerViewModel.kt:197-213 | Adding a lane under the next generated id keeps the invariant, so lane ids stay unique. |
| `ViewModel.LoadPresetInv` | composeApp/src/commonMain/kotlin/io/github/warforged5/racemultitimer/viewmodel/RaceTimerViewModel.kt:461-474 | Loading a preset under freshly generated ids keeps the invariant. |
| `ViewModel.InvLater` | composeApp/src/commonMain/kotlin/io/github/warforged5/racemultitimer/viewmodel/RaceTimerViewModel.kt:121-142 | A later clock reading keeps the invariant. |
| `ViewModel.RaceTimerViewModel.constructor` | composeApp/src/commonMain/kotlin/io/github/warforged5/racemultitimer/viewmodel/RaceTimerViewModel.kt:103-114 | The view model starts in the default state with no countdown or rest job. |
| `ViewModel.RaceTimerViewModel.Refresh` | composeApp/src/commonMain/kotlin/io/github/warforged5/racemultitimer/viewmodel/RaceTimerViewModel.kt:121-142 | One pass of the refresh loop stamps the clock only while a lane runs, a countdown is on or the rest timer runs. |
| `ViewModel.RaceTimerViewModel.OnEvent` | composeApp/src/commonMain/kotlin/io/github/warforged5/racemultitimer/viewmodel/RaceTimerViewModel.kt:144-191 | The new state, id counter and coroutines are `Transition` of the old ones: each event applies its handler's `Engine` update; the invariant holds and the counter never moves back. |
| `ViewModel.RaceTimerViewModel.OnLaneEvent` | composeApp/src/commonMain/kotlin/io/github/warforged5/racemultitimer/viewmodel/RaceTimerViewModel.kt:146-160 | Each lane or timing event applies its `Engine` update (`LaneTransition`), and `resetEverything` also cancels both coroutines. |
| `ViewModel.RaceTimerViewModel.OnOtherEvent` | composeApp/src/commonMain/kotlin/io/github/warforged5/racemultitimer/viewmodel/RaceTimerViewModel.kt:161-189 | Every other event applies its handler's update (`OtherTransition`), routing to the timer, marker-and-note and display dispatchers. |
| `ViewModel.RaceTimerViewModel.OnTimerEvent` | composeApp/src/commonMain/kotlin/io/github/warforged5/racemultitimer/viewmodel/RaceTimerViewModel.kt:161-169 | Countdown, rest-timer and preset events apply their `Engine` updates, launch or cancel their coroutine and draw ids only when a preset is saved or loaded (`TimerTransition`). |
| `ViewModel.RaceTimerViewModel.OnNoteEvent` | composeApp/src/commonMain/kotlin/io/github/warforged5/racemultitimer/viewmodel/RaceTimerViewModel.kt:171-180 | Marker and note events go to their own dispatchers (`MarkerOrNoteTransition`). |
| `ViewModel.RaceTimerViewModel.OnMarkerEvent` | composeApp/src/commonMain/kotlin/io/github/warforged5/racemultitimer/viewmodel/RaceTimerViewModel.kt:172-174 | Adding a marker draws one pace id; removing and toggling apply their `Engine` updates (`MarkerTransition`). |
| `ViewModel.RaceTimerViewModel.OnCoachNoteEvent` | composeApp/src/commonMain/kotlin/io/github/warforged5/racemultitimer/viewmodel/RaceTimerViewModel.kt:177-180 | Adding a non-blank note draws one note id; the other note events apply their `Engine` updates (`NoteTransition`). |
| `ViewModel.RaceTimerViewModel.OnDisplayEvent` | composeApp/src/commonMain/kotlin/io/github/warforged5/racemultitimer/viewmodel/RaceTimerViewModel.kt:182-189 | Settings, lane-expansion and dialog events change only their own fields (`DisplayTransition`). |
| `ViewModel.RaceTimerViewModel.AddLane` | composeApp/src/commonMain/kotlin/io/github/warforged5/racemultitimer/viewmodel/RaceTimerViewModel.kt:197-213 | The state becomes Engine.AddLane with a newly generated lane id; the invariant is kept. |
| `ViewModel.RaceTimerViewModel.RemoveLane` | composeApp/src/commonMain/kotlin/io/github/warforged5/racemultitimer/viewmodel/RaceTimerViewModel.kt:215-224 | The state becomes Engine.RemoveLane; the invariant is kept. |
| `ViewModel.RaceTimerViewModel.RenameLane` | composeApp/src/commonMain/kotlin/io/github/warforged5/racemultitimer/viewmodel/RaceTimerViewModel.kt:226-236 | The state becomes Engine.RenameLane; the invariant is kept. |
| `ViewModel.RaceTimerViewModel.ReorderLanes` | composeApp/src/commonMain/kotlin/io/github/warforged5/racemultitimer/viewmodel/RaceTimerViewModel.kt:238-250 | The state becomes Engine.ReorderLanes; the invariant is kept. |
| `ViewModel.RaceTimerViewModel.StartAll` | composeApp/src/commonMain/kotlin/io/github/warforged5/racemultitimer/viewmodel/RaceTimerViewModel.kt:252-265 | The state becomes Engine.StartAll at the clock reading; the invariant is kept. |
| `ViewModel.RaceTimerViewModel.StopAll` | composeApp/src/commonMain/kotlin/io/github/warforged5/racemultitimer/viewmodel/RaceTimerViewModel.kt:267-280 | The state becomes Engine.StopAll at the clock reading; the invariant is kept. |
| `ViewModel.RaceTimerViewModel.LapAll` | composeApp/src/commonMain/kotlin/io/github/warforged5/racemultitimer/viewmodel/RaceTimerViewModel.kt:282-290 | The state becomes Engine.LapAll at the clock reading; the invariant is kept. |
| `ViewModel.RaceTimerViewModel.LapLane` | composeApp/src/commonMain/kotlin/io/github/warforged5/racemultitimer/viewmodel/RaceTimerViewModel.kt:292-302 | The state becomes Engine.LapLane; the invariant is kept. |
| `ViewModel.RaceTimerViewModel.StartLane` | composeApp/src/commonMain/kotlin/io/github/warforged5/racemultitimer/viewmodel/RaceTimerViewModel.kt:321-334 | The state becomes Engine.StartLaneById; the invariant is kept. |
| `ViewModel.RaceTimerViewModel.StopLane` | composeApp/src/commonMain/kotlin/io/github/warforged5/racemultitimer/viewmodel/RaceTimerViewModel.kt:336-348 | The state becomes Engine.StopLaneById; the invariant is kept. |
| `ViewModel.RaceTimerViewModel.ResetLane` | composeApp/src/commonMain/kotlin/io/github/warforged5/racemultitimer/viewmodel/RaceTimerViewModel.kt:350-360 | The state becomes Engine.ResetLaneById; the invariant is kept. |
| `ViewModel.RaceTimerViewModel.ResetAllLanes` | composeApp/src/commonMain/kotlin/io/github/warforged5/racemultitimer/viewmodel/RaceTimerViewModel.kt:362-371 | The state becomes Engine.ResetAllLanes; the invariant is kept. |
| `ViewModel.RaceTimerViewModel.ResetEverything` | composeApp/src/commonMain/kotlin/io/github/warforged5/racemultitimer/viewmodel/RaceTimerViewModel.kt:373-383 | The state becomes Engine.ResetEverything and both jobs are cancelled. |
| `ViewModel.RaceTimerViewModel.StartCountdown` | composeApp/src/commonMain/kotlin/io/github/warforged5/racemultitimer/viewmodel/RaceTimerViewModel.kt:385-405 | The state becomes Engine.StartCountdown and a new countdown job replaces any old one. |
| `ViewModel.RaceTimerViewModel.CountdownStep` | composeApp/src/commonMain/kotlin/io/github/warforged5/racemultitimer/viewmodel/RaceTimerViewModel.kt:396-403 | One step of the countdown job as Engine.CountdownTick; the invariant is kept. |
| `ViewModel.RaceTimerViewModel.StartRestTimer` | composeApp/src/commonMain/kotlin/io/github/warforged5/racemultitimer/viewmodel/RaceTimerViewModel.kt:407-425 | The state becomes Engine.StartRestTimer and a new rest job replaces any old one. |
| `ViewModel.RaceTimerViewModel.RestStep` | composeApp/src/commonMain/kotlin/io/github/warforged5/racemultitimer/viewmodel/RaceTimerViewModel.kt:418-424 | One step of the rest job as Engine.RestTick. |
| `ViewModel.RaceTimerViewModel.StopRestTimer` | composeApp/src/commonMain/kotlin/io/github/warforged5/racemultitimer/viewmodel/RaceTimerViewModel.kt:427-430 | The rest job is cancelled and the state becomes Engine.StopRestTimer. |
| `ViewModel.RaceTimerViewModel.AddCustomRestPreset` | composeApp/src/commonMain/kotlin/io/github/warforged5/racemultitimer/viewmodel/RaceTimerViewModel.kt:432-441 | The state becomes Engine.AddCustomRestPreset; the invariant is kept. |
| `ViewModel.RaceTimerViewModel.RemoveCustomRestPreset` | composeApp/src/commonMain/kotlin/io/github/warforged5/racemultitimer/viewmodel/RaceTimerViewModel.kt:443-445 | The state becomes Engine.RemoveCustomRestPreset; the invariant is kept. |
| `ViewModel.RaceTimerViewModel.SavePreset` | composeApp/src/commonMain/kotlin/io/github/warforged5/racemultitimer/viewmodel/RaceTimerViewModel.kt:447-459 | Without lanes or with a blank name nothing changes and no id is used; otherwise one preset id is generated and the state becomes Engine.SavePreset. |
| `ViewModel.RaceTimerViewModel.LoadPreset` | composeApp/src/commonMain/kotlin/io/github/warforged5/racemultitimer/viewmodel/RaceTimerViewModel.kt:461-474 | An unknown id changes nothing; otherwise one lane id per saved lane is generated and the state becomes Engine.LoadPreset. |
| `ViewModel.RaceTimerViewModel.GenerateLaneIds` | composeApp/src/commonMain/kotlin/io/github/warforged5/racemultitimer/viewmodel/RaceTimerViewModel.kt:466 | The loop generates exactly LaneIds and advances the counter by their number. |
| `ViewModel.RaceTimerViewModel.DeletePreset` | composeApp/src/commonMain/kotlin/io/github/warforged5/racemultitimer/viewmodel/RaceTimerViewModel.kt:476-478 | The state becomes Engine.DeletePreset. |
| `ViewModel.RaceTimerViewModel.AddPaceMarker` | composeApp/src/commonMain/kotlin/io/github/warforged5/racemultitimer/viewmodel/RaceTimerViewModel.kt:531-544 | One pace id is generated and the state becomes Engine.AddPaceMarker. |
| `ViewModel.RaceTimerViewModel.RemovePaceMarker` | composeApp/src/commonMain/kotlin/io/github/warforged5/racemultitimer/viewmodel/RaceTimerViewModel.kt:546-548 | The state becomes Engine.RemovePaceMarker. |
| `ViewModel.RaceTimerViewModel.TogglePaceMarkerVisibility` | composeApp/src/commonMain/kotlin/io/github/warforged5/racemultitimer/viewmodel/RaceTimerViewModel.kt:550-560 | The state becomes Engine.TogglePaceMarker. |
| `ViewModel.RaceTimerViewModel.AddCoachNote` | composeApp/src/commonMain/kotlin/io/github/warforged5/racemultitimer/viewmodel/RaceTimerViewModel.kt:562-574 | A blank text changes nothing and uses no id; otherwise one note id is generated and the state becomes Engine.AddCoachNote. |
| `ViewModel.RaceTimerViewModel.RemoveCoachNote` | composeApp/src/commonMain/kotlin/io/github/warforged5/racemultitimer/viewmodel/RaceTimerViewModel.kt:576-578 | The state becomes Engine.RemoveCoachNote. |
| `ViewModel.RaceTimerViewModel.UpdateCoachNote` | composeApp/src/commonMain/kotlin/io/github/warforged5/racemultitimer/viewmodel/RaceTimerViewModel.kt:580-589 | The state becomes Engine.UpdateCoachNote. |
| `ViewModel.RaceTimerViewModel.ToggleNoteVisibility` | composeApp/src/commonMain/kotlin/io/github/warforged5/racemultitimer/viewmodel/RaceTimerViewModel.kt:591-600 | The state becomes Engine.ToggleNote. |
| `ViewModel.RaceTimerViewModel.SetTheme` | composeApp/src/commonMain/kotlin/io/github/warforged5/racemultitimer/viewmodel/RaceTimerViewModel.kt:480-482 | Only the theme changes, and the theme selector closes. |
| `ViewModel.RaceTimerViewModel.SetColorPalette` | composeApp/src/commonMain/kotlin/io/github/warforged5/racemultitimer/viewmodel/RaceTimerViewModel.kt:484-486 | Only the colour palette changes. |
| `ViewModel.RaceTimerViewModel.ExpandLane` | composeApp/src/commonMain/kotlin/io/github/warforged5/racemultitimer/viewmodel/RaceTimerViewModel.kt:488-490 | Only the expanded lane changes. |
| `ViewModel.RaceTimerViewModel.ShowDialog` | composeApp/src/commonMain/kotlin/io/github/warforged5/racemultitimer/viewmodel/RaceTimerViewModel.kt:492-506 | The state becomes Engine.ShowDialog. |
| `ViewModel.RaceTimerViewModel.ShowRenameLaneDialog` | composeApp/src/commonMain/kotlin/io/github/warforged5/racemultitimer/viewmodel/RaceTimerViewModel.kt:508-510 | Only the rename dialog's lane id changes. |
| `ViewModel.RaceTimerViewModel.DismissDialog` | composeApp/src/commonMain/kotlin/io/github/warforged5/racemultitimer/viewmodel/RaceTimerViewModel.kt:512-529 | The state becomes Engine.DismissDialog. |
| `ViewModel.RaceTimerViewModel.ToggleMenuDropdown` | composeApp/src/commonMain/kotlin/io/github/warforged5/racemultitimer/viewmodel/RaceTimerViewModel.kt:602-604 | Only the menu flag flips. |
| `ViewModel.RaceTimerViewModel.ToggleShowLaps` | composeApp/src/commonMain/kotlin/io/github/warforged5/racemultitimer/viewmodel/RaceTimerViewModel.kt:193-195 | Only the show-laps flag flips. |
| `Dialogs.FormatPresetLabelReadsBack` | composeApp/src/commonMain/kotlin/io/github/warforged5/racemultitimer/ui/components/Dialogs.kt:405-413 | A preset label reads back as its duration: seconds and "s" below a minute, minutes and "m" on whole minutes, otherwise minutes, ":" and two-digit seconds. |
| `Dialogs.PresetLabelsDistinct` | composeApp/src/commonMain/kotlin/io/github/warforged5/racemultitimer/ui/components/Dialogs.kt:405-413 | Different non-negative durations get different preset labels. |
| `Dialogs.FormatMarkerTimeReadsBack` | composeApp/src/commonMain/kotlin/io/github/warforged5/racemultitimer/ui/components/Dialogs.kt:1233-1238 | A marker time reads back as unwrapped minutes and two-digit seconds adding up to the whole seconds. |
| `Dialogs.DialFor` | composeApp/src/commonMain/kotlin/io/github/warforged5/racemultitimer/ui/components/Dialogs.kt:284-285 | The minutes and seconds of the rest dialog add back up to the duration; seconds stay below 60. |
| `Dialogs.FormatPresetLabel` | composeApp/src/commonMain/kotlin/io/github/warforged5/racemultitimer/ui/components/Dialogs.kt:405-413 | Defines the preset label; `FormatPresetLabelReadsBack` states its three layouts. |
| `Dialogs.FormatMarkerTime` | composeApp/src/commonMain/kotlin/io/github/warforged5/racemultitimer/ui/components/Dialogs.kt:1233-1238 | Defines the marker time; `FormatMarkerTimeReadsBack` states its layout. |
| `Dialogs.ResultsText` | composeApp/src/commonMain/kotlin/io/github/warforged5/racemultitimer/ui/components/Dialogs.kt:744-770 | Defines the results text; `ResultsLayout`, `ResultsHeader` and `ResultsReadBack` state it, and `GenerateResults` builds it. |
| `Dialogs.SecondsUp` | composeApp/src/commonMain/kotlin/io/github/warforged5/racemultitimer/ui/components/Dialogs.kt:359 | Adds five seconds, wrapping past 59 to the start of the minute; values stay in 0..59 on the same five-second grid. |
| `Dialogs.SecondsDown` | composeApp/src/commonMain/kotlin/io/github/warforged5/racemultitimer/ui/components/Dialogs.kt:368 | Subtracts five seconds from 5 on, and jumps to 55 below 5; values stay in 0..59. |
| `Dialogs.SecondsStepsUndo` | composeApp/src/commonMain/kotlin/io/github/warforged5/racemultitimer/ui/components/Dialogs.kt:359-368 | On the five-second grid, +5 and -5 undo each other, across the wrap at 60 as well. |
| `Dialogs.MinutesUp` | composeApp/src/commonMain/kotlin/io/github/warforged5/racemultitimer/ui/components/Dialogs.kt:337 | Adds one minute below 59 and otherwise keeps the value, so minutes stay in 0..59. |
| `Dialogs.MinutesDown` | composeApp/src/commonMain/kotlin/io/github/warforged5/racemultitimer/ui/components/Dialogs.kt:347 | Subtracts one minute above 0 and otherwise keeps the value, so minutes stay in 0..59. |
| `Dialogs.MinutesStepsUndo` | composeApp/src/commonMain/kotlin/io/github/warforged5/racemultitimer/ui/components/Dialogs.kt:337-347 | Away from the limits, + and - undo each other. |
| `Dialogs.CountdownUp` | composeApp/src/commonMain/kotlin/io/github/warforged5/racemultitimer/ui/components/Dialogs.kt:245 | Adds one second below 30 and otherwise keeps the value, so the countdown stays in 1..30. |
| `Dialogs.CountdownDown` | composeApp/src/commonMain/kotlin/io/github/warforged5/racemultitimer/ui/components/Dialogs.kt:230 | Subtracts one second above 1 and otherwise keeps the value, so the countdown stays in 1..30. |
| `Dialogs.AllPresets` | composeApp/src/commonMain/kotlin/io/github/warforged5/racemultitimer/ui/components/Dialogs.kt:288-289 | The preset chips are the defaults and the custom presets, each once, in ascending order. |
| `Dialogs.CanAddPreset` | composeApp/src/commonMain/kotlin/io/github/warforged5/racemultitimer/ui/components/Dialogs.kt:290-292 | A duration can be saved exactly when it is positive and neither a default nor a custom preset. |
| `Dialogs.Star` | composeApp/src/commonMain/kotlin/io/github/warforged5/racemultitimer/ui/components/Dialogs.kt:305-319 | The star removes exactly the custom presets and saves exactly the durations that can be added; otherwise it is hidden. |
| `Dialogs.StarToggles` | composeApp/src/commonMain/kotlin/io/github/warforged5/racemultitimer/ui/components/Dialogs.kt:305-312 | Saving a duration turns its star into remove, and removing it again restores the list; removing a custom preset turns its star into save unless it is a default. |
| `Dialogs.Repeated` | composeApp/src/commonMain/kotlin/io/github/warforged5/racemultitimer/ui/components/Dialogs.kt:747 | A string repeated n times is n times as long. |
| `Dialogs.RepeatedPair` | composeApp/src/commonMain/kotlin/io/github/warforged5/racemultitimer/ui/components/Dialogs.kt:747 | A two-character string repeated n times alternates its two characters over 2n places. |
| `Dialogs.SeparatorShape` | composeApp/src/commonMain/kotlin/io/github/warforged5/racemultitimer/ui/components/Dialogs.kt:747 | The separator line is 60 characters alternating U+00E2 and U+2022. |
| `Dialogs.LapLines` | composeApp/src/commonMain/kotlin/io/github/warforged5/racemultitimer/ui/components/Dialogs.kt:762-764 | One lap-time line per lap, in order. |
| `Dialogs.AppendLine` | composeApp/src/commonMain/kotlin/io/github/warforged5/racemultitimer/ui/components/Dialogs.kt:744-770 | appendLine grows the text by the line and a newline. |
| `Dialogs.AppendLapTimes` | composeApp/src/commonMain/kotlin/io/github/warforged5/racemultitimer/ui/components/Dialogs.kt:762-764 | The lap loop appends exactly the lap-time lines. |
| `Dialogs.AppendStats` | composeApp/src/commonMain/kotlin/io/github/warforged5/racemultitimer/ui/components/Dialogs.kt:755-757 | Appends the lap count, the average and, when present, the best lap. |
| `Dialogs.AppendLapSection` | composeApp/src/commonMain/kotlin/io/github/warforged5/racemultitimer/ui/components/Dialogs.kt:759-765 | Appends the blank line, the heading and the lap lines when lap times are included and present, else nothing. |
| `Dialogs.AppendLane` | composeApp/src/commonMain/kotlin/io/github/warforged5/racemultitimer/ui/components/Dialogs.kt:751-766 | Appends exactly the lines of one lane's block. |
| `Dialogs.GenerateResults` | composeApp/src/commonMain/kotlin/io/github/warforged5/racemultitimer/ui/components/Dialogs.kt:744-772 | The builder produces the results text: header, lane blocks separated by blank lines, each line ended by a newline. |
| `Dialogs.StatsShape` | composeApp/src/commonMain/kotlin/io/github/warforged5/racemultitimer/ui/components/Dialogs.kt:755-757 | Lap count and average lines, then the best line only when a best lap exists. |
| `Dialogs.LaneLinesShape` | composeApp/src/commonMain/kotlin/io/github/warforged5/racemultitimer/ui/components/Dialogs.kt:751-766 | A lane block starts with the name and the time line; without laps that is all; with laps the stats and then the lap section follow; its last line is not empty. |
| `Dialogs.LapSectionShape` | composeApp/src/commonMain/kotlin/io/github/warforged5/racemultitimer/ui/components/Dialogs.kt:759-765 | The lap section is a blank line, "  Lap Times:" and one numbered line per lap, present only when lap times are included and exist. |
| `Dialogs.BodyPrefix` | composeApp/src/commonMain/kotlin/io/github/warforged5/racemultitimer/ui/components/Dialogs.kt:750-771 | The lines for the first i lanes are a prefix of the lines for the first n lanes. |
| `Dialogs.BlockPrefix` | composeApp/src/commonMain/kotlin/io/github/warforged5/racemultitimer/ui/components/Dialogs.kt:750-771 | The text up to and including lane i's block is a prefix of the whole results. |
| `Dialogs.BlockAt` | composeApp/src/commonMain/kotlin/io/github/warforged5/racemultitimer/ui/components/Dialogs.kt:750-771 | Lane i's block sits in the results at its computed start. |
| `Dialogs.BlankAfterBlock` | composeApp/src/commonMain/kotlin/io/github/warforged5/racemultitimer/ui/components/Dialogs.kt:769-770 | Every lane block except the last is followed by exactly one blank line, then the next block. |
| `Dialogs.LastBlockEnds` | composeApp/src/commonMain/kotlin/io/github/warforged5/racemultitimer/ui/components/Dialogs.kt:769-770 | The last lane's block ends the results, with no trailing blank line. |
| `Dialogs.ResultsLayout` | composeApp/src/commonMain/kotlin/io/github/warforged5/racemultitimer/ui/components/Dialogs.kt:744-772 | Each lane's block is at its place, blank lines separate blocks, and the text ends with the last block. |
| `Dialogs.ResultsHeader` | composeApp/src/commonMain/kotlin/io/github/warforged5/racemultitimer/ui/components/Dialogs.kt:746-748 | The results open with "Race Results", the separator and a blank line; with no lanes that is all. |
| `Dialogs.LineEnd` | composeApp/src/commonMain/kotlin/io/github/warforged5/racemultitimer/ui/components/Dialogs.kt:744-772 | The next newline at or after a position, or the end of the text. |
| `Dialogs.JoinedCons` | composeApp/src/commonMain/kotlin/io/github/warforged5/racemultitimer/ui/components/Dialogs.kt:744-772 | Joining a line in front adds that line and a newline. |
| `Dialogs.SplitJoined` | composeApp/src/commonMain/kotlin/io/github/warforged5/racemultitimer/ui/components/Dialogs.kt:744-772 | Splitting the joined text at newlines gives back the lines, when no line holds a newline. |
| `Dialogs.NumeralOneLine` | composeApp/src/commonMain/kotlin/io/github/warforged5/racemultitimer/ui/components/Dialogs.kt:755 | A number prints without a newline. |
| `Dialogs.LaneLinesOneLine` | composeApp/src/commonMain/kotlin/io/github/warforged5/racemultitimer/ui/components/Dialogs.kt:751-766 | When no field of a lane holds a newline, no line of its block does. |
| `Dialogs.BodyOneLine` | composeApp/src/commonMain/kotlin/io/github/warforged5/racemultitimer/ui/components/Dialogs.kt:750-771 | No line of the lane blocks holds a newline when no field does. |
| `Dialogs.ResultsReadBack` | composeApp/src/commonMain/kotlin/io/github/warforged5/racemultitimer/ui/components/Dialogs.kt:744-772 | The results text splits back into exactly its lines when no lane field holds a newline. |
| `ControlBar.FloatingToolbar` | composeApp/src/commonMain/kotlin/io/github/warforged5/racemultitimer/ui/components/ControlBar.kt:41-122 | Start All is enabled exactly when there are lanes and the race is not running, Stop All exactly when there are lanes and it is running, Lap All exactly when there are lanes and it is running or paused; so with lanes exactly one of Start All and Stop All is enabled. |
| `ControlBar.ToolbarFollowsRace` | composeApp/src/commonMain/kotlin/io/github/warforged5/racemultitimer/ui/components/ControlBar.kt:99-113 | After Start All only Stop and Lap are enabled, after Stop All Start and Lap, after a reset of all lanes only Start; Lap All changes nothing. |
| `ControlBar.CountdownLabel` | composeApp/src/commonMain/kotlin/io/github/warforged5/racemultitimer/ui/components/ControlBar.kt:250 | The overlay says "GO!" exactly when no seconds remain. |
| `ControlBar.FormatRestTime` | composeApp/src/commonMain/kotlin/io/github/warforged5/racemultitimer/ui/components/ControlBar.kt:346-353 | Defines the rest-time text; `FormatRestTimeReadsBack` states its two layouts. |
| `ControlBar.CountdownLabelReads` | composeApp/src/commonMain/kotlin/io/github/warforged5/racemultitimer/ui/components/ControlBar.kt:250 | While seconds remain, the overlay shows just that number. |
| `ControlBar.OverlayFollowsCountdown` | composeApp/src/commonMain/kotlin/io/github/warforged5/racemultitimer/ui/components/ControlBar.kt:230-266 | Each countdown step shows the second it reached, and the final step shows "GO!". |
| `ControlBar.FormatRestTimeReadsBack` | composeApp/src/commonMain/kotlin/io/github/warforged5/racemultitimer/ui/components/ControlBar.kt:346-354 | The rest time reads back as seconds and "s" below a minute, otherwise unwrapped minutes, ":" and two-digit seconds adding up to the duration. |
| `PaceMakerBar.FormatPaceTimeReadsBack` | composeApp/src/commonMain/kotlin/io/github/warforged5/racemultitimer/ui/components/PaceMakerBar.kt:220-230 | A split time reads back as the whole seconds: seconds and "s" below a minute, otherwise minutes and two-digit seconds. |
| `PaceMakerBar.DividersAppend` | composeApp/src/commonMain/kotlin/io/github/warforged5/racemultitimer/ui/components/PaceMakerBar.kt:95-103 | Dividers of a concatenated row add up. |
| `PaceMakerBar.Cells` | composeApp/src/commonMain/kotlin/io/github/warforged5/racemultitimer/ui/components/PaceMakerBar.kt:60-103 | One cell per split, in split order, each with the split's label, its time and its emphasis. |
| `PaceMakerBar.LayoutItems` | composeApp/src/commonMain/kotlin/io/github/warforged5/racemultitimer/ui/components/PaceMakerBar.kt:60-103 | Laid out, cell k sits at place 2k and a divider at place 2k + 1 for every cell but the last; n cells take 2n - 1 places. |
| `PaceMakerBar.LayoutDividers` | composeApp/src/commonMain/kotlin/io/github/warforged5/racemultitimer/ui/components/PaceMakerBar.kt:95-103 | When no cell is a divider, a layout of n cells holds exactly n - 1 dividers. |
| `PaceMakerBar.RowShape` | composeApp/src/commonMain/kotlin/io/github/warforged5/racemultitimer/ui/components/PaceMakerBar.kt:60-103 | A row of n splits is 2n - 1 items: the n cells in order and n - 1 dividers between them; an empty table gives an empty row. |
| `PaceMakerBar.MarkerRowEmphasis` | composeApp/src/commonMain/kotlin/io/github/warforged5/racemultitimer/ui/components/PaceMakerBar.kt:31-103 | In a marker's row, the last cell is the event at its target time, emphasised; every earlier cell is plain. |
| `PaceMakerBar.NoteBars` | composeApp/src/commonMain/kotlin/io/github/warforged5/racemultitimer/ui/components/PaceMakerBar.kt:200-205 | One note bar per visible note, in order. |
| `PaceMakerBar.MarkerBars` | composeApp/src/commonMain/kotlin/io/github/warforged5/racemultitimer/ui/components/PaceMakerBar.kt:208-213 | One marker bar per visible marker, in order. |
| `PaceMakerBar.MarkersSectionShowsVisible` | composeApp/src/commonMain/kotlin/io/github/warforged5/racemultitimer/ui/components/PaceMakerBar.kt:183-215 | Everything the section shows is a visible note or marker of the inputs, and all note bars come before all marker bars. |
| `PaceMakerBar.MarkersSectionShowsAll` | composeApp/src/commonMain/kotlin/io/github/warforged5/racemultitimer/ui/components/PaceMakerBar.kt:183-215 | Every visible note and marker is shown, and the section is empty exactly when nothing is visible. |
| `PaceMakerBar.MarkersSectionInOrder` | composeApp/src/commonMain/kotlin/io/github/warforged5/racemultitimer/ui/components/PaceMakerBar.kt:183-215 | The section is the visible notes' bars then the visible markers' bars; each visible item sits at the place after the visible items before it, so order is kept and each appears once. |
| `PaceMakerBar.MarkersSectionBars` | composeApp/src/commonMain/kotlin/io/github/warforged5/racemultitimer/ui/components/PaceMakerBar.kt:190-213 | The section equals the note bars followed by the marker bars, which is empty when nothing is visible. |
| `PaceMakerBar.NotesPlaced` | composeApp/src/commonMain/kotlin/io/github/warforged5/racemultitimer/ui/components/PaceMakerBar.kt:199-205 | A visible note's bar sits right after the bars of the visible notes before it. |
| `PaceMakerBar.MarkersPlaced` | composeApp/src/commonMain/kotlin/io/github/warforged5/racemultitimer/ui/components/PaceMakerBar.kt:207-213 | A visible marker's bar sits after all note bars and the bars of the visible markers before it. |
| `PaceMakerBar.VisibleNotesInOrder` | composeApp/src/commonMain/kotlin/io/github/warforged5/racemultitimer/ui/components/PaceMakerBar.kt:190 | filter keeps the visible notes in their order, each at its own place. |
| `PaceMakerBar.VisibleMarkersInOrder` | composeApp/src/commonMain/kotlin/io/github/warforged5/racemultitimer/ui/components/PaceMakerBar.kt:191 | filter keeps the visible markers in their order, each at its own place. |
| `PaceMakerBar.MarkersSection` | composeApp/src/commonMain/kotlin/io/github/warforged5/racemultitimer/ui/components/PaceMakerBar.kt:183-215 | Defines the rendered items; `MarkersSectionInOrder`, `MarkersSectionShowsVisible` and `MarkersSectionShowsAll` state what it shows. |
| `PaceMakerBar.FormatPaceTime` | composeApp/src/commonMain/kotlin/io/github/warforged5/racemultitimer/ui/components/PaceMakerBar.kt:220-230 | Defines the split-time text; `FormatPaceTimeReadsBack` states its two layouts. |
| `Text.ToIntOrNullDigits` | composeApp/src/commonMain/kotlin/io/github/warforged5/racemultitimer/domain/Models.kt:311 | toIntOrNull parses a non-empty digit string within Int range to its value, and rejects the empty string. |
| `Text.RemoveCharRemoves` | composeApp/src/commonMain/kotlin/io/github/warforged5/racemultitimer/domain/Models.kt:311 | replace("m", "") leaves no "m" and changes a string without one not at all. |
| `Text.BlankIffTrimEmpty` | composeApp/src/commonMain/kotlin/io/github/warforged5/racemultitimer/viewmodel/RaceTimerViewModel.kt:229 | A name is blank exactly when trimming it leaves nothing, so trim().ifEmpty and isNotBlank agree. |
| `Seqs.MoveUndo` | composeApp/src/commonMain/kotlin/io/github/warforged5/racemultitimer/viewmodel/RaceTimerViewModel.kt:241-243 | removeAt then add at the other index, done back, restores the list. |
| `Seqs.MovePermutes` | composeApp/src/commonMain/kotlin/io/github/warforged5/racemultitimer/viewmodel/RaceTimerViewModel.kt:241-243 | removeAt then add keeps the same elements. |
| `Seqs.Sorted` | composeApp/src/commonMain/kotlin/io/github/warforged5/racemultitimer/viewmodel/RaceTimerViewModel.kt:438 | sorted() returns an ascending permutation. |
| `Seqs.Filter` | composeApp/src/commonMain/kotlin/io/github/warforged5/racemultitimer/viewmodel/RaceTimerViewModel.kt:217 | Kotlin filter: no longer than the input, every element kept is from the input and passes the test, and every passing element is kept. |
| `Seqs.FilterCounts` | composeApp/src/commonMain/kotlin/io/github/warforged5/racemultitimer/viewmodel/RaceTimerViewModel.kt:217 | filter adds nothing: each value occurs as often as in the input when it passes the test, and not at all otherwise. |
| `Seqs.FilterAt` | composeApp/src/commonMain/kotlin/io/github/warforged5/racemultitimer/viewmodel/RaceTimerViewModel.kt:217 | A kept element lands right after the kept elements before it. |
| `Seqs.FilterPrefix` | composeApp/src/commonMain/kotlin/io/github/warforged5/racemultitimer/viewmodel/RaceTimerViewModel.kt:217 | Filtering a prefix keeps no more than filtering the whole list. |
| `Seqs.FilterPlaces` | composeApp/src/commonMain/kotlin/io/github/warforged5/racemultitimer/viewmodel/RaceTimerViewModel.kt:217 | Kept elements appear in their original order: a later kept element has a later place. |
| `Seqs.FilterInOrder` | composeApp/src/commonMain/kotlin/io/github/warforged5/racemultitimer/viewmodel/RaceTimerViewModel.kt:217 | For every kept element at once: its place after the kept elements before it, and later elements at later places. |
| `Seqs.Move` | composeApp/src/commonMain/kotlin/io/github/warforged5/racemultitimer/viewmodel/RaceTimerViewModel.kt:241-243 | removeAt then add keeps the length; `MoveIndex`, `MoveUndo` and `MovePermutes` state the rest. |
| `Text.ToIntOrNull` | composeApp/src/commonMain/kotlin/io/github/warforged5/racemultitimer/domain/Models.kt:311 | toIntOrNull yields only values within the Int range; `ToIntOrNullDigits` states what it accepts. |
| `Text.Trim` | composeApp/src/commonMain/kotlin/io/github/warforged5/racemultitimer/viewmodel/RaceTimerViewModel.kt:230 | Defines trim(); `TrimBounds` and `BlankIffTrimEmpty` state its shape. |
| `Text.TrimBounds` | composeApp/src/commonMain/kotlin/io/github/warforged5/racemultitimer/viewmodel/RaceTimerViewModel.kt:230 | trim() is the slice between a whitespace prefix and a whitespace suffix, and it neither starts nor ends with whitespace. |


## Left out

- The refresh loop at 10 ms or 100 ms (RaceTimerViewModel.kt:121-142) is one `Refresh(now)` step. `delay` is not modelled. Cancelling a coroutine is modelled as replacing the job field.
- The countdown and rest jobs are explicit steps (`CountdownTick`, `RestTick`). The start event does only the synchronous state update. Each write of the coroutine's loop, the first `countdownRemaining`/`restTimerRemaining = seconds` included, is a separate tick, and the one-second `delay` between ticks is not modelled.
- `Clock.System.now()` becomes a `now` parameter. The view model requires each event's `now` to be no earlier than the previous one (a monotone clock).
- `LapTime.timestamp` and `TimerPreset.createdAt` come from the same parameter.
- `ViewModel.RaceTimerViewModel.LoadPreset`: one `now` stands for the clock reading of every lane id it generates, where the source reads the clock once per id. Id uniqueness rests on the counter alone, so no property depends on this.
- `Models.Lane.AverageLapTime`: the source averages in floating point and truncates to Long. The model uses the integer quotient of the sum by the count. This agrees for non-negative durations up to floating-point rounding.
- `Pace.SplitTime`: the source computes `targetTime / totalDistance` in floating point and truncates the product. The model uses the truncating quotient of `distance * targetTime` by the total, which can differ from the source by floating-point rounding.
- The rest bar's progress fraction (ControlBar.kt:274) is floating point and is not modelled.
- Integers are unbounded. Kotlin `Int`/`Long` overflow is not modelled, except that `toIntOrNull` rejects values outside the `Int` range.
- `toIntOrNull` accepts ASCII digits with an optional sign. Other Unicode digits are not modelled.
- The toolbar flags, overlay label, dialog steppers and split row are modelled as values and functions. Compose rendering, colours, animation, haptics and scrolling are not modelled.
- Serialization annotations are not modelled.
- `ShareableLane` values are taken as given. The mapping that builds them from lanes (RaceTimerScreen.kt:367-392) is not part of this model.
- The separator of the results text is the two characters U+00E2 U+2022 repeated 30 times, as the source file spells it. It is not the single box-drawing character that may have been meant.
- `Engine.ReorderLanes`: requires in-range indices when they differ. Out-of-range indices make `removeAt`/`add` throw in the source.
- `IdGen.IdGenerator`: the process-wide singleton is passed to the view model's constructor and is a shared object.
- `TimeUtils.FormatTimeReadsBack`: like the other read-back lemmas (`FormatLapTimeReadsBack`, `FormatDurationReadsBack`, `FormatPresetLabelReadsBack`, `FormatMarkerTimeReadsBack`, `FormatRestTimeReadsBack`, `FormatPaceTimeReadsBack`), it is stated for non-negative inputs only. The formatters themselves are total, with Kotlin's truncating division.
- `Dialogs.SecondsDown` keeps values on the five-second grid only when they start on it. The dial starts off the grid when it is opened at a duration that is not a multiple of five.
- `ControlBar.FloatingToolbar` enables Start All during a countdown, as the source does.
- The `SavePresetDialog`, `RenameLaneDialog` and `AddNoteDialog` text fields are not modelled. Only their blank-name guard is, and the engine transitions check it again.
- The `AddPaceDialog` event and split pickers are not modelled. Its minute and second steppers are the same expressions as the rest dialog's.
