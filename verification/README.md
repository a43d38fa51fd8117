# Saber2Steps conversion core in Dafny

Saber2Steps turns a Beat Saber map into a StepMania (`.sm`) dance chart.
This project models that conversion and proves properties of the model.
The model covers these stages:

- **Normalising the map files.** v3 colour notes are rewritten as v2 notes. The charts are sorted by note count, at most ten are kept, and each gets a difficulty name.
- **Quantising note times.** Each note is snapped to the auto-snap grid, and each measure gets its tick resolution: the least common multiple of its notes' grid sizes.
- **Building each measure.** The `StepBuilder` walks the measure tick by tick. The notes of a tick are grouped by hand and jump mode, placed on lanes by the placement rules, and turned into a tick of four cells (empty, tap, mine). The class counts taps, jumps, hands and mines, and remembers the previous tick and the foot used last.
- **The randomised placement variant.** `StepLocationBuilder` applies the same rules to a lookback buffer and may search for a more varied single lane.
- **Serialising the song.** The song header and the chart blocks are written as `.sm` text, by both serialisers.
- **The small helpers.** These are the metronome timestamps, the note-shift timing, the settings defaults and schema, the map link and map form validation, and the note colours of the visualisers.

The model uses these representations:

- **Time.** After snapping, time is an integer count of units of 1/96 beat, so a four-beat measure is 384 units. Raw note times, seconds and tempo are exact `real`s.
- **Cells.** A cell is `Empty`, `Tap` or `Mine`.
- **The NaN lane.** The lane `(undefined + 1) % 4`, which a bombs-only tick produces in the `both` and `twohands` jump modes, is the constant `NoLane` (-1).
- **Classes and loops.** Code that changes state keeps that form:
  - `StepBuilder` and `SaberParser` are classes whose methods update their fields.
  - The caller's lane array of `enforcePlacementRules` is a Dafny `array`.
  - `previousFoot` is a small class.
  - The loops of the source are `while` loops proved against specification functions.
- **Outside inputs.** These become parameters:
  - `Math.random` is a finite sequence of draws in [0, 1). Running out of draws gives the outcome `OutOfDraws`.
  - The floating-point randomness score is `blend`.
  - `Math.round(Math.sqrt(...))` of the meter is `meterOf`.
  - `Number.prototype.toString` is `numToString`.
  - `toFixed(6)` is `toDecimals`.
  - The imported `ITG_OFFSET` is `itgOffset`.

Some behaviours of the code are easy to miss:

- **Gap settings.** The schema accepts any value from 4 to 32, not only the values offered in the form (`StepConfigurationShared.SchemaOnlyBoundsRange`). The model takes whole values only.
- **Bombs on a tap.** A bomb that lands on a tap turns the lowest non-empty cell of the tick into a mine, and that cell may be a tap or a mine (`TickCells.LayBombsCells`).
- **Tempo 0 and empty note lists.** A tempo that is not a number or is 0 becomes 120 (`ChartSpec.BpmOr120`), and a map without notes gives a chart with no measures. An info file with no tempo at all makes the parser throw before any builder sees it (`SaberParser.HasTempo`). `SaberParser.ChartFor`, `SaberParser.StepFileOf` and the lemmas about them describe the run that succeeds, so they take the tempo as given.
- **The search for a varied lane.** The search tries single lanes only, and it keeps a try only when its score is strictly higher (`StepLocationBuilder.GetRandomChoiceForSingle`).
- **Song length for the meter.** The meter uses the time of the last note in list order, not the latest time (`ChartSpec.LastTime`).
- **Jumps in parsed maps.** The parser's builder sets no jump mode, so a tick with notes of two or more hands gets no step (`SaberParser.NoJumpModeSkipsJumps`).

## Model

| member | source | states |
|---|---|---|
| Strings.SplitJoin | src/parser/StepOutputBuilder.ts:63-68 | splitting a `join` on its separator gives the parts back when no part holds the separator's marker character (the parse-back of the notes body) |
| Strings.IndexOfFrom | src/parser/StepOutputBuilder.ts:100 | the index found is the first occurrence of the pattern at or after the start, and -1 means it occurs nowhere from there on |
| Strings.ReplaceFirst | src/parser/StepOutputBuilder.ts:100 | `replace` with a string pattern changes only the first occurrence, and a string without the pattern is unchanged |
| Strings.ReplaceFirstAtStart | src/wizard-flow/steps/Step1-LoadMap/LoadMapStep.tsx:50-53 | replacing a pattern that starts the string leaves the replacement followed by the rest |
| Strings.BeforeFirst | src/parser/StepOutputBuilder.ts:59 | `split(c)[0]` is a prefix without `c`, followed in the string by `c` when `c` occurs, and is the whole string otherwise |
| Strings.NatToString | src/parser/StepBuilder.ts:93 | the decimal form of a number is a non-empty string of digits |
| StepConfigurationShared.DefaultsAreValid | src/form/stepConfigurationShared.ts:19-41 | the defaults are crossover and hands 'false', jump mode 'swing', auto-snap 24, crossover and double-tap gaps 4, jump, tap-jump and jump-tap gaps 8, and they pass the schema |
| StepConfigurationShared.GapValidIffInRange | src/form/stepConfigurationShared.ts:36-41 | in a valid configuration, changing any one gap field keeps it valid exactly when the new value lies in 4..32 |
| StepConfigurationShared.SchemaOnlyBoundsRange | src/form/stepConfigurationShared.ts:31-42 | the schema bounds the range only: a gap of 5 and a jump mode outside the union type are accepted |
| StepBuilderTypes.FromForm | src/parser/StepBuilder.types.ts:4-14 | a validated settings form gives a builder config holding the form's crossover, hands and jump mode, and its five placement gaps, each from 4 to 32, with the randomness level passed in |
| StepBuilderTypes.TapLanes | src/parser/StepBuilder.ts:328-333 | the previous positions are exactly the lanes of the previous tick that hold a tap, ascending |
| Placement.Rotate | src/parser/StepBuilder.ts:199 | `(lane + 1) % 4` keeps a lane among 0..3 |
| Placement.AcceptedFoot | src/parser/StepBuilder.ts:229-240 | after a single, the same position keeps the foot, lane 0 gives left, lane 3 gives right, and any other lane changes the foot and never leaves it unset |
| Placement.NoThreeMoves | src/parser/StepBuilder.ts:194-228 | no lane is moved on three times in a row, so at most two rotations happen |
| Placement.Place | src/parser/StepBuilder.ts:180-271 | `getLocationForNotes` places only lanes 0..3 or the NaN lane |
| Placement.PlaceSingle | src/parser/StepBuilder.ts:194-241 | a single is dropped exactly when it follows a jump within the jump-then-tap gap. Otherwise it keeps one lane, the first of the lane and its next two rotations that no rule moves. That lane obeys the double-tap, jump-tap and crossover rules, and the foot is updated from it. The input lane is kept exactly when it already obeys every rule |
| Placement.PlaceJump | src/parser/StepBuilder.ts:242-269 | a jump too soon after a jump or a tap is cut to its first lane and placed as a single. Any other jump is kept (its first two lanes when hands are off) with the foot unchanged |
| NoteGrouping.LanesOfType | src/parser/StepBuilder.ts:280-295 | the lanes of one hand's notes, in note order, are lanes 0..3 |
| NoteGrouping.BumpRepeatsAt | src/parser/StepBuilder.ts:284-293 | a lane the hand already holds is pushed one lane to the right (wrapping to 0), and any other lane is pushed as it is |
| NoteGrouping.HandIndices | src/parser/StepBuilder.ts:280-299 | `Object.values` gives at most three lane lists, none of them empty |
| NoteGrouping.Dedup | src/parser/StepBuilder.ts:307-313 | `Array.from(new Set(xs))` holds the same values, each once |
| NoteGrouping.Firsts | src/parser/StepBuilder.ts:314-326 | the first lane of each hand, in hand order |
| NoteGrouping.Swings | src/parser/StepBuilder.ts:301-306 | the hands with two or more notes |
| NoteGrouping.CurrentLocationsLanes | src/parser/StepBuilder.ts:296-327 | every lane asked for is a lane 0..3 or the NaN lane |
| NoteGrouping.PaddedJump | src/parser/StepBuilder.ts:307-326 | in 'both' and 'twohands' mode, two or more hands give two or more distinct lanes that include each hand's first lane, and a bombs-only tick asks for the NaN lane |
| NoteGrouping.SwingNone | src/parser/StepBuilder.ts:301-306 | in 'swing' mode, two or more hands of which none swings give the first hand's first lane |
| NoteGrouping.SwingSome | src/parser/StepBuilder.ts:301-306 | in 'swing' mode, when some hand swings, the lanes asked for are exactly the swinging hands' lanes, each once |
| TickCells.CountCells | src/parser/StepBuilder.ts:157-159 | a count of cells never exceeds the tick's width |
| TickCells.TapCells | src/parser/StepBuilder.ts:344-346 | the fresh tick has a tap exactly on the placed lanes and is empty elsewhere, and the NaN lane writes no cell |
| TickCells.MarkBombsCells | src/parser/StepBuilder.ts:348-356 | the first bomb loop turns exactly the bomb lanes without a tap into mines, and leaves as many bombs to lay as fell on taps |
| TickCells.FillMinesCells | src/parser/StepBuilder.ts:358-365 | the second loop turns the first `count` non-empty cells into mines, from lane 0 on, and leaves every other cell |
| TickCells.LayBombsCells | src/parser/StepBuilder.ts:348-365 | after both loops, a cell is empty exactly when it was empty and no bomb fell on it. A tap is never added. A bomb on a lane without a tap leaves a mine. With no bomb on a tap every tap stays |
| Fractions.GenerateFractions | src/parser/StepBuilder.ts:15-39 | the loop's result is the specification's list of grid members, with the subfraction grid merged in when asked for |
| Fractions.GridShape | src/parser/StepBuilder.ts:15-24 | for a resolution `d` that is a multiple of 4, the grid has `d/4 + 1` ascending members, from 0 to one whole beat |
| Fractions.GridMembers | src/parser/StepBuilder.ts:15-24 | a grid member is a multiple of the grid spacing between 0 and one beat, and every such multiple is a member |
| Fractions.SubfractionsMembers | src/parser/StepBuilder.ts:25-38 | with subfractions the result holds exactly the members of the grid and of its companion grid (8 for 12, 16 for 24, 24 for 32), strictly ascending and so without duplicates |
| Fractions.AscendingBelow | src/parser/StepBuilder.ts:33-37 | the de-duplicated, sorted list holds exactly the set's members below the bound, strictly ascending |
| Fractions.TableGridsExact | src/parser/StepBuilder.ts:13-47 | every resolution in the table is a multiple of 4 whose grid divides the measure exactly |
| Fractions.FractionsTable | src/parser/StepBuilder.ts:41-47 | `FRACTIONS[d]` is defined exactly for the table's resolutions and is then the grid of `d`, of `d/4 + 1` members |
| Fractions.NearestScan | src/parser/StepBuilder.ts:129-140 | the scan's best distance never exceeds 1. Below 1 its member comes from the list, and at 1 it is the start value 0 |
| Fractions.NearestScanBest | src/parser/StepBuilder.ts:129-140 | the best distance is its member's own distance and at most every member's distance, and no member as close comes before the one kept |
| Fractions.NearestIsClosest | src/parser/StepBuilder.ts:129-140 | when the list holds 0, the member picked is in the list and no member is closer to the fraction |
| Fractions.NearestIsEarliest | src/parser/StepBuilder.ts:129-140 | ties go to the earliest member: every member as close comes at or after the one picked |
| Fractions.SnapOnGrid | src/parser/StepBuilder.ts:416-421 | a snapped note sits on a member of the grid inside its beat, and no member is closer to where it was. A note already on the grid keeps its time exactly |
| Fractions.SnapOfGridPoint | src/parser/StepBuilder.ts:416-421 | a time on a grid member of its beat snaps to itself |
| Fractions.SnapIdempotent | src/parser/StepBuilder.ts:416-421 | snapping a snapped time leaves it unchanged |
| Resolution.OnGridIsMember | src/parser/StepBuilder.ts:118-127 | lying on the grid of `d` is being a member of `FRACTIONS[d]` |
| Resolution.BeatsPerMeasureForFraction | src/parser/StepBuilder.ts:118-127 | the resolution picked is always one of the table's |
| Resolution.BeatsPerMeasureIsFirst | src/parser/StepBuilder.ts:118-127 | the resolution picked holds the position, and no smaller table resolution holding it is skipped |
| Resolution.BeatsPerMeasureFallback | src/parser/StepBuilder.ts:126 | a position on no grid gets 128 |
| Resolution.BeatsPerMeasureDivides96 | src/parser/StepBuilder.ts:118-127 | a position on the 96-grid gets a resolution dividing 96, never 64 or 128 |
| Resolution.Gcd | src/parser/StepBuilder.ts:144-151 | the loop of `gcd` computes the greatest common divisor |
| Resolution.GcdDivides | src/parser/StepBuilder.ts:144-151 | the gcd is positive and divides both arguments |
| Resolution.GcdGreatest | src/parser/StepBuilder.ts:144-151 | every common divisor divides the gcd |
| Resolution.LeastCommonMultiple | src/parser/StepBuilder.ts:142-155 | `getLeastCommonMultiple` computes `a * b / gcd(a, b)` |
| Resolution.LcmCommonMultiple | src/parser/StepBuilder.ts:142-155 | the lcm is a positive multiple of both arguments |
| Resolution.LcmTimesGcd | src/parser/StepBuilder.ts:142-155 | the lcm times the gcd is the product |
| Resolution.LcmLeast | src/parser/StepBuilder.ts:142-155 | the lcm divides every positive common multiple |
| Resolution.ResolutionOf | src/parser/StepBuilder.ts:436-449 | a measure's resolution is positive |
| Resolution.ResolutionIsCommonMultiple | src/parser/StepBuilder.ts:436-449 | a measure's resolution is a multiple of 4 and of every note's resolution |
| Resolution.ResolutionDivides96 | src/parser/StepBuilder.ts:436-449 | when every note sits on the 96-grid the resolution divides 96 |
| Resolution.DivisorsOf96InTable | src/parser/StepBuilder.ts:13 | every multiple of 4 dividing 96 is in the table |
| Resolution.ResolutionInTable | src/parser/StepBuilder.ts:436-449 | with notes on the 96-grid the resolution is in the table, so `FRACTIONS[beatsPerMeasure]` exists |
| StepBuilderSpec.PreviousPositions | src/parser/StepBuilder.ts:328-333 | the previous positions never hold the NaN lane |
| StepBuilderSpec.BombLanes | src/parser/StepBuilder.ts:348-350 | the bombs' lanes are lanes 0..3 |
| StepBuilderSpec.Wanted | src/parser/StepBuilder.ts:280-327 | the lanes asked for are lanes 0..3 or the NaN lane |
| StepBuilderSpec.BuildNotesSpec | src/parser/StepBuilder.ts:273-369 | `buildNotes` makes a tick of four cells |
| StepBuilderSpec.NotesAt | src/parser/StepBuilder.ts:381 | the filter keeps exactly the notes at the tick's time, and never more notes than it is given |
| StepBuilderSpec.Step | src/parser/StepBuilder.ts:381-390 | one pass of the measure loop makes a tick of four cells |
| StepBuilderSpec.MeasureSpec | src/parser/StepBuilder.ts:371-404 | a measure at resolution `d` has exactly `d` ticks |
| StepBuilderSpec.NotesOfMeasure | src/parser/StepBuilder.ts:422-430 | a measure's list holds exactly the notes whose time falls in it |
| StepBuilderSpec.MeasureCount | src/parser/StepBuilder.ts:422-423 | `numberOfMeasures` lies above every note's measure index, and when it is positive some note lies in its last measure |
| StepBuilderSpec.MeasuresFrom | src/parser/StepBuilder.ts:451-467 | a build that succeeds has one measure per index |
| StepBuilderProps.OffsetOnResolution | src/parser/StepBuilder.ts:436-449 | a note on the 96-grid lies on the grid of its measure's resolution, which is in the table |
| StepBuilderProps.TickTimesAscend | src/parser/StepBuilder.ts:391-401 | a measure's ticks come in time order |
| StepBuilderProps.LandsOnTick | src/parser/StepBuilder.ts:380-401 | a time inside the measure that lies on its resolution's grid is the time of one of its ticks |
| StepBuilderProps.EveryNoteLands | src/parser/StepBuilder.ts:381-467 | with note times that are exact units on the 96-grid, as the model's snapped times are, each note of a measure falls on one of the measure's ticks, so none is lost. The source can lose unsnapped raw times (see `StepBuilder.StepBuilder.SnapTime` under "## Left out") |
| StepBuilderProps.MeasureAtSucceeds | src/parser/StepBuilder.ts:397-467 | with note times on the 96-grid, building a measure never reaches the throw at `fractions.length` |
| StepBuilderProps.NeverFails | src/parser/StepBuilder.ts:451-467 | so building all the measures never fails |
| StepBuilderProps.AllowedFractions | src/parser/StepBuilder.ts:15-38 | an auto-snap grid from 4 to 32 that divides the measure holds 0, and only multiples of 4 units up to one beat |
| StepBuilderProps.SnapQuarter | src/parser/StepBuilder.ts:416-421 | a time snapped to such a grid is a multiple of 4 units |
| StepBuilderProps.CountedOrdered | src/parser/StepBuilder.ts:157-171 | counting keeps tap >= jump >= hands. The tap counter grows by one exactly when the tick has a tap. Mines grow by the bombs plus the tick's mine cells |
| StepBuilderProps.CountCellsPositive | src/parser/StepBuilder.ts:157-171 | a cell count is positive exactly when the cell value occurs |
| StepBuilderProps.BuildNotesOrdered | src/parser/StepBuilder.ts:273-369 | one tick keeps the counters ordered |
| StepBuilderProps.MeasuresOrdered | src/parser/StepBuilder.ts:451-467 | building the whole chart keeps tap >= jump >= hands |
| StepBuilderProps.MeasureTicks | src/parser/StepBuilder.ts:371-404 | every tick of a measure has four cells |
| StepBuilderProps.TickCellsMeaning | src/parser/StepBuilder.ts:344-365 | a built tick's cell is empty exactly when no lane was placed and no bomb fell on it. A tap is only where a lane was placed, and every placed lane is a tap when no bomb hit a tap. A bomb on a cell without a tap leaves a mine |
| StepBuilderProps.TickFoot | src/parser/StepBuilder.ts:335-342 | after a tick, a jump clears the foot, and otherwise the foot is the one the placement left. The previous tick and time are untouched by `buildNotes` |
| StepBuilderProps.MeasuresShape | src/parser/StepBuilder.ts:451-467 | the chart has one measure per index from 0. An index without notes gives four empty ticks, and any other gives as many ticks as its resolution |
| StepBuilder.StepBuilder.constructor | src/parser/StepBuilder.ts:58-64 | the builder starts with zero counters, no previous tick and no foot, and its fractions are the auto-snap grid with subfractions |
| StepBuilder.PreviousPositionsOf | src/parser/StepBuilder.ts:328-333 | the `forEach` collects the tap lanes of the previous tick, and none without one |
| StepBuilder.GroupHands | src/parser/StepBuilder.ts:280-299 | the `reduce` and `Object.values` give each hand's bumped lane list |
| StepBuilder.LocationsFor | src/parser/StepBuilder.ts:296-327 | the lanes asked for are the jump mode's merge of the hands' lists, all lanes 0..3 or the NaN lane |
| StepBuilder.TapTick | src/parser/StepBuilder.ts:344-346 | the fresh array holds the tap cells of the placed lanes |
| StepBuilder.MarkBombsIn | src/parser/StepBuilder.ts:348-356 | the first bomb loop updates the array in place as the specification does and counts the bombs that fell on taps |
| StepBuilder.FillMinesIn | src/parser/StepBuilder.ts:358-365 | the second loop updates the array in place as the specification does |
| StepBuilder.FillTick | src/parser/StepBuilder.ts:344-365 | the tick is the tap cells with the bombs laid |
| StepBuilder.AutoSnap | src/parser/StepBuilder.ts:61 | `\|\| 24`: a missing or zero setting means 24, and any other setting is kept |
| StepBuilder.SnapAll | src/parser/StepBuilder.ts:409-421 | every note is snapped, in order, and none is lost |
| StepBuilder.GroupedIsGroupedBy | src/parser/StepBuilder.ts:409-434 | the `reduce` groups the notes by measure, each measure's notes in order |
| StepBuilder.GroupKeysAreKeys | src/parser/StepBuilder.ts:424-430 | the object's keys are exactly the measures that have notes |
| StepBuilder.ShiftInRange | src/parser/StepBuilder.ts:75-86 | moving notes keeps their lanes and types in range |
| StepBuilder.FreshChart | src/parser/StepBuilder.ts:88-103 | a fresh builder's chart is 'dance-single', named after the difficulty, with no holds and a positive decimal meter. It has one measure per measure up to the last note's, and tap >= jump >= hands |
| StepBuilder.ChartNeverFails | src/parser/StepBuilder.ts:58-64 | with an auto-snap setting from 4 to 32 that divides the measure, building never reaches the throw |
| StepBuilder.StepBuilder.GetNeariestFraction | src/parser/StepBuilder.ts:129-140 | the loop returns the scan's member: the closest member of `_fractions`, the earliest on ties |
| StepBuilder.StepBuilder.SnapTime | src/parser/StepBuilder.ts:416-421 | a note's time is kept when its fraction is a member, and moved to the nearest member otherwise |
| StepBuilder.StepBuilder.GetLocationForNotes | src/parser/StepBuilder.ts:180-271 | the placement and the new foot are those of the rules, and no counter or previous tick changes |
| StepBuilder.StepBuilder.CountNotes | src/parser/StepBuilder.ts:157-171 | the tick's mines are added, and tap, jump and hands each grow by one when the tick has at least one, two or three taps |
| StepBuilder.StepBuilder.BuildNotes | src/parser/StepBuilder.ts:273-369 | the tick and the builder's new state are those of `buildNotes`' specification |
| StepBuilder.StepBuilder.TickAt | src/parser/StepBuilder.ts:381-390 | one tick built from the notes at its time, remembered as the previous tick when it holds a tap, and an empty tick when no note is there |
| StepBuilder.StepBuilder.TicksOfMeasure | src/parser/StepBuilder.ts:380-401 | the loop makes the measure's ticks one grid step apart and wraps the fraction index at each beat |
| StepBuilder.StepBuilder.BuildStepNotesForMeasure | src/parser/StepBuilder.ts:371-404 | the method fails exactly for a resolution outside the table (the throw at `fractions.length`), and otherwise builds the measure's `d` ticks |
| StepBuilder.StepBuilder.GetBeatsPerMeasureForFraction | src/parser/StepBuilder.ts:118-127 | the loop returns the first table resolution holding the position, else 128 |
| StepBuilder.StepBuilder.MeasureResolution | src/parser/StepBuilder.ts:437-447 | the inner loop computes the lcm fold of the notes' resolutions from 4 |
| StepBuilder.StepBuilder.GroupByMeasure | src/parser/StepBuilder.ts:409-434 | each note is snapped, the measures are counted, and the notes are grouped by measure with the object's key list |
| StepBuilder.StepBuilder.Resolutions | src/parser/StepBuilder.ts:436-449 | every measure with notes gets its resolution, and no other key appears |
| StepBuilder.StepBuilder.BuildMeasure | src/parser/StepBuilder.ts:452-466 | a measure without notes gives four empty ticks, and any other is built at its resolution |
| StepBuilder.StepBuilder.BuildMeasures | src/parser/StepBuilder.ts:451-467 | the measures 0 to the last, and a measure that throws ends the build |
| StepBuilder.StepBuilder.BuildV2StepNotes | src/parser/StepBuilder.ts:406-470 | the snapped notes are well formed, and the measures and the new state are the specification's |
| StepBuilder.StepBuilder.Build | src/parser/StepBuilder.ts:66-103 | `build` gives the chart of the specification: notes moved by the offset, built into measures, with the counters and the meter |
| ChartSpec.BpmOr120 | src/parser/StepBuilder.ts:78 | `Number(bpm) \|\| 120`: the tempo is never 0, and a missing or zero tempo gives 120 |
| ChartSpec.OffsetInBeatsZero | src/parser/StepBuilder.ts:79-81 | the notes move exactly when an additional offset other than `ITG_OFFSET` is set |
| ChartSpec.ShiftNotes | src/parser/StepBuilder.ts:82-85 | every note keeps its place and all other fields, and its time moves by exactly the shift |
| ChartSpec.ShiftNotesZero | src/parser/StepBuilder.ts:75-86 | a zero shift leaves the notes as they are |
| ChartSpec.ShiftNotesCompose | src/parser/StepBuilder.ts:75-86 | two shifts are one shift by their sum, so shifting back undoes a shift |
| ChartSpec.LastTime | src/parser/StepBuilder.ts:106 | the time of the last note in the list, present exactly when there are notes |
| ChartSpec.WeightedCount | src/parser/StepBuilder.ts:112 | the weighted count is at least the taps, and 0 exactly when no tap, jump or hands was counted |
| ChartSpec.ChartDifficulty | src/parser/StepBuilder.ts:105-116 | the meter is at least 1. It is 1 for a missing or zero last time, a missing or zero tempo, or no counted notes. A meter above 1 is the rounding of a positive notes-per-minute |
| ChartSpec.DifficultyMonotone | src/parser/StepBuilder.ts:105-116 | for a rounding that grows with its argument, more weighted notes in the same song never lower the meter |
| StepLocationBuilder.FootRef.constructor | src/parser/StepLocationBuilder.ts:125 | the reference holds the foot it is made with |
| StepLocationBuilder.Without | src/parser/StepLocationBuilder.ts:5 | `pool.filter(i => i !== x)` keeps exactly the other members |
| StepLocationBuilder.Choices | src/parser/StepLocationBuilder.ts:4-5 | the choices are the lanes other than the excluded one: three for a lane, all four otherwise |
| StepLocationBuilder.PickIndex | src/parser/StepLocationBuilder.ts:6 | `Math.floor(d * n)` is an index into the choices |
| StepLocationBuilder.RandomChoiceExcluding | src/parser/StepLocationBuilder.ts:4-7 | the choice is a lane other than the excluded one |
| StepLocationBuilder.EveryOtherLaneReachable | src/parser/StepLocationBuilder.ts:4-7 | every other lane is the choice of some draw |
| StepLocationBuilder.CountLane | src/parser/StepLocationBuilder.ts:17-25 | a lane's count never exceeds the buffer length |
| StepLocationBuilder.Counts | src/parser/StepLocationBuilder.ts:17-25 | `getCounts` gives four counts |
| StepLocationBuilder.CountsAfterPush | src/parser/StepLocationBuilder.ts:153-159 | pushing a one-hot entry counts one more at its lane only |
| StepLocationBuilder.GetCounts | src/parser/StepLocationBuilder.ts:17-25 | the loop counts the '1' cells of each lane |
| StepLocationBuilder.FirstOne | src/parser/StepLocationBuilder.ts:47-72 | `findIndex` gives the first '1' of an entry, or -1 when there is none |
| StepLocationBuilder.LongestStreakMeaning | src/parser/StepLocationBuilder.ts:47-72 | the longest streak is the length of the longest run of entries starting on the same lane. No run is longer, one is that long, it is at most the buffer length, and it is 0 exactly when no entry holds a '1' |
| StepLocationBuilder.StreakResets | src/parser/StepLocationBuilder.ts:47-72 | an entry without a '1' ends the streak, and the next entry starts a new one |
| StepLocationBuilder.LongestStreak | src/parser/StepLocationBuilder.ts:47-72 | the loop computes the longest streak |
| StepLocationBuilder.Score | src/parser/StepLocationBuilder.ts:9-15 | the score is 1 for a missing buffer or one of fewer than 10 entries, and otherwise the blend of the counts, the longest streak and the length |
| StepLocationBuilder.RandomnessThreshold | src/parser/StepLocationBuilder.ts:97-108 | the thresholds lie in [0, 1), and only 'none' gives 0 |
| StepLocationBuilder.ThresholdMonotone | src/parser/StepLocationBuilder.ts:97-108 | a higher level asks for a higher score |
| StepLocationBuilder.RandomEnoughLevels | src/parser/StepLocationBuilder.ts:110-118 | a buffer random enough at a level is random enough at every lower one |
| StepLocationBuilder.RandomEnough | src/parser/StepLocationBuilder.ts:110-118 | a missing buffer or one of fewer than 10 entries is random enough at every level, and with no level set any buffer whose score is not negative is |
| StepLocationBuilder.LastPositions | src/parser/StepLocationBuilder.ts:204-213 | the previous positions are cell indices, never negative |
| StepLocationBuilder.PreviousPositionsOf | src/parser/StepLocationBuilder.ts:204-213 | the `forEach` collects the '1' cells of the last entry |
| StepLocationBuilder.SameJoinSingle | src/parser/StepLocationBuilder.ts:229 | comparing the joined positions with one joined lane is comparing the lists |
| StepLocationBuilder.NextFoot | src/parser/StepLocationBuilder.ts:175-195 | identical positions keep the foot. A single at 0 gives left, at 3 gives right, and any other lane changes the foot and never leaves it unset. Jumps and `[]` keep the foot |
| StepLocationBuilder.NextFootAsStepBuilder | src/parser/StepLocationBuilder.ts:175-195 | after a single, the foot follows the same rule as in `StepBuilder` |
| StepLocationBuilder.SingleRules | src/parser/StepLocationBuilder.ts:225-272 | the single-lane branch ends on a lane 0..3, and a placement is that lane or nothing |
| StepLocationBuilder.Enforce | src/parser/StepLocationBuilder.ts:197-307 | `enforcePlacementRules` places only lanes 0..3 and never more lanes than it is given |
| StepLocationBuilder.SingleRulesMeaning | src/parser/StepLocationBuilder.ts:225-272 | a single is dropped exactly after a jump within the jump-then-tap gap. A lane kept obeys every rule. A lane that already obeys them is kept without a draw |
| StepLocationBuilder.EnforceMeaning | src/parser/StepLocationBuilder.ts:273-305 | a jump too close to the previous tick is cut to its first lane and checked as a single. Any other jump is kept, cut to two lanes when hands are off. A single obeys every rule |
| StepLocationBuilder.SameRulesAsStepBuilder | src/parser/StepLocationBuilder.ts:197-307 | the rules and their order match `getLocationForNotes`: the same number of lanes, the same jump lanes, and the same lane for a single that needs no move |
| StepLocationBuilder.EnforcePlacementRules | src/parser/StepLocationBuilder.ts:197-307 | the outcome is that of the rules on the previous positions of the last entry. A re-drawn single is written into the caller's array, and a jump leaves the array alone |
| StepLocationBuilder.SingleLane | src/parser/StepLocationBuilder.ts:225-272 | the single-lane branch, with re-draws written into the array, as the specification does |
| StepLocationBuilder.Redraw | src/parser/StepLocationBuilder.ts:231-266 | a broken rule draws another lane into the array and checks again, and without a draw left the outcome is `OutOfDraws` with the array unchanged |
| StepLocationBuilder.GetRandomChoiceForSingle | src/parser/StepLocationBuilder.ts:120-173 | the input is returned when the buffer is already random enough. Any other result is a rule-compliant single whose pushed buffer scores strictly higher |
| StepLocationBuilder.StepLocationBuilder | src/parser/StepLocationBuilder.ts:309-358 | running out of draws in the rules is running out here. When the buffer is random enough the result is the rule-compliant placement; otherwise it is that placement or one single lane that obeys every rule and raises the buffer's score. The caller's array holds the re-drawn single lane and is otherwise unchanged. The foot is written once, by `calculateNextFoot` on the final lanes |
| SaberParser.DigitRun | src/parser/SaberParser.ts:69 | the digit run of the version is maximal |
| SaberParser.V3Versions | src/parser/SaberParser.ts:68-70 | a version `m`, `m.x` or `m.x.y` is v3 exactly when `m >= 3`, and a missing or empty version is not |
| SaberParser.IsV3Map | src/parser/SaberParser.ts:68-70 | a version that starts with a digit from 3 to 9 is v3, and a missing version is not |
| SaberParser.NoteOfColorNote | src/parser/SaberParser.ts:123-129 | c, x, y, a and b become `_cutDirection`, `_lineIndex`, `_lineLayer`, `_type` and `_time` |
| SaberParser.ParseMapDataV3 | src/parser/SaberParser.ts:121-134 | the notes keep their count and order, there are no obstacles, and the version is '2' |
| SaberParser.ParseMapDataV3KeepsAllButExtra | src/parser/SaberParser.ts:121-134 | two note lists convert alike exactly when they agree note by note on everything but the `d` field |
| SaberParser.Normalise | src/parser/SaberParser.ts:52-58 | a v3 file is converted, and a v2 file is kept as read |
| SaberParser.NormaliseIdempotent | src/parser/SaberParser.ts:52-58 | normalising twice is normalising once |
| SaberParser.NormaliseAll | src/parser/SaberParser.ts:52-58 | every file is normalised, in order |
| SaberParser.InsertByCount | src/parser/SaberParser.ts:73 | inserting adds exactly the map |
| SaberParser.InsertSorted | src/parser/SaberParser.ts:73 | inserting into maps in order keeps them in order |
| SaberParser.SortByNotes | src/parser/SaberParser.ts:73 | the sort orders the maps by non-increasing note count and is a permutation |
| SaberParser.SortedUnchanged | src/parser/SaberParser.ts:73 | maps already in order are left alone, so sorting twice is sorting once |
| SaberParser.KeptCount | src/parser/SaberParser.ts:72-74 | at most ten maps are kept, and all of them when there are fewer |
| SaberParser.DroppedIsSmaller | src/parser/SaberParser.ts:73 | a map the cut leaves out has no more notes than any map kept |
| SaberParser.SortedChartsKeepLargest | src/parser/SaberParser.ts:72-74 | the maps kept are the at most ten with the most notes, in order, all taken from the input |
| SaberParser.SortChartData | src/parser/SaberParser.ts:72-74 | the array is sorted in place, and its first ten maps are returned |
| SaberParser.EditCount | src/parser/SaberParser.ts:80 | at most five `_Edit` names are added |
| SaberParser.SpliceStep | src/parser/SaberParser.ts:83 | one splice turns `index` `_Edit` pairs into `index + 1` |
| SaberParser.GetChartDifficultyNames | src/parser/SaberParser.ts:77-87 | the splice loop gives the level list with an `_Edit` name before each of the first `n - 5` levels |
| SaberParser.DifficultyNamesShape | src/parser/SaberParser.ts:77-87 | `n` charts get `max(5, n)` names. Each of the first `n - 5` levels comes right after its `_Edit` name, and the rest follow in the order Challenge, Hard, Medium, Easy, Beginner |
| SaberParser.NameLevel | src/parser/SaberParser.ts:77-87 | every name is a level or a level's `_Edit` name |
| SaberParser.SongConfigOf | src/parser/SaberParser.ts:93-104 | it fails exactly when the info file has no tempo, which `_beatsPerMinute.toString()` reads without a guard. Otherwise the song fields come from the info file: the offset is '0' when the song time offset is 0, and a missing preview start or length is '' |
| SaberParser.WithCharts | src/parser/SaberParser.ts:64 | the song is the config with the charts, and no output offset or music file |
| SaberParser.NoRulesKeepLanes | src/parser/SaberParser.ts:112-117 | with no gap settings every comparison is with NaN, so no placement rule fires and placement keeps the lanes asked for |
| SaberParser.NoJumpModeSkipsJumps | src/parser/SaberParser.ts:112-117 | with no jump mode a tick of one hand asks for that hand's lanes, and a tick of two or more hands, or of bombs alone, asks for none and gets no tap |
| SaberParser.ChartFor | src/parser/SaberParser.ts:107-119 | a chart built from a map is 'dance-single' under the given name, with no holds, tap >= jump >= hands and a positive decimal meter |
| SaberParser.ChartsFor | src/parser/SaberParser.ts:61-63 | one chart per map |
| SaberParser.ChartsForAt | src/parser/SaberParser.ts:61-63 | chart `i` is built from map `i` under name `i` |
| SaberParser.StepFileShape | src/parser/SaberParser.ts:48-66 | the song has one chart per kept map, at most ten, from the map with the most notes down. Every kept map comes from the files, and no map left out has more notes than one kept. The offset is '0' when the song time offset is 0 |
| SaberParser.StepFileCharts | src/parser/SaberParser.ts:59-63 | chart `i` is built from the `i`-th kept map under the `i`-th difficulty name |
| SaberParser.SaberParser.constructor | src/parser/SaberParser.ts:33-36 | a fresh parser holds no data |
| SaberParser.SaberParser.Init | src/parser/SaberParser.ts:38-46 | after `init` the parser holds the info and chart data |
| SaberParser.SaberParser.GetStepChartConfig | src/parser/SaberParser.ts:89-105 | 'No data' before `init`, the TypeError when the info file has no tempo, otherwise the song config |
| SaberParser.SaberParser.BuildSteps | src/parser/SaberParser.ts:107-119 | 'No data' before `init`, the TypeError when the info file has no tempo, otherwise the map's chart |
| SaberParser.SaberParser.BuildCharts | src/parser/SaberParser.ts:61-63 | the `map` loop builds one chart per map |
| SaberParser.SaberParser.ToStepFile | src/parser/SaberParser.ts:48-66 | 'No data' before `init`, the TypeError when the info file has no tempo, otherwise the song built from the files |
| StepOutputBuilder.ParseTick | src/parser/StepOutputBuilder.ts:65 | reading a tick gives one cell per character |
| StepOutputBuilder.TickRoundTrip | src/parser/StepOutputBuilder.ts:65 | a tick reads back from its text |
| StepOutputBuilder.MeasureRoundTrip | src/parser/StepOutputBuilder.ts:64-67 | a measure with a tick reads back from its text, which has no comma |
| StepOutputBuilder.NotesRoundTrip | src/parser/StepOutputBuilder.ts:63-68 | splitting the notes body on '\n,\n' and then '\n' gives back the measures when each has a tick |
| StepOutputBuilder.Difficulty | src/parser/StepOutputBuilder.ts:59 | the difficulty written is a prefix of the name without '_' |
| StepOutputBuilder.ChartBlockLayout | src/parser/StepOutputBuilder.ts:53-69 | a block is its header, then measures that read back as the chart's notes, then '\n;' |
| StepOutputBuilder.BuildChartInfo | src/parser/StepOutputBuilder.ts:53-69 | a block opens with the `#NOTES` line and ends with a line holding only ';' |
| StepOutputBuilder.EditNameIsLevel | src/parser/StepOutputBuilder.ts:59 | 'Hard_Edit' is written 'Hard', and a level as itself |
| StepOutputBuilder.DifficultiesAreLevels | src/parser/StepOutputBuilder.ts:59 | every name the parser hands out is written as one of the five levels |
| StepOutputBuilder.OffsetField | src/parser/StepOutputBuilder.ts:101 | `#OFFSET` comes from `outputOffset`, and is 0 when it is unset |
| StepOutputBuilder.SubtitleField | src/parser/StepOutputBuilder.ts:89 | `#SUBTITLE` is the song's subtitle, and empty when unset |
| StepOutputBuilder.ArtistField | src/parser/StepOutputBuilder.ts:90 | `#ARTIST` is the song's artist, and empty when unset |
| StepOutputBuilder.GenreField | src/parser/StepOutputBuilder.ts:94 | `#GENRE` is the song's genre, and empty when unset |
| StepOutputBuilder.CreditField | src/parser/StepOutputBuilder.ts:95 | `#CREDIT` is the song's credit, and empty when unset |
| StepOutputBuilder.BannerField | src/parser/StepOutputBuilder.ts:96 | `#BANNER` is the song's banner, and empty when unset |
| StepOutputBuilder.BackgroundField | src/parser/StepOutputBuilder.ts:97 | `#BACKGROUND` is the song's background, and empty when unset |
| StepOutputBuilder.SampleStartField | src/parser/StepOutputBuilder.ts:102 | `#SAMPLESTART` comes from `sampleStart`, and is 0 when it is unset or empty |
| StepOutputBuilder.BuildSongInfo | src/parser/StepOutputBuilder.ts:71-112 | the header opens with the title line, and reads back as the song's fields when no value holds a line break |
| StepOutputBuilder.SampleLengthField | src/parser/StepOutputBuilder.ts:103 | `#SAMPLELENGTH` is 10 when unset or empty |
| StepOutputBuilder.BpmsField | src/parser/StepOutputBuilder.ts:105 | `#BPMS` is the single entry '0.000000=' and the tempo |
| StepOutputBuilder.MusicField | src/parser/StepOutputBuilder.ts:100 | `#MUSIC` has the first 'egg' turned into 'ogg', and is the name unchanged without one |
| StepOutputBuilder.HeaderRoundTrip | src/parser/StepOutputBuilder.ts:87-111 | a header reads back as its fields when no tag holds a colon and no field holds a line break |
| StepOutputBuilder.CopySMContent | src/parser/StepOutputBuilder.ts:18-21 | `copySMContent` builds the same text as `getSongFileContent` |
| StepOutputBuilder.SingleChartFile | src/parser/StepOutputBuilder.ts:43-46 | a file of one chart is the header, a newline and the chart's block, ending with '\n;' |
| StepOutputBuilder.GetSongFileContent | src/parser/StepOutputBuilder.ts:43-46 | the file is the header and a newline, then the blocks; a song with charts ends with the last block's closing line |
| StepOutputBuilder.ParsedSongHeader | src/parser/StepOutputBuilder.ts:101-105 | a song fresh from the parser has offset 0 whatever the song time offset, sample length 10 without a preview duration, and the info file's tempo |
| StepOutput.BuildChartInfo | src/parser/StepOutput.ts:32-48 | a chart's block is the newer builder's block of the same chart renamed 'Challenge' |
| StepOutput.ChallengeIsPlain | src/parser/StepOutput.ts:38 | 'Challenge' is written as itself |
| StepOutput.NameIgnored | src/parser/StepOutput.ts:38 | the chart's name is never written |
| StepOutput.ChartBlockLayout | src/parser/StepOutput.ts:42-47 | the measures read back as the chart's notes, and the block ends with '\n;' |
| StepOutput.SongValues | src/parser/StepOutput.ts:50-91 | the header values are the newer builder's, except `#MUSIC` written verbatim and `#OFFSET` taken from `offset` |
| StepOutput.MusicField | src/parser/StepOutput.ts:79 | `#MUSIC` is the file name unchanged |
| StepOutput.OffsetField | src/parser/StepOutput.ts:80 | `#OFFSET` comes from `offset`, and is 0 when it is unset |
| StepOutput.BuildSongInfo | src/parser/StepOutput.ts:50-91 | the header opens with the title line, and reads back as the song's fields when no value holds a line break |
| StepOutput.CopySMContent | src/parser/StepOutput.ts:20-24 | there is no text exactly when there are no charts, and the text starts with the header and a newline |
| StepOutput.OnlyFirstChart | src/parser/StepOutput.ts:20-24 | the charts after the first are never written |
| StepOutput.AgreesWithBuilder | src/parser/StepOutput.ts:9-25 | for one chart named 'Challenge', no 'egg' in the music name and equal offsets, both serialisers write the same text |
| NoteTimestamps.Sounds | src/parser/getNoteTimestamps.ts:21 | a tick sounds exactly when a cell is a tap |
| NoteTimestamps.TickStamps | src/parser/getNoteTimestamps.ts:18-25 | a measure gets one stamp per sounding tick |
| NoteTimestamps.WholeMeasure | src/parser/getNoteTimestamps.ts:12-24 | the ticks of a measure add up to four beats |
| NoteTimestamps.MeasureStamps | src/parser/getNoteTimestamps.ts:14-26 | one stamp per sounding tick of the chart |
| NoteTimestamps.Timestamps | src/parser/getNoteTimestamps.ts:3-32 | one stamp per sounding tick of the chart |
| NoteTimestamps.GetNoteTimestamps | src/parser/getNoteTimestamps.ts:3-32 | the nested loop computes the stamps of the specification |
| NoteTimestamps.StampMeasure | src/parser/getNoteTimestamps.ts:18-25 | the inner loop appends the measure's stamps and moves the time four beats on |
| NoteTimestamps.MeasureStampAt | src/parser/getNoteTimestamps.ts:9-24 | the stamp of a sounding tick is its measure's start plus its index times the tick length, less 0.05. It follows the stamps of every sounding tick before it |
| NoteTimestamps.FirstStamp | src/parser/getNoteTimestamps.ts:9-22 | when the first tick sounds, the first stamp is `-offset - 0.05` |
| NoteTimestamps.MeasureStampsIncreasing | src/parser/getNoteTimestamps.ts:14-26 | with a positive beat length the stamps strictly increase, and none comes before the start less the delay |
| NoteTimestamps.TimestampsIncreasing | src/parser/getNoteTimestamps.ts:14-26 | for a positive tempo the stamps strictly increase |
| NoteTimestamps.MeasureStampsFilled | src/parser/getNoteTimestamps.ts:15 | the stamps depend only on the measures that are not empty |
| NoteTimestamps.EmptyMeasureSkipped | src/parser/getNoteTimestamps.ts:15 | an empty measure adds no stamp and moves no later stamp |
| NoteShifting.ShiftTimingDifference | src/wizard-flow/constants/noteShifting.ts:7-19 | no grid or a non-positive one gives 0. Otherwise the shift times the grid and the tempo is 240, negated for 'backward' |
| NoteShifting.NoShiftIffNoGrid | src/wizard-flow/constants/noteShifting.ts:12 | the shift is 0 exactly when no positive grid is given |
| NoteShifting.ShiftSign | src/wizard-flow/constants/noteShifting.ts:18 | at a positive tempo the shift is negative exactly for 'backward', and positive otherwise |
| NoteShifting.BackwardIsNegatedForward | src/wizard-flow/constants/noteShifting.ts:18 | backward is forward negated, and an unset direction is forward |
| NoteShifting.ShiftIsOneTick | src/wizard-flow/constants/noteShifting.ts:14-16 | the shift is `(4 / shifting) * (60 / bpm)` seconds |
| ConfigurationForm.LinkError | src/form/configurationForm.tsx:25-32 | a missing or empty link fails 'required', and a link accepted matches the pattern |
| ConfigurationForm.ValidLinkIffPrefixedId | src/form/configurationForm.tsx:28-31 | a link is accepted exactly when it is 'https://beatsaver.com/maps/' followed by one or more of [A-Za-z0-9-] |
| ConfigurationForm.IdRoundTrip | src/wizard-flow/steps/Step1-LoadMap/LoadMapStep.tsx:50-53 | every id makes an accepted link, and stripping the prefix gives the id back |
| ConfigurationForm.AcceptedLinkRoundTrip | src/wizard-flow/steps/Step1-LoadMap/LoadMapStep.tsx:50-53 | an accepted link is the prefix followed by its map id, and the id is valid |
| ConfigurationForm.RefusedLinks | src/form/configurationForm.tsx:28-31 | the prefix alone, a trailing slash and plain 'http' are refused |
| ConfigurationForm.UnsetChartFiles | src/form/configurationForm.tsx:19-22 | no error exactly when every chart entry is set |
| ConfigurationForm.ValidMapFormIff | src/form/configurationForm.tsx:13-23 | a form is valid exactly when it has an info file, a music file and at least one chart file, and no chart entry is unset |
| ConfigurationForm.MapFormErrors | src/form/configurationForm.tsx:13-23 | each error is reported exactly when its rule fails: no info file, no music file, no chart list, an empty chart list, and each unset chart entry by its index |
| ConfigurationForm.OptionalFieldsIgnored | src/form/configurationForm.tsx:13-23 | the background file, input type and link never decide validity |
| ConfigurationForm.DefaultMapFormInvalid | src/form/configurationForm.tsx:46-56 | the starting form is refused for a missing info file, a missing music file and fewer than one chart file |
| NotesVisualizer.FirstFit | src/wizard-flow/steps/Step3-GenerateOutput/NotesVisualizer.tsx:311-316 | the first divisor from the table that fits, and no earlier one fits |
| NotesVisualizer.NoteColor | src/wizard-flow/steps/Step3-GenerateOutput/NotesVisualizer.tsx:307-318 | the colour is 'gray' exactly when no divisor fits |
| NotesVisualizer.NoteColorDom | src/wizard-flow/steps/Step3-GenerateOutput/NotesVisualizerDOM.tsx:85-104 | the DOM visualiser's colour is the canvas visualiser's; the fraction it works out is never used |
| NotesVisualizer.ColorIff | src/wizard-flow/steps/Step3-GenerateOutput/NotesVisualizer.tsx:311-316 | a note gets the `j`-th colour exactly when the `j`-th divisor fits and no earlier one does |
| NotesVisualizer.DownbeatIsRed | src/wizard-flow/steps/Step3-GenerateOutput/NotesVisualizer.tsx:311-316 | index 0 is 'red' whenever the measure has at least four ticks |
| NotesVisualizer.ShortMeasureIsGray | src/wizard-flow/steps/Step3-GenerateOutput/NotesVisualizer.tsx:313-317 | a measure of fewer than four ticks is all 'gray' |
| NotesVisualizer.QuarterMeasureIsRed | src/wizard-flow/steps/Step3-GenerateOutput/NotesVisualizer.tsx:313-316 | in a measure of four ticks every tick is 'red' |
| NotesVisualizer.ColorPeriodic | src/wizard-flow/steps/Step3-GenerateOutput/NotesVisualizer.tsx:313 | `index` and `index + noteSize` get the same colour |
| NotesVisualizer.OnGridIsColoured | src/wizard-flow/steps/Step3-GenerateOutput/NotesVisualizerDOM.tsx:97-102 | a note on the grid of the `j`-th divisor gets that colour or a coarser one, never 'gray' |

## Left out

- File and network I/O are not modelled: reading files in `SaberParser.init`, `readFileSync`, `getMapInfo` and `convertToFile`. `Init` takes the decoded contents as arguments.
- `StepOutputBuilder.downloadZip` (zip packaging and the download link) is not modelled, and neither is the clipboard write in either `copySMContent`. Only the text they produce is modelled.
- `console.log` and `console.error` calls are left out. The `catch` at StepBuilder.ts:393-395 only logs, and the throw it lets through at line 397 is a `Failure`.
- `useParseSaber` is UI glue and is not modelled. It sets the background and music names after `toStepFile`.
- Floating point is not modelled:
  - The randomness score (`maxDiffNormalized`, `normalizedEntropy`, the weighted sum) is the parameter `blend`.
  - `Math.sqrt` and `Math.round` of the meter are the parameter `meterOf`.
  - `toFixed(6)` is `toDecimals`.
  - `toString` of a number is `numToString`.
  - The model never states that the 'none' level skips the search, because the float score can go below 0.
- StepBuilder.StepBuilder.SnapTime: note times are exact. The `toFixed(3)` rounding and the float `===` filter at StepBuilder.ts:381 are not modelled. This has three effects the model does not show:
  - In the source a note whose raw time has more than three decimals is not snapped when its rounded fraction `+(t - floor).toFixed(3)` is already a member of `_fractions` (StepBuilder.ts:416-421). It keeps its raw time, which no tick equals, so the `===` filter never picks it up and the note is silently dropped. A triplet stored as 13.3333333 at the default auto-snap of 24 is such a note: its fraction 0.333 is a member, the time stays 13.3333333, and the tick is 13.333. The model snaps that note to 1280 units (13 1/3 beats) and places it. A note the source does snap gets the same double as its tick, so only such unsnapped notes are lost.
  - Tick times in the source are sums of three-decimal fractions, so the gap between two ticks can come out just below its exact value. A gap of exactly `384 / m` units, compared with `4 / m` beats, can then test as below the threshold in the source. So the double-tap, crossover, jump and jump-then-tap rules can fire there and not in the model. At resolution 24 with the default jump gap of 8, ticks 0.333 and 0.833 are 0.49999999999999994 beats apart, below 0.5. Ticks 1.167 and 2.167 are 0.9999999999999998 apart, below the 1 beat of the default double-tap and crossover gap of 4.
  - A time that rounds to a near-tie can snap to another member. 0.0625 is read as 0.063, which is nearer 0.125 than 0 in the source; the exact 0.0625 goes to 0 in the model.
- StepBuilder.StepBuilder.constructor: an auto-snap setting whose grid does not divide the 384 units of a measure is excluded by precondition. Such a grid has no exact member in units of 1/96 beat.
- Notes are limited to lanes 0..3 and types 0..3, a precondition of the builder (`NoteGrouping.WellFormed`). A lane outside 0..3 would index outside the four cells. A type outside 0..3 is a different matter: in the source it only keys the hand groups, so such a note forms a hand group of its own and is placed. The model has no such groups: `GroupHands` and `HandIndices` know hands 0, 1 and 2 only.
- The empty measure of StepBuilder.ts:453-455 is written with numeric `0` cells. The model writes them as `Empty`, the same character in the output.
- Math.random is a finite sequence of draws, and running out gives `OutOfDraws`. A run that could redraw forever in the source (an oracle that keeps picking a bad lane) is one that runs out here.
- `ITG_OFFSET` is imported from a file that is not part of this model, and is the parameter `itgOffset`.
- Sort stability is left out: `SaberParser.SortByNotes` is an insertion sort, stable as the modern `Array.prototype.sort` is. Only the order by note count and the multiset are stated.
- The key order of `Object.values` in `buildV2StepNotes` does not matter. `Resolutions` visits the keys in the order given and proves a result independent of it.
- NoteTimestamps.GetNoteTimestamps: a tempo of 0 is excluded by precondition, because the source divides by it (Infinity seconds per beat).
- NoteTimestamps.Timestamps: a tempo of 0 is excluded by precondition, as for `GetNoteTimestamps`.
- NoteShifting.ShiftTimingDifference: a tempo of 0 is excluded by precondition, for the same reason.
- Yup is not modelled in full. `ConfigurationForm.MapFormErrors` keeps the order of the rules but not Yup's message texts for files. The link messages are modelled.
- File contents are not modelled: a `File` is only its name.
- Fractional gap settings are not modelled. The gaps are integers, while the schema's `Yup.number().min(4).max(32)` also accepts a value such as 4.5.
- SaberParser.IsV3Map: only the run of decimal digits a version starts with is read. The other forms `parseFloat` accepts are not modelled: leading white space, a sign, a leading '.', an exponent and `Infinity`. So `" 3"`, `"+3"`, `".5e1"` and `"Infinity"` are v3 in the source and not in the model.
- NotesVisualizer.NoteColorDom: the fraction `index / noteSize` the DOM visualiser works out is not modelled, since it is never read.
- The meaning of `ColorNote`'s remaining fields (`d`) is not modelled: `parseMapDataV3` drops them.
- The React components, canvas and DOM drawing, audio playback and wizard state are not modelled.
