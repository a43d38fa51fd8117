/**
  The `StepBuilder` class: it snaps a chart's notes to its beat grid,
  builds the chart measure by measure and tick by tick, and keeps the
  counters, the last tick that held a tap and the foot used last in its
  own fields. Each method is proved to compute what the functions of
  `StepBuilderSpec` say, from the fields it starts with.
 */
module StepBuilder {
  import opened Wrappers
  import opened StepTypes
  import opened StepBuilderTypes
  import opened MapTypes
  import opened Arithmetic
  import opened Placement
  import opened NoteGrouping
  import opened TickCells
  import opened Fractions
  import opened Resolution
  import opened StepBuilderSpec
  import opened Strings
  import opened ChartSpec
  import opened StepBuilderProps

  /** The `forEach` of `buildNotes` that collects the lanes of the previous
      tick holding a tap (none when there is no previous tick). */
  method PreviousPositionsOf(note: Option<Tick>) returns (positions: seq<int>)
    ensures note.None? ==> positions == []
    ensures note.Some? ==> positions == TapLanes(note.value)
  {
    positions := [];
    if note.None? {
      return;
    }
    var t := note.value;
    var index := 0;
    while index < |t|
      invariant 0 <= index <= |t|
      invariant positions == TapLanes(t[..index])
    {
      TapLanesSnoc(t, index);
      if t[index] == Tap {
        positions := positions + [index];
      }
      index := index + 1;
    }
    assert t[..|t|] == t;
  }

  /** The tap lanes of one more cell: those before it, then its own lane if
      it holds a tap. */
  lemma TapLanesSnoc(t: Tick, index: nat)
    requires index < |t|
    ensures TapLanes(t[..index + 1]) == TapLanes(t[..index]) + (if t[index] == Tap then [index] else [])
  {
    assert t[..index + 1][..index] == t[..index];
  }

  /** The `reduce` of `buildNotes`: per hand type 0, 1, 2 the lanes of its
      notes, a lane the hand already holds moved one lane right; bombs are
      skipped; then `Object.values`, which lists only the hands present. */
  method GroupHands(notes: seq<TimedNote>) returns (hands: seq<seq<int>>)
    requires AllWellFormed(notes)
    ensures hands == HandIndices(notes)
  {
    var hand0: seq<int> := [];
    var hand1: seq<int> := [];
    var hand2: seq<int> := [];
    var k := 0;
    while k < |notes|
      invariant 0 <= k <= |notes|
      invariant hand0 == BumpRepeats(LanesOfType(notes[..k], 0))
      invariant hand1 == BumpRepeats(LanesOfType(notes[..k], 1))
      invariant hand2 == BumpRepeats(LanesOfType(notes[..k], 2))
    {
      var note := notes[k];
      HandStep(notes, k, 0);
      HandStep(notes, k, 1);
      HandStep(notes, k, 2);
      if note.noteType == 0 {
        hand0 := Pushed(hand0, note.lineIndex);
      } else if note.noteType == 1 {
        hand1 := Pushed(hand1, note.lineIndex);
      } else if note.noteType == 2 {
        hand2 := Pushed(hand2, note.lineIndex);
      }
      k := k + 1;
    }
    assert notes[..|notes|] == notes;
    hands := NonEmpty([hand0, hand1, hand2]);
  }

  /** What the `reduce` pushes onto a hand's list for a note on `lane`. */
  function Pushed(hand: seq<int>, lane: int): seq<int>
  {
    if lane in hand then hand + [(lane + 1) % 4] else hand + [lane]
  }

  /** One more note: its hand's list gets the note's lane pushed, the
      other hands' lists stay. */
  lemma HandStep(notes: seq<TimedNote>, k: nat, t: int)
    requires k < |notes|
    ensures BumpRepeats(LanesOfType(notes[..k + 1], t)) ==
      if notes[k].noteType == t then Pushed(BumpRepeats(LanesOfType(notes[..k], t)), notes[k].lineIndex)
      else BumpRepeats(LanesOfType(notes[..k], t))
  {
    var prefix := notes[..k + 1];
    assert prefix[..k] == notes[..k];
    var lanes := LanesOfType(prefix, t);
    if notes[k].noteType == t {
      assert lanes[..|lanes| - 1] == LanesOfType(notes[..k], t);
    }
  }

  /** The lanes `buildNotes` asks for: a single hand's list as it is;
      otherwise merged by the jump mode; no lanes for an unknown mode. */
  method LocationsFor(jumpMode: Option<string>, handIndices: seq<seq<int>>) returns (currentLocations: seq<int>)
    requires forall i :: 0 <= i < |handIndices| ==> |handIndices[i]| > 0
    requires HandsIn(handIndices)
    ensures currentLocations == CurrentLocations(jumpMode, handIndices)
    ensures ValidLanes(currentLocations)
  {
    CurrentLocationsLanes(jumpMode, handIndices);
    currentLocations := [];
    if |handIndices| == 1 {
      currentLocations := handIndices[0];
    } else {
      if jumpMode == Some("swing") {
        currentLocations := Dedup(Flatten(Swings(handIndices)));
        if |currentLocations| == 0 {
          var all := Flatten(handIndices);
          currentLocations := if |all| == 0 then [] else all[..1];
        }
      } else if jumpMode == Some("both") {
        var twoHandIndices := Dedup(Flatten(handIndices));
        if |twoHandIndices| <= 1 {
          var newIndex := if |twoHandIndices| == 0 then NoLane else (twoHandIndices[0] + 1) % 4;
          twoHandIndices := twoHandIndices + [newIndex];
        }
        currentLocations := twoHandIndices;
      } else if jumpMode == Some("twohands") {
        var twoHandIndices := Dedup(Firsts(handIndices));
        if |twoHandIndices| <= 1 {
          var newIndex := if |twoHandIndices| == 0 then NoLane else (twoHandIndices[0] + 1) % 4;
          twoHandIndices := twoHandIndices + [newIndex];
        }
        currentLocations := twoHandIndices;
      }
    }
  }

  /** `const notes = ['0', '0', '0', '0']` and then `notes[location] = '1'`
      for every placed lane; the NaN lane writes no cell. */
  method TapTick(locations: seq<int>) returns (cells: array<Cell>)
    ensures fresh(cells) && cells.Length == 4
    ensures cells[..] == TapCells(locations)
  {
    cells := new Cell[4](_ => Empty);
    var k := 0;
    while k < |locations|
      invariant 0 <= k <= |locations|
      invariant cells[..] == TapCells(locations[..k])
    {
      assert locations[..k + 1] == locations[..k] + [locations[k]];
      var location := locations[k];
      if 0 <= location < 4 {
        cells[location] := Tap;
      }
      k := k + 1;
    }
    assert locations[..|locations|] == locations;
  }

  /** The first bomb loop of `buildNotes`: a bomb on a lane without a tap
      turns it into a mine; the bombs that landed on a tap are counted. */
  method MarkBombsIn(cells: array<Cell>, bombs: seq<int>) returns (bombCount: nat)
    requires forall k :: 0 <= k < |bombs| ==> 0 <= bombs[k] < cells.Length
    modifies cells
    ensures cells[..] == MarkBombs(old(cells[..]), bombs).0
    ensures bombCount == MarkBombs(old(cells[..]), bombs).1
  {
    bombCount := |bombs|;
    var k := 0;
    while k < |bombs|
      invariant 0 <= k <= |bombs|
      invariant cells[..] == MarkBombs(old(cells[..]), bombs[..k]).0
      invariant bombCount == MarkBombs(old(cells[..]), bombs[..k]).1 + (|bombs| - k)
    {
      assert bombs[..k + 1][..k] == bombs[..k];
      var lane := bombs[k];
      if cells[lane] != Tap {
        cells[lane] := Mine;
        bombCount := bombCount - 1;
      }
      k := k + 1;
    }
    assert bombs[..|bombs|] == bombs;
  }

  /** The cells of `buildNotes`' tick: the taps on the placed lanes, then
      both bomb loops. */
  method FillTick(locations: seq<int>, bombs: seq<int>) returns (notes: Tick)
    requires forall k :: 0 <= k < |bombs| ==> 0 <= bombs[k] < 4
    ensures notes == LayBombs(TapCells(locations), bombs)
  {
    var cells := TapTick(locations);
    var bombCount := MarkBombsIn(cells, bombs);
    FillMinesIn(cells, bombCount);
    notes := cells[..];
  }

  /** With no bomb left to lay the second loop changes nothing. */
  lemma {:induction false} FillMinesNone(t: Tick, i: nat)
    requires i <= |t|
    ensures FillMines(t, 0, i) == t
    decreases |t| - i
  {
    if i < |t| {
      FillMinesNone(t, i + 1);
    }
  }

  /** The second bomb loop of `buildNotes`: while bombs remain, each
      non-empty cell from lane 0 on becomes a mine. */
  method FillMinesIn(cells: array<Cell>, bombCount0: nat)
    modifies cells
    ensures cells[..] == FillMines(old(cells[..]), bombCount0, 0)
  {
    var bombCount := bombCount0;
    if bombCount == 0 {
      FillMinesNone(cells[..], 0);
    } else {
      var i := 0;
      while i < cells.Length
        invariant 0 <= i <= cells.Length
        invariant FillMines(cells[..], bombCount, i) == FillMines(old(cells[..]), bombCount0, 0)
      {
        if cells[i] != Empty && bombCount != 0 {
          cells[i] := Mine;
          bombCount := bombCount - 1;
        }
        i := i + 1;
      }
    }
  }

  /** The tick clock of `buildStepNotesForMeasure`: with `q` grid steps of
      `s` units to a beat, the tick after tick `k` of a measure lies at
      the start of tick `k`'s beat plus `fractions[k % q + 1]`, that is
      one step later. */
  lemma NextTickTime(index: int, k: nat, q: nat, s: nat)
    requires q > 0 && s > 0 && q * s == 96
    ensures (index * 384 + k * s) / 96 * 96 + (k % q + 1) * s == index * 384 + (k + 1) * s
  {
    var a := k / q;
    var b := k % q;
    assert k == a * q + b;
    assert k * s == a * 96 + b * s by {
      assert k * s == (a * q) * s + b * s;
      MulAssoc(a, q, s);
    }
    MulLessCancelRev(b, q, s);
    var start := index * 384 + k * s;
    assert start == (index * 4 + a) * 96 + b * s;
    DivModUnique(start, 96, index * 4 + a, b * s);
  }

  /** The fraction index wraps from the last step of a beat back to 1. */
  lemma NextFractionIndex(k: nat, q: nat)
    requires q > 0
    ensures (k + 1) % q == (if k % q == q - 1 then 0 else k % q + 1)
  {
    var a := k / q;
    var b := k % q;
    assert k == a * q + b;
    if b == q - 1 {
      DivModUnique(k + 1, q, a + 1, 0);
    } else {
      DivModUnique(k + 1, q, a, b + 1);
    }
  }

  /** Tick `k` still lies in measure `index` exactly when `k < d`. */
  lemma TickInMeasure(index: int, k: nat, s: nat, d: nat)
    requires s > 0 && s * d == 384
    ensures index * 384 + k * s < (index + 1) * 384 <==> k < d
  {
    if k < d {
      MulLessCancelRev(k, d, s);
    } else {
      MulMono(d, k, s);
    }
  }

  /** The next grid time: the start of the beat plus the next grid member. */
  lemma NextStart(index: int, k: nat, q: nat, s: nat, start: int, fractions: seq<nat>)
    requires q > 0 && s > 0 && q * s == 96
    requires |fractions| == q + 1
    requires forall j :: 0 <= j < |fractions| ==> fractions[j] == j * s
    requires start == index * 384 + k * s
    ensures start / 96 * 96 + fractions[k % q + 1] == index * 384 + (k + 1) * s
  {
    NextTickTime(index, k, q, s);
  }

  /** One more tick: the tick `next` builds, from the state the first `n`
      ticks leave, at the time `n` steps after `start`. */
  lemma {:induction false} TicksSnoc(next: (BuilderState, int) --> (Tick, BuilderState), st: BuilderState, step: nat,
                                     start: int, n: nat, at: int)
    requires forall s, t :: next.requires(s, t)
    requires at == start + n * step
    ensures var pre := Ticks(next, st, step, start, n);
            var last := next(pre.1, at);
            Ticks(next, st, step, start, n + 1) == (pre.0 + [last.0], last.1)
    decreases n
  {
    var first := next(st, start);
    if n == 0 {
      assert [first.0] + [] == [] + [first.0];
    } else {
      var inner := Ticks(next, first.1, step, start + step, n - 1);
      assert at == start + step + (n - 1) * step;
      TicksSnoc(next, first.1, step, start + step, n - 1, at);
      var last := next(inner.1, at);
      assert [first.0] + (inner.0 + [last.0]) == ([first.0] + inner.0) + [last.0];
    }
  }

  /** So one more tick of a measure is the tick built at that time. */
  lemma MeasureFromSnoc(c: StepBuilderConfig, st: BuilderState, step: nat, notes: seq<TimedNote>,
                        start: int, n: nat, at: int)
    requires AllWellFormed(notes)
    requires at == start + n * step
    ensures var pre := MeasureFrom(c, st, step, notes, start, n);
            var last := Step(c, pre.1, notes, at);
            MeasureFrom(c, st, step, notes, start, n + 1) == (pre.0 + [last.0], last.1)
  {
    TicksSnoc(Stepper(c, notes), st, step, start, n, at);
  }

  /** `buildNotes`' tick and state, from its placement, the foot after it
      and the cells. */
  lemma BuildNotesSpecIs(c: StepBuilderConfig, st: BuilderState, notes: seq<TimedNote>,
                         placed: Placement, footed: BuilderState, t: Tick)
    requires |notes| > 0 && AllWellFormed(notes)
    requires placed == Placed(c, st, notes)
    requires footed == st.(foot := if |placed.locations| > 1 then NoFoot else placed.foot)
    requires t == LayBombs(TapCells(placed.locations), BombLanes(notes))
    ensures BuildNotesSpec(c, st, notes) == (t, Counted(footed, t, |BombLanes(notes)|))
  {
  }

  /** Adding the bombs to the mines first, then counting, is counting
      with the bombs. */
  lemma CountedBombs(st: BuilderState, t: Tick, b: nat)
    ensures Counted(st.(mines := st.mines + b), t, 0) == Counted(st, t, b)
  {
  }

  /** `|| 24`: a missing or zero auto-snap setting means 24. */
  function AutoSnap(minGapForAutoSnapping: Option<nat>): (d: nat)
    ensures d > 0
    ensures minGapForAutoSnapping.Some? && minGapForAutoSnapping.value != 0 ==> d == minGapForAutoSnapping.value
  {
    if minGapForAutoSnapping.None? || minGapForAutoSnapping.value == 0 then 24 else minGapForAutoSnapping.value
  }

  /** The chart-level part of the builder's configuration: the notes, the
      chart name, the bpm as `Number(bpms)` gives it (None for NaN), the
      additional offset in seconds and the auto-snap setting. */
  datatype ChartSettings = ChartSettings(
    mapNotes: seq<NoteV2>,
    difficultyName: string,
    bpm: Option<real>,
    additionalOffset: Option<real>,
    minGapForAutoSnapping: Option<nat>)

  /** A note the builder accepts: lane 0..3, type 0..3. */
  predicate NoteInRange(n: NoteV2)
  {
    0 <= n.lineIndex < 4 && 0 <= n.noteType <= 3
  }

  /** A note after snapping its time to `fractions`. */
  function SnapNote(fractions: seq<nat>, n: NoteV2): (r: TimedNote)
    ensures r.lineIndex == n.lineIndex && r.noteType == n.noteType
  {
    TimedNote(n.lineIndex, n.noteType, SnapUnits(fractions, n.time))
  }

  /** Every note snapped, in order. */
  function SnapAll(fractions: seq<nat>, notes: seq<NoteV2>): (r: seq<TimedNote>)
    ensures |r| == |notes|
  {
    if |notes| == 0 then []
    else SnapAll(fractions, notes[..|notes| - 1]) + [SnapNote(fractions, notes[|notes| - 1])]
  }

  /** The `i`-th snapped note is the `i`-th note snapped. */
  lemma {:induction false} SnapAllAt(fractions: seq<nat>, notes: seq<NoteV2>, i: nat)
    requires i < |notes|
    ensures SnapAll(fractions, notes)[i] == SnapNote(fractions, notes[i])
    decreases |notes|
  {
    if i < |notes| - 1 {
      SnapAllAt(fractions, notes[..|notes| - 1], i);
    }
  }

  /** `ms` in front of the measures of a successful result. */
  function Prefixed(ms: seq<Measure>, r: Result<(seq<Measure>, BuilderState)>): Result<(seq<Measure>, BuilderState)>
  {
    if r.Failure? then r else Success((ms + r.value.0, r.value.1))
  }

  /** The measure lists `byMeasure` hold exactly the notes of each measure,
      and only measures with notes have a list. */
  ghost predicate GroupedBy(notes: seq<TimedNote>, byMeasure: map<int, seq<TimedNote>>)
  {
    (forall i :: NotesOfMeasure(notes, i) == if i in byMeasure then byMeasure[i] else []) &&
    (forall i :: i in byMeasure ==> |byMeasure[i]| > 0)
  }

  /** `byMeasure` with `n` appended to the list of its measure. */
  function Appended(byMeasure: map<int, seq<TimedNote>>, n: TimedNote): map<int, seq<TimedNote>>
  {
    var m := n.units / 384;
    byMeasure[m := (if m in byMeasure then byMeasure[m] else []) + [n]]
  }

  /** One more note grouped: it joins the list of its own measure. */
  lemma GroupedSnoc(notes: seq<TimedNote>, byMeasure: map<int, seq<TimedNote>>)
    requires |notes| > 0 && GroupedBy(notes[..|notes| - 1], byMeasure)
    ensures GroupedBy(notes, Appended(byMeasure, notes[|notes| - 1]))
  {
    var updated := Appended(byMeasure, notes[|notes| - 1]);
    forall i ensures NotesOfMeasure(notes, i) == if i in updated then updated[i] else [] {
      assert NotesOfMeasure(notes[..|notes| - 1], i) == if i in byMeasure then byMeasure[i] else [];
    }
  }

  /** The `reduce` of `buildV2StepNotes` as a function: every note, in
      order, appended to the list of its measure. */
  function Grouped(notes: seq<TimedNote>): map<int, seq<TimedNote>>
  {
    if |notes| == 0 then map[] else Appended(Grouped(notes[..|notes| - 1]), notes[|notes| - 1])
  }

  /** The measures of `Grouped(notes)` in the order their first note
      comes: the keys of the object the `reduce` builds. */
  function GroupKeys(notes: seq<TimedNote>): seq<int>
  {
    if |notes| == 0 then []
    else
      var init := notes[..|notes| - 1];
      var m := notes[|notes| - 1].units / 384;
      if m in Grouped(init) then GroupKeys(init) else GroupKeys(init) + [m]
  }

  /** The `reduce` groups the notes by measure. */
  lemma {:induction false} GroupedIsGroupedBy(notes: seq<TimedNote>)
    ensures GroupedBy(notes, Grouped(notes))
    decreases |notes|
  {
    if |notes| == 0 {
      forall i ensures NotesOfMeasure(notes, i) == [] {
      }
    } else {
      GroupedIsGroupedBy(notes[..|notes| - 1]);
      GroupedSnoc(notes, Grouped(notes[..|notes| - 1]));
    }
  }

  /** The keys of the `reduce` are exactly the measures that have notes. */
  lemma {:induction false} GroupKeysAreKeys(notes: seq<TimedNote>)
    ensures forall i :: i in Grouped(notes) <==> i in GroupKeys(notes)
    decreases |notes|
  {
    if |notes| > 0 {
      GroupKeysAreKeys(notes[..|notes| - 1]);
    }
  }

  /** One more note for the `reduce`: it joins its measure's list, and its
      measure becomes a key if it was not one. */
  lemma GroupStep(notes: seq<TimedNote>, n: TimedNote)
    ensures Grouped(notes + [n]) == Appended(Grouped(notes), n)
    ensures GroupKeys(notes + [n]) ==
      if n.units / 384 in Grouped(notes) then GroupKeys(notes) else GroupKeys(notes) + [n.units / 384]
  {
    assert (notes + [n])[..|notes|] == notes;
  }

  /** Snapping one more note appends it. */
  lemma SnapAllSnoc(fractions: seq<nat>, notes: seq<NoteV2>, k: nat, n: TimedNote)
    requires k < |notes| && n == SnapNote(fractions, notes[k])
    ensures SnapAll(fractions, notes[..k]) + [n] == SnapAll(fractions, notes[..k + 1])
  {
    assert notes[..k + 1][..k] == notes[..k];
  }

  /** One more note counted: the count covers its measure too. */
  lemma MeasureCountSnoc(notes: seq<TimedNote>, n: TimedNote)
    ensures MeasureCount(notes + [n]) ==
      if n.units / 384 + 1 > MeasureCount(notes) then n.units / 384 + 1 else MeasureCount(notes)
  {
    assert (notes + [n])[..|notes|] == notes;
  }

  /** Nothing in front changes nothing. */
  lemma PrefixedNone(r: Result<(seq<Measure>, BuilderState)>)
    ensures Prefixed([], r) == r
  {
    if r.Success? {
      assert [] + r.value.0 == r.value.0;
    }
  }

  /** A measure built: it moves from the spec's result to the prefix. */
  lemma PrefixedStep(c: StepBuilderConfig, st: BuilderState, notes: seq<TimedNote>, count: nat, i: nat, ms: seq<Measure>)
    requires AllWellFormed(notes) && i < count
    requires MeasureAt(c, st, notes, i).Success?
    ensures var m := MeasureAt(c, st, notes, i).value;
      Prefixed(ms, MeasuresFrom(c, st, notes, count, i)) == Prefixed(ms + [m.0], MeasuresFrom(c, m.1, notes, count, i + 1))
  {
    var m := MeasureAt(c, st, notes, i).value;
    var rest := MeasuresFrom(c, m.1, notes, count, i + 1);
    if rest.Success? {
      assert ms + ([m.0] + rest.value.0) == (ms + [m.0]) + rest.value.0;
    }
  }

  /** A measure that fails fails the whole result. */
  lemma PrefixedFailure(c: StepBuilderConfig, st: BuilderState, notes: seq<TimedNote>, count: nat, i: nat, ms: seq<Measure>)
    requires AllWellFormed(notes) && i < count
    requires MeasureAt(c, st, notes, i).Failure?
    ensures Prefixed(ms, MeasuresFrom(c, st, notes, count, i)) == Failure(MeasureAt(c, st, notes, i).error)
  {
  }

  /** Notes whose lanes and types the builder accepts keep them when moved. */
  lemma ShiftInRange(notes: seq<NoteV2>, shift: real)
    requires forall j :: 0 <= j < |notes| ==> NoteInRange(notes[j])
    ensures forall j :: 0 <= j < |notes| ==> NoteInRange(ShiftNotes(notes, shift)[j])
  {
    var shifted := ShiftNotes(notes, shift);
    forall j | 0 <= j < |notes| ensures NoteInRange(shifted[j]) {
      assert SameButTime(shifted[j], notes[j]);
      assert NoteInRange(notes[j]);
    }
  }

  /** And when snapped. */
  lemma SnapAllInRange(fractions: seq<nat>, notes: seq<NoteV2>)
    requires forall j :: 0 <= j < |notes| ==> NoteInRange(notes[j])
    ensures AllWellFormed(SnapAll(fractions, notes))
  {
    forall i | 0 <= i < |notes| ensures WellFormed(SnapAll(fractions, notes)[i]) {
      SnapAllAt(fractions, notes, i);
    }
  }

  /** `build`: the notes moved by the additional offset and snapped, built
      into measures from the state `st`; then the chart with the counters
      and the meter the build leaves, and that state. */
  function ChartOf(c: StepBuilderConfig, s: ChartSettings, itgOffset: real, fractions: seq<nat>,
                   st: BuilderState, hold: nat, meterOf: real -> nat): (r: Result<(Chart, BuilderState)>)
    requires forall j :: 0 <= j < |s.mapNotes| ==> NoteInRange(s.mapNotes[j])
  {
    var shifted := ShiftNotes(s.mapNotes, OffsetInBeats(s.bpm, s.additionalOffset, itgOffset));
    ShiftInRange(s.mapNotes, OffsetInBeats(s.bpm, s.additionalOffset, itgOffset));
    SnapAllInRange(fractions, shifted);
    var built := StepNotes(c, st, SnapAll(fractions, shifted));
    if built.Failure? then Failure(built.error)
    else
      var after := built.value.1;
      var meter := ChartDifficulty(LastTime(s.mapNotes), s.bpm, after, meterOf);
      Success((Chart("dance-single", s.difficultyName, NatToString(meter), built.value.0,
                     after.hands, after.jump, after.tap, hold, after.mines), after))
  }

  /** A chart built by a fresh builder: a `dance-single` chart named after
      the difficulty, with no holds, a positive decimal meter, one measure
      per measure up to the last note's, and ordered counters (hands are
      jumps, jumps are taps). */
  lemma FreshChart(c: StepBuilderConfig, s: ChartSettings, itgOffset: real, fractions: seq<nat>, meterOf: real -> nat)
    requires forall j :: 0 <= j < |s.mapNotes| ==> NoteInRange(s.mapNotes[j])
    ensures var r := ChartOf(c, s, itgOffset, fractions, InitialState, 0, meterOf);
      var snapped := SnapAll(fractions, ShiftNotes(s.mapNotes, OffsetInBeats(s.bpm, s.additionalOffset, itgOffset)));
      r.Success? ==>
        r.value.0.chartType == "dance-single" && r.value.0.name == s.difficultyName &&
        r.value.0.hold == 0 && r.value.0.hands <= r.value.0.jump <= r.value.0.tap &&
        |r.value.0.meter| > 0 && r.value.0.meter != "0" &&
        |r.value.0.notes| == MeasureCount(snapped)
  {
    var shifted := ShiftNotes(s.mapNotes, OffsetInBeats(s.bpm, s.additionalOffset, itgOffset));
    ShiftInRange(s.mapNotes, OffsetInBeats(s.bpm, s.additionalOffset, itgOffset));
    var snapped := SnapAll(fractions, shifted);
    SnapAllInRange(fractions, shifted);
    var r := ChartOf(c, s, itgOffset, fractions, InitialState, 0, meterOf);
    if r.Success? {
      MeasuresOrdered(c, InitialState, snapped, MeasureCount(snapped), 0);
      var meter := ChartDifficulty(LastTime(s.mapNotes), s.bpm, r.value.1, meterOf);
      NatToStringPositive(meter);
    }
  }

  /** The decimal form of a positive number is not "0". */
  lemma NatToStringPositive(n: nat)
    requires n > 0
    ensures NatToString(n) != "0"
  {
    if n >= 10 {
      assert |NatToString(n)| > 1;
    }
  }

  /** With an auto-snap setting in the 4 to 32 the settings form allows
      that divides the measure's 384 units, building never reaches the throw of line 397: the snapped
      notes all sit on the 96-grid. */
  lemma ChartNeverFails(c: StepBuilderConfig, s: ChartSettings, itgOffset: real, st: BuilderState, hold: nat, meterOf: real -> nat)
    requires forall j :: 0 <= j < |s.mapNotes| ==> NoteInRange(s.mapNotes[j])
    requires ExactGrid(AutoSnap(s.minGapForAutoSnapping)) && 4 <= AutoSnap(s.minGapForAutoSnapping) <= 32
    ensures ChartOf(c, s, itgOffset, FractionsSpec(AutoSnap(s.minGapForAutoSnapping), true), st, hold, meterOf).Success?
  {
    var d := AutoSnap(s.minGapForAutoSnapping);
    var fractions := FractionsSpec(d, true);
    AllowedFractions(d);
    var shifted := ShiftNotes(s.mapNotes, OffsetInBeats(s.bpm, s.additionalOffset, itgOffset));
    ShiftInRange(s.mapNotes, OffsetInBeats(s.bpm, s.additionalOffset, itgOffset));
    var snapped := SnapAll(fractions, shifted);
    SnapAllInRange(fractions, shifted);
    forall j | 0 <= j < |snapped| ensures snapped[j].units % 4 == 0 {
      SnapAllAt(fractions, shifted, j);
      SnapQuarter(fractions, shifted[j].time);
    }
    NeverFails(c, st, snapped, MeasureCount(snapped), 0);
  }

  class StepBuilder {
    /** The placement settings. */
    const config: StepBuilderConfig
    /** The notes and chart-level settings. */
    const settings: ChartSettings
    /** `ITG_OFFSET`, defined in a file this model does not include. */
    const itgOffset: real
    /** `_fractions`: the auto-snap grid with its subfractions. */
    const fractions: seq<nat>

    var tap: nat
    var jump: nat
    var mines: nat
    var hands: nat
    var hold: nat
    /** `_previousTimeNotes`: the last tick holding a tap and its time. */
    var previousNote: Option<Tick>
    var previousTime: int
    /** `_previousFoot` */
    var previousFoot: Foot

    /** The fields building changes, as one value. */
    function State(): BuilderState
      reads this
    {
      BuilderState(tap, jump, mines, hands, previousNote, previousTime, previousFoot)
    }

    constructor (config: StepBuilderConfig, settings: ChartSettings, itgOffset: real)
      requires ExactGrid(AutoSnap(settings.minGapForAutoSnapping))
      ensures this.config == config && this.settings == settings && this.itgOffset == itgOffset
      ensures fractions == FractionsSpec(AutoSnap(settings.minGapForAutoSnapping), true)
      ensures State() == InitialState && hold == 0
    {
      this.config := config;
      this.settings := settings;
      this.itgOffset := itgOffset;
      tap, jump, mines, hands, hold := 0, 0, 0, 0, 0;
      previousNote, previousTime := None, -1;
      previousFoot := NoFoot;
      var f := GenerateFractions(AutoSnap(settings.minGapForAutoSnapping), true);
      fractions := f;
    }

    /** `getNeariestFraction`: the member of `_fractions` closest to the
        beat fraction `fraction`, the earliest on ties, starting from a
        best distance of 1 and the member 0. */
    method GetNeariestFraction(fraction: real) returns (neariestFraction: nat)
      ensures neariestFraction == NearestScan(fraction, fractions).1
    {
      var min := 1.0;
      neariestFraction := 0;
      var k := 0;
      while k < |fractions|
        invariant 0 <= k <= |fractions|
        invariant (min, neariestFraction) == NearestScan(fraction, fractions[..k])
      {
        assert fractions[..k + 1][..k] == fractions[..k];
        var target := fractions[k];
        var delta := Dist(target, fraction);
        if delta < min {
          min := delta;
          neariestFraction := target;
        }
        k := k + 1;
      }
      assert fractions[..|fractions|] == fractions;
    }

    /** The snapping step of `buildV2StepNotes` for a note at beat `t`: the
        time in units, kept when its position in the beat is in
        `_fractions`, otherwise moved to the nearest member. */
    method SnapTime(t: real) returns (units: int)
      ensures units == SnapUnits(fractions, t)
    {
      var integer := t.Floor;
      var fraction := OffsetInBeat(t);
      if fraction == fraction.Floor as real && fraction.Floor in fractions {
        units := integer * 96 + fraction.Floor;
      } else {
        var neariestFraction := GetNeariestFraction(t - integer as real);
        units := integer * 96 + neariestFraction;
      }
    }

    /** `getLocationForNotes`: the placement rules, run against the foot
        field, which an accepted single updates. */
    method GetLocationForNotes(previousPositions: seq<int>, currentLocations: seq<int>, beatGap: int) returns (locations: seq<int>)
      requires ValidLanes(currentLocations) && NoLane !in previousPositions
      modifies this
      ensures var p := Place(config, previousPositions, currentLocations, beatGap, old(previousFoot));
        locations == p.locations && previousFoot == p.foot
      ensures tap == old(tap) && jump == old(jump) && mines == old(mines) && hands == old(hands)
      ensures hold == old(hold) && previousNote == old(previousNote) && previousTime == old(previousTime)
      decreases |currentLocations|,
        if |currentLocations| == 1 then RunLength(config, previousPositions, beatGap, previousFoot, currentLocations[0]) else 0
    {
      if |currentLocations| == 1 {
        var lane := currentLocations[0];
        if Below(beatGap, config.minGapForDoubleTap) && previousPositions == currentLocations {
          NoThreeMoves(config, previousPositions, beatGap, previousFoot, lane);
          locations := GetLocationForNotes(previousPositions, [Rotate(lane)], beatGap);
          return;
        } else if Below(beatGap, config.minGapForJumpTap) && |previousPositions| > 1 {
          return [];
        } else if config.crossover == Some("false") || Below(beatGap, config.minGapForCrossovers) {
          var currentFoot := FootOf(lane);
          if previousFoot != NoFoot && previousFoot == currentFoot {
            NoThreeMoves(config, previousPositions, beatGap, previousFoot, lane);
            locations := GetLocationForNotes(previousPositions, [Rotate(lane)], beatGap);
            return;
          }
        }
        if previousPositions != currentLocations {
          if lane == 0 {
            previousFoot := Left;
          } else if lane == 3 {
            previousFoot := Right;
          } else {
            previousFoot := if previousFoot == Left then Right else Left;
          }
        }
        return currentLocations;
      } else if |currentLocations| >= 2 {
        var current := currentLocations;
        if config.hands == Some("false") {
          current := current[..2];
        }
        if |previousPositions| > 1 && Below(beatGap, config.minGapForJumps) {
          current := current[..1];
          locations := GetLocationForNotes(previousPositions, current, beatGap);
          return;
        } else if |previousPositions| == 1 && Below(beatGap, config.minGapForTapJumps) {
          current := current[..1];
          locations := GetLocationForNotes(previousPositions, current, beatGap);
          return;
        } else {
          return current;
        }
      }
      return currentLocations;
    }

    /** `countNotes`: the mines on the tick are added, and the tap, jump
        and hands counters each go up by one when the tick holds at least
        one, two or three taps. */
    method CountNotes(notes: Tick)
      modifies this
      ensures State() == Counted(old(State()), notes, 0)
      ensures hold == old(hold)
    {
      var noteCount := CountCells(notes, Tap);
      var minesCount := CountCells(notes, Mine);
      mines := mines + minesCount;
      if noteCount == 1 {
        tap := tap + 1;
      } else if noteCount == 2 {
        jump := jump + 1;
        tap := tap + 1;
      } else if noteCount > 2 {
        hands := hands + 1;
        jump := jump + 1;
        tap := tap + 1;
      }
    }

    /** The bombs of a tick go to the mines, then the tick is counted. */
    method CountTick(notes: Tick, bombs: nat)
      modifies this
      ensures State() == Counted(old(State()), notes, bombs)
      ensures hold == old(hold)
    {
      ghost var st0 := State();
      mines := mines + bombs;
      assert State() == st0.(mines := st0.mines + bombs);
      CountNotes(notes);
      CountedBombs(st0, notes, bombs);
    }

    /** `buildNotes`: the lanes the tick's notes ask for, placed by the
        rules, tapped on a fresh tick; the bombs laid; the counters, the
        mines and the foot updated. */
    method BuildNotes(currentTimeNotes: seq<TimedNote>) returns (notes: Tick)
      requires |currentTimeNotes| > 0 && AllWellFormed(currentTimeNotes)
      modifies this
      ensures (notes, State()) == BuildNotesSpec(config, old(State()), currentTimeNotes)
      ensures hold == old(hold)
    {
      ghost var st0 := State();
      var beatGap := MaxSafeGap;
      if previousTime > 0 {
        beatGap := currentTimeNotes[0].units - previousTime;
      }
      var handIndices := GroupHands(currentTimeNotes);
      HandIndicesLanes(currentTimeNotes);
      var currentLocations := LocationsFor(config.jumpMode, handIndices);
      var previousPositions := PreviousPositionsOf(previousNote);
      var locations := GetLocationForNotes(previousPositions, currentLocations, beatGap);
      ghost var placed := Place(config, previousPositions, currentLocations, beatGap, st0.foot);
      assert placed == Placed(config, st0, currentTimeNotes) by {
        assert beatGap == Gap(st0, currentTimeNotes);
        assert currentLocations == Wanted(config, currentTimeNotes);
        assert previousPositions == PreviousPositions(st0);
      }
      if |locations| > 1 {
        previousFoot := NoFoot;
      }
      ghost var footed := st0.(foot := previousFoot);
      var bombs := BombLanes(currentTimeNotes);
      notes := FillTick(locations, bombs);
      CountTick(notes, |bombs|);
      BuildNotesSpecIs(config, st0, currentTimeNotes, placed, footed, notes);
    }

    /** One pass of the loop of `buildStepNotesForMeasure` at time `start`:
        the notes there (`note._time === start`) built into a tick, which
        becomes the previous tick when it holds a tap; no notes give an
        empty tick. */
    method TickAt(mapNotes: seq<TimedNote>, start: int) returns (note: Tick)
      requires AllWellFormed(mapNotes)
      modifies this
      ensures (note, State()) == Step(config, old(State()), mapNotes, start)
      ensures hold == old(hold)
    {
      var possibleNotes := NotesAt(mapNotes, start);
      if |possibleNotes| > 0 {
        ghost var built := BuildNotesSpec(config, State(), possibleNotes);
        note := BuildNotes(possibleNotes);
        assert (note, State()) == built;
        if Tap in note {
          previousNote := Some(note);
          previousTime := start;
        }
        assert State() == Remember(built.1, note, start);
      } else {
        note := EmptyTick;
      }
    }

    /** The loop of `buildStepNotesForMeasure`: one tick per grid step,
        the time advanced to the next grid member of the beat, wrapping
        to the next beat after `96`. */
    method TicksOfMeasure(fractions: seq<nat>, d: nat, q: nat, s: nat, mapNotes: seq<TimedNote>, index: int)
      returns (measure: Measure)
      requires AllWellFormed(mapNotes)
      requires q > 0 && s > 0 && q * s == 96 && s * d == 384
      requires |fractions| == q + 1
      requires forall j :: 0 <= j < |fractions| ==> fractions[j] == j * s
      modifies this
      ensures (measure, State()) == MeasureFrom(config, old(State()), s, mapNotes, index * 384, d)
      ensures hold == old(hold)
    {
      ghost var st0 := State();
      var start := index * 384;
      var fractionIndex := 1;
      measure := [];
      ghost var k: nat := 0;
      while start < (index + 1) * 384
        invariant k <= d
        invariant start == index * 384 + k * s
        invariant fractionIndex == k % q + 1
        invariant (measure, State()) == MeasureFrom(config, st0, s, mapNotes, index * 384, k)
        invariant hold == old(hold)
        decreases d - k
      {
        TickInMeasure(index, k, s, d);
        ghost var pre := MeasureFrom(config, st0, s, mapNotes, index * 384, k);
        ghost var last := Step(config, pre.1, mapNotes, start);
        MeasureFromSnoc(config, st0, s, mapNotes, index * 384, k, start);
        assert MeasureFrom(config, st0, s, mapNotes, index * 384, k + 1) == (measure + [last.0], last.1);
        var note := TickAt(mapNotes, start);
        assert (note, State()) == last;
        measure := measure + [note];
        NextStart(index, k, q, s, start, fractions);
        start := start / 96 * 96 + fractions[fractionIndex];
        NextFractionIndex(k, q);
        if fractionIndex >= |fractions| - 1 {
          fractionIndex := 1;
        } else {
          fractionIndex := fractionIndex + 1;
        }
        k := k + 1;
      }
      TickInMeasure(index, k, s, d);
    }

    /** `buildStepNotesForMeasure`: `beatsPerMeasure` ticks from the
        measure's start, stepping through `FRACTIONS[beatsPerMeasure]`
        beat by beat. A resolution without a `FRACTIONS` entry builds the
        first tick and then throws at `fractions.length`. */
    method BuildStepNotesForMeasure(beatsPerMeasure: nat, mapNotes: seq<TimedNote>, index: int) returns (r: Result<Measure>)
      requires AllWellFormed(mapNotes)
      modifies this
      ensures r.Failure? <==> beatsPerMeasure !in PossibleBeatsPerMeasure
      ensures r.Failure? ==> r.error == NoFractionsError
      ensures r.Success? ==>
        ExactGrid(beatsPerMeasure) &&
        (r.value, State()) == MeasureSpec(config, old(State()), beatsPerMeasure, mapNotes, index)
      ensures hold == old(hold)
    {
      var table := FractionsTable(beatsPerMeasure);
      var start := index * 384;
      if table.None? {
        var _ := TickAt(mapNotes, start);
        return Failure(NoFractionsError);
      }
      var fractions := table.value;
      var d := beatsPerMeasure;
      var spacing := Spacing(d);
      var beat := d / 4;
      TableGridsExact();
      assert beat * spacing == 96 && |fractions| == beat + 1 by {
        assert d == 4 * beat;
        assert spacing * (4 * beat) == 384;
      }
      var measure := TicksOfMeasure(fractions, d, beat, spacing, mapNotes, index);
      return Success(measure);
    }

    /** `getBeatsPerMeasureForFraction`: the table scanned in order for the
        first resolution whose `FRACTIONS` entry holds the position `g`;
        the last entry when none does. */
    method GetBeatsPerMeasureForFraction(g: int) returns (beatsPerMeasure: nat)
      ensures beatsPerMeasure == BeatsPerMeasureForFraction(g)
    {
      var i := 0;
      while i < |PossibleBeatsPerMeasure|
        invariant 0 <= i <= |PossibleBeatsPerMeasure|
        invariant FirstGridFrom(g, i) == FirstGridFrom(g, 0)
      {
        var candidate := PossibleBeatsPerMeasure[i];
        var table := FractionsTable(candidate).value;
        OnGridIsMember(g, candidate);
        if g in table {
          return candidate;
        }
        i := i + 1;
      }
      return PossibleBeatsPerMeasure[|PossibleBeatsPerMeasure| - 1];
    }

    /** The inner loop of `buildV2StepNotes`' second pass: the least common
        multiple, from 4, of the resolutions of the notes' positions. */
    method MeasureResolution(ns: seq<TimedNote>) returns (beatsPerMeasure: nat)
      ensures beatsPerMeasure == ResolutionOf(Offsets(ns))
    {
      ghost var offsets := Offsets(ns);
      beatsPerMeasure := 4;
      var j := 0;
      while j < |ns|
        invariant 0 <= j <= |ns|
        invariant beatsPerMeasure == ResolutionOf(offsets[..j])
      {
        assert offsets[..j + 1][..j] == offsets[..j];
        var forFraction := GetBeatsPerMeasureForFraction(ns[j].units % 96);
        beatsPerMeasure := LeastCommonMultiple(beatsPerMeasure, forFraction);
        j := j + 1;
      }
      assert offsets[..|ns|] == offsets;
    }

    /** The `reduce` of `buildV2StepNotes`: each note snapped, its measure
        counted, and the note appended to its measure's list. */
    method GroupByMeasure(notes: seq<NoteV2>)
      returns (snapped: seq<TimedNote>, numberOfMeasures: nat, notesByMeasure: map<int, seq<TimedNote>>, keys: seq<int>)
      requires forall j :: 0 <= j < |notes| ==> NoteInRange(notes[j])
      ensures snapped == SnapAll(fractions, notes) && AllWellFormed(snapped)
      ensures numberOfMeasures == MeasureCount(snapped)
      ensures GroupedBy(snapped, notesByMeasure)
      ensures forall i :: i in notesByMeasure <==> i in keys
    {
      snapped := [];
      numberOfMeasures := 0;
      notesByMeasure := map[];
      keys := [];
      ghost var grid := fractions;
      var k := 0;
      while k < |notes|
        invariant 0 <= k <= |notes|
        invariant snapped == SnapAll(grid, notes[..k])
        invariant numberOfMeasures == MeasureCount(snapped)
        invariant notesByMeasure == Grouped(snapped)
        invariant keys == GroupKeys(snapped)
      {
        var note := notes[k];
        var units := SnapTime(note.time);
        var cur := TimedNote(note.lineIndex, note.noteType, units);
        var measureIndex := units / 384;
        SnapAllSnoc(grid, notes, k, cur);
        GroupStep(snapped, cur);
        MeasureCountSnoc(snapped, cur);
        numberOfMeasures := if measureIndex + 1 > numberOfMeasures then measureIndex + 1 else numberOfMeasures;
        if measureIndex in notesByMeasure {
          notesByMeasure := notesByMeasure[measureIndex := notesByMeasure[measureIndex] + [cur]];
        } else {
          assert [] + [cur] == [cur];
          notesByMeasure := notesByMeasure[measureIndex := [cur]];
          keys := keys + [measureIndex];
        }
        snapped := snapped + [cur];
        k := k + 1;
      }
      assert notes[..k] == notes;
      SnapAllInRange(grid, notes);
      GroupedIsGroupedBy(snapped);
      GroupKeysAreKeys(snapped);
    }

    /** The second pass of `buildV2StepNotes`: the resolution of every
        measure that has notes, visiting the object's keys (their order
        does not matter; nothing else changes). */
    method Resolutions(notesByMeasure: map<int, seq<TimedNote>>, keys: seq<int>) returns (resolutions: map<int, nat>)
      requires forall i :: i in notesByMeasure <==> i in keys
      ensures forall i :: i in resolutions <==> i in notesByMeasure
      ensures forall i :: i in resolutions ==> resolutions[i] == ResolutionOf(Offsets(notesByMeasure[i]))
    {
      resolutions := map[];
      for k := 0 to |keys|
        invariant forall i :: i in resolutions <==> i in keys[..k]
        invariant forall i :: i in resolutions ==> resolutions[i] == ResolutionOf(Offsets(notesByMeasure[i]))
      {
        var key := keys[k];
        assert keys[..k + 1] == keys[..k] + [key];
        var beatsPerMeasure := MeasureResolution(notesByMeasure[key]);
        resolutions := resolutions[key := beatsPerMeasure];
      }
      assert keys[..|keys|] == keys;
    }

    /** One pass of the last loop of `buildV2StepNotes`: four empty ticks
        for a measure without notes, otherwise the measure built at its
        resolution (`|| 4` never applies: a resolution is positive). */
    method BuildMeasure(i: int, snapped: seq<TimedNote>, notesByMeasure: map<int, seq<TimedNote>>, resolutions: map<int, nat>)
      returns (measure: Result<Measure>)
      requires AllWellFormed(snapped)
      requires GroupedBy(snapped, notesByMeasure)
      requires forall j :: j in resolutions <==> j in notesByMeasure
      requires forall j :: j in resolutions ==> resolutions[j] == ResolutionOf(Offsets(notesByMeasure[j]))
      modifies this
      ensures var m := MeasureAt(config, old(State()), snapped, i);
        (m.Success? ==> measure == Success(m.value.0) && State() == m.value.1) &&
        (m.Failure? ==> measure == Failure(m.error))
      ensures hold == old(hold)
    {
      assert NotesOfMeasure(snapped, i) == if i in notesByMeasure then notesByMeasure[i] else [];
      if i !in notesByMeasure {
        measure := Success([EmptyTick, EmptyTick, EmptyTick, EmptyTick]);
      } else {
        var beatsPerMeasure: int := resolutions[i];
        if beatsPerMeasure == 0 {
          beatsPerMeasure := 4;
        }
        measure := BuildStepNotesForMeasure(beatsPerMeasure, notesByMeasure[i], i);
      }
    }

    /** The last loop of `buildV2StepNotes`: measures `0` to `count - 1`;
        a measure that throws ends the build. */
    method BuildMeasures(snapped: seq<TimedNote>, count: nat, notesByMeasure: map<int, seq<TimedNote>>, resolutions: map<int, nat>)
      returns (r: Result<seq<Measure>>)
      requires AllWellFormed(snapped)
      requires GroupedBy(snapped, notesByMeasure)
      requires forall j :: j in resolutions <==> j in notesByMeasure
      requires forall j :: j in resolutions ==> resolutions[j] == ResolutionOf(Offsets(notesByMeasure[j]))
      modifies this
      ensures var spec := MeasuresFrom(config, old(State()), snapped, count, 0);
        (spec.Success? ==> r == Success(spec.value.0) && State() == spec.value.1) &&
        (spec.Failure? ==> r == Failure(spec.error))
      ensures hold == old(hold)
    {
      var stepMeasures: seq<Measure> := [];
      var i: nat := 0;
      PrefixedNone(MeasuresFrom(config, State(), snapped, count, 0));
      while i < count
        invariant i <= count
        invariant Prefixed(stepMeasures, MeasuresFrom(config, State(), snapped, count, i)) ==
                  MeasuresFrom(config, old(State()), snapped, count, 0)
        invariant hold == old(hold)
        decreases count - i
      {
        ghost var before := State();
        var measure := BuildMeasure(i, snapped, notesByMeasure, resolutions);
        if measure.Failure? {
          PrefixedFailure(config, before, snapped, count, i, stepMeasures);
          return Failure(measure.error);
        }
        PrefixedStep(config, before, snapped, count, i, stepMeasures);
        stepMeasures := stepMeasures + [measure.value];
        i := i + 1;
      }
      assert stepMeasures + [] == stepMeasures;
      return Success(stepMeasures);
    }

    /** `buildV2StepNotes`: every note snapped to the auto-snap grid and
        grouped by measure; each measure's resolution; then the measures
        from 0 to the last one holding a note, four empty ticks where a
        measure has none. */
    method BuildV2StepNotes(notes: seq<NoteV2>) returns (r: Result<seq<Measure>>)
      requires forall j :: 0 <= j < |notes| ==> NoteInRange(notes[j])
      modifies this
      ensures AllWellFormed(SnapAll(fractions, notes))
      ensures var spec := StepNotes(config, old(State()), SnapAll(fractions, notes));
        (spec.Success? ==> r == Success(spec.value.0) && State() == spec.value.1) &&
        (spec.Failure? ==> r == Failure(spec.error))
      ensures hold == old(hold)
    {
      var snapped, numberOfMeasures, notesByMeasure, keys := GroupByMeasure(notes);
      var resolutions := Resolutions(notesByMeasure, keys);
      r := BuildMeasures(snapped, numberOfMeasures, notesByMeasure, resolutions);
    }

    /** `build`, through `mapToChart`: the notes moved by the additional
        offset, built into measures, then the chart with the counters and
        the meter. `meterOf` stands for the rounding of
        `getChartDifficulty`. */
    method Build(meterOf: real -> nat) returns (r: Result<Chart>)
      requires forall j :: 0 <= j < |settings.mapNotes| ==> NoteInRange(settings.mapNotes[j])
      modifies this
      ensures var spec := ChartOf(config, settings, itgOffset, fractions, old(State()), old(hold), meterOf);
        (spec.Success? ==> r == Success(spec.value.0) && State() == spec.value.1) &&
        (spec.Failure? ==> r == Failure(spec.error))
      ensures hold == old(hold)
    {
      var shifted := ShiftNotes(settings.mapNotes, OffsetInBeats(settings.bpm, settings.additionalOffset, itgOffset));
      ShiftInRange(settings.mapNotes, OffsetInBeats(settings.bpm, settings.additionalOffset, itgOffset));
      var stepNotes := BuildV2StepNotes(shifted);
      if stepNotes.Failure? {
        return Failure(stepNotes.error);
      }
      var meter := ChartDifficulty(LastTime(settings.mapNotes), settings.bpm, State(), meterOf);
      return Success(Chart("dance-single", settings.difficultyName, NatToString(meter), stepNotes.value,
                           hands, jump, tap, hold, mines));
    }
  }
}
