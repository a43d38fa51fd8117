/**
  What `StepBuilder` computes, as functions of its state: one tick from the
  notes at its time, one measure tick by tick, and the whole chart measure
  by measure. The state is the builder's counters, the last tick that held
  a tap with its time, and the foot used last.
 */
module StepBuilderSpec {
  import opened Wrappers
  import opened StepTypes
  import opened StepBuilderTypes
  import opened Placement
  import opened NoteGrouping
  import opened TickCells
  import opened Fractions
  import opened Resolution

  /** The fields of a `StepBuilder` that building changes. */
  datatype BuilderState = BuilderState(
    tap: nat, jump: nat, mines: nat, hands: nat,
    previousNote: Option<Tick>, previousTime: int,
    foot: Foot)

  /** A fresh builder: no counts, no previous tick (time -1), no foot. */
  const InitialState: BuilderState := BuilderState(0, 0, 0, 0, None, -1, NoFoot)

  /** The counters never contradict each other: a tick counted as hands is
      a jump, and a jump is a tap. */
  predicate CountsOrdered(st: BuilderState)
  {
    st.hands <= st.jump <= st.tap
  }

  /** Four empty cells. */
  const EmptyTick: Tick := [Empty, Empty, Empty, Empty]

  /** The time since the last tick with a tap, or `MAX_SAFE_INTEGER` beats
      when there is none after time 0. */
  function Gap(st: BuilderState, notes: seq<TimedNote>): int
    requires |notes| > 0
  {
    if st.previousTime > 0 then notes[0].units - st.previousTime else MaxSafeGap
  }

  /** The lanes of the previous tick that hold a tap. */
  function PreviousPositions(st: BuilderState): (r: seq<int>)
    ensures NoLane !in r
  {
    match st.previousNote
    case None => []
    case Some(t) =>
      var r := TapLanes(t);
      assert forall i :: 0 <= i < |r| ==> r[i] >= 0;
      r
  }

  /** The lanes of the bombs among the notes. */
  function BombLanes(notes: seq<TimedNote>): (r: seq<int>)
    requires AllWellFormed(notes)
    ensures forall k :: 0 <= k < |r| ==> 0 <= r[k] < 4
  {
    LanesOfType(notes, 3)
  }

  /** The lanes `buildNotes` asks for. */
  function Wanted(c: StepBuilderConfig, notes: seq<TimedNote>): (r: seq<int>)
    requires AllWellFormed(notes)
    ensures ValidLanes(r)
  {
    HandIndicesLanes(notes);
    CurrentLocationsLanes(c.jumpMode, HandIndices(notes));
    CurrentLocations(c.jumpMode, HandIndices(notes))
  }

  /** The placement of a tick's notes. */
  function Placed(c: StepBuilderConfig, st: BuilderState, notes: seq<TimedNote>): Placement
    requires |notes| > 0 && AllWellFormed(notes)
  {
    Place(c, PreviousPositions(st), Wanted(c, notes), Gap(st, notes), st.foot)
  }

  /** The counters after `countNotes` on a tick and the bombs' own count. */
  function Counted(st: BuilderState, t: Tick, bombs: nat): (r: BuilderState)
  {
    var n := CountCells(t, Tap);
    st.(mines := st.mines + bombs + CountCells(t, Mine),
        tap := st.tap + (if n >= 1 then 1 else 0),
        jump := st.jump + (if n >= 2 then 1 else 0),
        hands := st.hands + (if n > 2 then 1 else 0))
  }

  /** `buildNotes`: the tick and the state after it. */
  function BuildNotesSpec(c: StepBuilderConfig, st: BuilderState, notes: seq<TimedNote>): (r: (Tick, BuilderState))
    requires |notes| > 0 && AllWellFormed(notes)
    ensures |r.0| == 4
  {
    var p := Placed(c, st, notes);
    var foot := if |p.locations| > 1 then NoFoot else p.foot;
    var t := LayBombs(TapCells(p.locations), BombLanes(notes));
    (t, Counted(st.(foot := foot), t, |BombLanes(notes)|))
  }

  /** The time of tick `k` of measure `index` at resolution `d`. */
  function TickTime(index: int, d: int, k: int): int
    requires ExactGrid(d)
  {
    index * 384 + k * Spacing(d)
  }

  /** The notes at time `u`, in their order (`note._time === start`). */
  function NotesAt(notes: seq<TimedNote>, u: int): (r: seq<TimedNote>)
    ensures forall n :: n in r <==> n in notes && n.units == u
    ensures AllWellFormed(notes) ==> AllWellFormed(r)
    ensures |r| <= |notes|
  {
    if |notes| == 0 then []
    else
      var init := NotesAt(notes[..|notes| - 1], u);
      assert forall n :: n in notes <==> n in notes[..|notes| - 1] || n == notes[|notes| - 1];
      assert AllWellFormed(notes) ==> AllWellFormed(notes[..|notes| - 1]);
      if notes[|notes| - 1].units == u then init + [notes[|notes| - 1]] else init
  }

  /** The state after a tick: the tick becomes the previous one when it
      holds a tap. */
  function Remember(st: BuilderState, t: Tick, time: int): BuilderState
  {
    if Tap in t then st.(previousNote := Some(t), previousTime := time) else st
  }

  /** One pass of the loop of `buildStepNotesForMeasure` at time `start`:
      an empty tick when no note is there, otherwise the tick `buildNotes`
      makes, remembered when it holds a tap. */
  function Step(c: StepBuilderConfig, st: BuilderState, notes: seq<TimedNote>, start: int): (r: (Tick, BuilderState))
    requires AllWellFormed(notes)
    ensures |r.0| == 4
  {
    var at := NotesAt(notes, start);
    if |at| == 0 then (EmptyTick, st)
    else
      var built := BuildNotesSpec(c, st, at);
      (built.0, Remember(built.1, built.0, start))
  }

  /** `n` ticks `step` units apart from time `start`, each one built by
      `next` from the state the one before it leaves; and the last state. */
  function Ticks(next: (BuilderState, int) --> (Tick, BuilderState), st: BuilderState, step: nat, start: int, n: nat): (r: (seq<Tick>, BuilderState))
    requires forall s, t :: next.requires(s, t)
    ensures |r.0| == n
    decreases n
  {
    if n == 0 then ([], st)
    else
      var first := next(st, start);
      var rest := Ticks(next, first.1, step, start + step, n - 1);
      ([first.0] + rest.0, rest.1)
  }

  /** `Step` on the notes `notes`, as a function of the state and the time. */
  function Stepper(c: StepBuilderConfig, notes: seq<TimedNote>): (next: (BuilderState, int) --> (Tick, BuilderState))
    requires AllWellFormed(notes)
    ensures forall s, t :: next.requires(s, t) && next(s, t) == Step(c, s, notes, t)
  {
    (s: BuilderState, t: int) requires AllWellFormed(notes) => Step(c, s, notes, t)
  }

  /** `buildStepNotesForMeasure` for the `n` ticks left from time `start`,
      `step` units apart: the ticks and the state after them. */
  function MeasureFrom(c: StepBuilderConfig, st: BuilderState, step: nat, notes: seq<TimedNote>, start: int, n: nat): (r: (seq<Tick>, BuilderState))
    requires AllWellFormed(notes)
    ensures |r.0| == n
  {
    Ticks(Stepper(c, notes), st, step, start, n)
  }

  /** Measure `index` at resolution `d`: `d` ticks from the measure's
      start, `384 / d` units apart. */
  function MeasureSpec(c: StepBuilderConfig, st: BuilderState, d: int, notes: seq<TimedNote>, index: int): (r: (seq<Tick>, BuilderState))
    requires ExactGrid(d) && AllWellFormed(notes)
    ensures |r.0| == d
  {
    MeasureFrom(c, st, Spacing(d), notes, index * 384, d)
  }

  /** The notes of measure `i`, in their order. */
  function NotesOfMeasure(notes: seq<TimedNote>, i: int): (r: seq<TimedNote>)
    ensures forall n :: n in r <==> n in notes && n.units / 384 == i
    ensures AllWellFormed(notes) ==> AllWellFormed(r)
  {
    if |notes| == 0 then []
    else
      var init := NotesOfMeasure(notes[..|notes| - 1], i);
      assert forall n :: n in notes <==> n in notes[..|notes| - 1] || n == notes[|notes| - 1];
      assert AllWellFormed(notes) ==> AllWellFormed(notes[..|notes| - 1]);
      if notes[|notes| - 1].units / 384 == i then init + [notes[|notes| - 1]] else init
  }

  /** The notes' positions inside their beats, in units. */
  function Offsets(notes: seq<TimedNote>): (r: seq<int>)
    ensures |r| == |notes| && forall i :: 0 <= i < |notes| ==> r[i] == notes[i].units % 96
  {
    seq(|notes|, i requires 0 <= i < |notes| => notes[i].units % 96)
  }

  /** One more than the highest measure index, or 0. */
  function MeasureCount(notes: seq<TimedNote>): (n: nat)
    ensures forall i :: 0 <= i < |notes| ==> notes[i].units / 384 < n
    ensures n > 0 ==> exists i :: 0 <= i < |notes| && notes[i].units / 384 == n - 1
  {
    if |notes| == 0 then 0
    else
      var init := MeasureCount(notes[..|notes| - 1]);
      var m := notes[|notes| - 1].units / 384 + 1;
      assert forall i :: 0 <= i < |notes| - 1 ==> notes[..|notes| - 1][i] == notes[i];
      if m > init then m else init
  }

  /** The message of the `TypeError` line 397 throws. */
  const NoFractionsError: string := "Cannot read properties of undefined (reading 'length')"

  /** Measure `i` of `buildV2StepNotes` and the state after it: four
      empty ticks when it has no notes, otherwise its ticks at its
      resolution, or a failure when that resolution has no grid. */
  function MeasureAt(c: StepBuilderConfig, st: BuilderState, notes: seq<TimedNote>, i: int): (r: Result<(Measure, BuilderState)>)
    requires AllWellFormed(notes)
  {
    var ns := NotesOfMeasure(notes, i);
    if |ns| == 0 then Success(([EmptyTick, EmptyTick, EmptyTick, EmptyTick], st))
    else
      var d := ResolutionOf(Offsets(ns));
      if d !in PossibleBeatsPerMeasure then Failure(NoFractionsError)
      else
        TableGridsExact();
        Success(MeasureSpec(c, st, d, ns, i))
  }

  /** Measures `i` to `count - 1` of `buildV2StepNotes`, and the state after
      them. */
  function MeasuresFrom(c: StepBuilderConfig, st: BuilderState, notes: seq<TimedNote>, count: nat, i: nat): (r: Result<(seq<Measure>, BuilderState)>)
    requires AllWellFormed(notes) && i <= count
    ensures r.Success? ==> |r.value.0| == count - i
    decreases count - i
  {
    if i == count then Success(([], st))
    else
      var m := MeasureAt(c, st, notes, i);
      if m.Failure? then Failure(m.error)
      else
        var rest := MeasuresFrom(c, m.value.1, notes, count, i + 1);
        if rest.Failure? then rest else Success(([m.value.0] + rest.value.0, rest.value.1))
  }

  /** `buildV2StepNotes` on notes already snapped. */
  function StepNotes(c: StepBuilderConfig, st: BuilderState, notes: seq<TimedNote>): Result<(seq<Measure>, BuilderState)>
    requires AllWellFormed(notes)
  {
    MeasuresFrom(c, st, notes, MeasureCount(notes), 0)
  }
}
