/**
  What the builder's specification guarantees: every tick has four cells,
  the counters stay ordered, every note of a measure falls on one of its
  ticks, and with the grids the settings allow the build never fails.
 */
module StepBuilderProps {
  import opened Wrappers
  import opened StepTypes
  import opened StepBuilderTypes
  import opened NoteGrouping
  import opened TickCells
  import opened Arithmetic
  import opened Fractions
  import opened Resolution
  import opened StepBuilderSpec

  /** A grid that holds every grid below it in the table holds `Spacing`. */
  lemma SpacingDivides(e: int, d: int)
    requires ExactGrid(e) && ExactGrid(d) && d % e == 0
    ensures Spacing(e) % Spacing(d) == 0
  {
    FactorOf(Spacing(e), Spacing(d), e, d);
  }

  /** If `se * e == sd * d` and `e` divides `d`, then `sd` divides `se`. */
  lemma FactorOf(se: int, sd: int, e: int, d: int)
    requires e > 0 && sd > 0 && d % e == 0 && se * e == sd * d
    ensures se % sd == 0
  {
    var m := d / e;
    DivMod(d, e);
    assert d == m * e;
    MulAssoc(sd, m, e);
    assert se * e == (sd * m) * e;
    ModOfMultiple(se, e);
    ModOfMultiple(sd * m, e);
    assert se == m * sd;
    ModOfMultiple(m, sd);
  }

  /** The position inside the beat of a multiple of 4 units is one too. */
  lemma OffsetQuarter(u: int)
    requires u % 4 == 0
    ensures (u % 96) % 4 == 0 && 0 <= u % 96 < 96
  {
    DivMod(u, 96);
    DivLinear(4, u, 96, 1, -(u / 96));
    assert 1 * u + -(u / 96) * 96 == u % 96;
  }

  /** Every note whose time is a multiple of 4 units lies on the grid of the
      resolution of its measure, and that resolution is in the table. */
  lemma OffsetOnResolution(offsets: seq<int>, j: nat)
    requires forall i :: 0 <= i < |offsets| ==> 0 <= offsets[i] < 96 && offsets[i] % 4 == 0
    requires j < |offsets|
    ensures ResolutionOf(offsets) in PossibleBeatsPerMeasure
    ensures ExactGrid(ResolutionOf(offsets)) && ResolutionOf(offsets) % 4 == 0
    ensures offsets[j] % Spacing(ResolutionOf(offsets)) == 0
  {
    var g := offsets[j];
    var d := ResolutionOf(offsets);
    ResolutionInTable(offsets);
    TableGridsExact();
    FirstIndexAtMost96(g);
    FirstGridFromHolds(g, 0);
    var e := BeatsPerMeasureForFraction(g);
    assert OnGrid(g, e);
    ResolutionIsCommonMultiple(offsets);
    assert d % e == 0;
    SpacingDivides(e, d);
    DivTrans(Spacing(d), Spacing(e), g);
  }

  /** Ticks come in time order. */
  lemma TickTimesAscend(index: int, d: int, k1: int, k2: int)
    requires ExactGrid(d) && k1 < k2
    ensures TickTime(index, d, k1) < TickTime(index, d, k2)
  {
    MulLessCancelRev(k1, k2, Spacing(d));
  }

  /** A time inside measure `index` whose position inside its beat is on
      the grid of `d` is the time of one of the measure's `d` ticks. */
  lemma LandsOnTick(index: int, d: int, u: int) returns (k: nat)
    requires ExactGrid(d) && d % 4 == 0
    requires u / 384 == index && (u % 96) % Spacing(d) == 0
    ensures k < d && TickTime(index, d, k) == u
  {
    var s := Spacing(d);
    var r := u - index * 384;
    DivMod(u, 384);
    assert 0 <= r < 384;
    DivMod(r, 96);
    DivModUnique(u, 96, 4 * index + r / 96, r % 96);
    var t := d / 4;
    DivMod(d, 4);
    assert s * t == 96 by {
      MulAssoc(s, t, 4);
      assert s * (t * 4) == 384;
    }
    k := GridPosition(r, s, t);
  }

  /** An offset `r` inside a measure whose position inside its beat is a
      multiple of `s` is `k` steps of `s`, with `k` below the measure's
      `4 * t` ticks (`s * t` units to a beat). */
  lemma GridPosition(r: int, s: int, t: int) returns (k: nat)
    requires s > 0 && t > 0 && s * t == 96
    requires 0 <= r < 384 && (r % 96) % s == 0
    ensures k * s == r && k < t * 4
  {
    var q := r / 96;
    var m := r % 96;
    DivMod(r, 96);
    var a := m / s;
    DivMod(m, s);
    assert 0 <= q < 4 && a >= 0;
    MulMono(0, q, t);
    k := q * t + a;
    StepsOfBeats(q, t, a, s);
    BelowMeasure(k, s, t);
  }

  /** `q` beats of `t` steps and `a` more steps of `s` units are `q`
      beats and `a * s` units. */
  lemma StepsOfBeats(q: int, t: int, a: int, s: int)
    requires s * t == 96
    ensures (q * t + a) * s == q * 96 + a * s
  {
    MulDistrib(q * t, a, s);
    MulAssoc(q, t, s);
  }

  /** Fewer units than a measure are fewer steps than its `4 * t`. */
  lemma BelowMeasure(k: int, s: int, t: int)
    requires s > 0 && s * t == 96 && k * s < 384
    ensures k < t * 4
  {
    MulAssoc(t, 4, s);
    MulLessCancel(k, t * 4, s);
  }

  /** The notes of a measure that a note falls on whose time is `u`. */
  lemma InNotesAt(notes: seq<TimedNote>, n: TimedNote)
    requires n in notes
    ensures n in NotesAt(notes, n.units)
  {
  }

  /** The times of all notes are multiples of 4 units (the 96-grid). */
  predicate QuarterUnits(notes: seq<TimedNote>)
  {
    forall i :: 0 <= i < |notes| ==> notes[i].units % 4 == 0
  }

  lemma QuarterOffsets(notes: seq<TimedNote>)
    requires QuarterUnits(notes)
    ensures forall i :: 0 <= i < |Offsets(notes)| ==> 0 <= Offsets(notes)[i] < 96 && Offsets(notes)[i] % 4 == 0
  {
    forall i | 0 <= i < |notes| ensures 0 <= Offsets(notes)[i] < 96 && Offsets(notes)[i] % 4 == 0 {
      OffsetQuarter(notes[i].units);
    }
  }

  /** With note times that are exact units on the 96-grid, no note is lost:
      every note of a measure is among the notes of one of the measure's
      ticks. */
  lemma EveryNoteLands(ns: seq<TimedNote>, index: int, j: nat) returns (k: nat)
    requires QuarterUnits(ns) && j < |ns| && ns[j].units / 384 == index
    ensures ResolutionOf(Offsets(ns)) in PossibleBeatsPerMeasure
    ensures ExactGrid(ResolutionOf(Offsets(ns)))
    ensures k < ResolutionOf(Offsets(ns))
    ensures ns[j] in NotesAt(ns, TickTime(index, ResolutionOf(Offsets(ns)), k))
  {
    QuarterOffsets(ns);
    OffsetOnResolution(Offsets(ns), j);
    var d := ResolutionOf(Offsets(ns));
    k := LandsOnTick(index, d, ns[j].units);
  }

  /** With note times on the 96-grid, `buildV2StepNotes` never reaches the
      throw of line 397: every measure's resolution has a grid. */
  lemma MeasureAtSucceeds(c: StepBuilderConfig, st: BuilderState, notes: seq<TimedNote>, i: int)
    requires AllWellFormed(notes) && QuarterUnits(notes)
    ensures MeasureAt(c, st, notes, i).Success?
  {
    var ns := NotesOfMeasure(notes, i);
    if |ns| > 0 {
      assert QuarterUnits(ns) by {
        forall j | 0 <= j < |ns| ensures ns[j].units % 4 == 0 {
          assert ns[j] in ns;
        }
      }
      QuarterOffsets(ns);
      ResolutionInTable(Offsets(ns));
    }
  }

  lemma {:induction false} NeverFails(c: StepBuilderConfig, st: BuilderState, notes: seq<TimedNote>, count: nat, i: nat)
    requires AllWellFormed(notes) && QuarterUnits(notes) && i <= count
    ensures MeasuresFrom(c, st, notes, count, i).Success?
    decreases count - i
  {
    if i < count {
      MeasureAtSucceeds(c, st, notes, i);
      NeverFails(c, MeasureAt(c, st, notes, i).value.1, notes, count, i + 1);
    }
  }

  /** The auto-snap resolutions the settings allow (4 to 32, on whole
      units) are 4, 6, 8, 12, 16, 24 and 32, whose grids step by a
      multiple of 4 units. */
  lemma AllowedSpacing(d: int)
    requires ExactGrid(d) && 4 <= d <= 32
    ensures Spacing(d) % 4 == 0
  {
    assert d == 4 || d == 5 || d == 6 || d == 7 || d == 8 || d == 9 || d == 10 || d == 11 ||
      d == 12 || d == 13 || d == 14 || d == 15 || d == 16 || d == 17 || d == 18 || d == 19 ||
      d == 20 || d == 21 || d == 22 || d == 23 || d == 24 || d == 25 || d == 26 || d == 27 ||
      d == 28 || d == 29 || d == 30 || d == 31 || d == 32;
    assert d == 4 || d == 6 || d == 8 || d == 12 || d == 16 || d == 24 || d == 32;
  }

  /** So the snapping grid of such a setting holds 0 and only multiples of
      4 units up to one beat. */
  lemma AllowedFractions(d: int)
    requires ExactGrid(d) && 4 <= d <= 32
    ensures 0 in FractionsSpec(d, true)
    ensures forall g :: g in FractionsSpec(d, true) ==> g <= 96 && g % 4 == 0
  {
    SubfractionsMembers(d, 0);
    GridMembers(d, 0);
    forall g | g in FractionsSpec(d, true) ensures g <= 96 && g % 4 == 0 {
      SubfractionsMembers(d, g);
      if g in Grid(d) {
        GridMembers(d, g);
        AllowedSpacing(d);
        DivTrans(4, Spacing(d), g);
      } else {
        var e := SubfractionGrid(d).value;
        GridMembers(e, g);
        assert e == 8 || e == 16 || e == 24;
        assert Spacing(e) % 4 == 0;
        DivTrans(4, Spacing(e), g);
      }
    }
  }

  /** A time snapped to such a grid is a multiple of 4 units. */
  lemma SnapQuarter(fractions: seq<nat>, t: real)
    requires 0 in fractions
    requires forall g :: g in fractions ==> g % 4 == 0
    ensures SnapUnits(fractions, t) % 4 == 0
  {
    SnapInBeat(fractions, t);
    var g := SnapUnits(fractions, t) - BeatOf(t) * 96;
    assert g % 4 == 0;
    DivLinear(4, 96, g, BeatOf(t), 1);
    assert BeatOf(t) * 96 + 1 * g == SnapUnits(fractions, t);
  }

  /** The counters stay ordered, and a tick adds a tap exactly when it
      holds one, a jump when it holds two, hands when it holds three. */
  lemma CountedOrdered(st: BuilderState, t: Tick, bombs: nat)
    requires CountsOrdered(st)
    ensures CountsOrdered(Counted(st, t, bombs))
    ensures Counted(st, t, bombs).tap == st.tap + (if Tap in t then 1 else 0)
    ensures Counted(st, t, bombs).mines == st.mines + bombs + CountCells(t, Mine)
  {
    CountCellsPositive(t, Tap);
  }

  /** A count is positive exactly when the value occurs. */
  lemma {:induction false} CountCellsPositive(t: Tick, c: Cell)
    ensures CountCells(t, c) > 0 <==> c in t
  {
    if |t| > 0 {
      CountCellsPositive(t[..|t| - 1], c);
      assert t == t[..|t| - 1] + [t[|t| - 1]];
    }
  }

  /** One tick keeps the counters ordered. */
  lemma BuildNotesOrdered(c: StepBuilderConfig, st: BuilderState, notes: seq<TimedNote>)
    requires |notes| > 0 && AllWellFormed(notes) && CountsOrdered(st)
    ensures CountsOrdered(BuildNotesSpec(c, st, notes).1)
  {
    var p := Placed(c, st, notes);
    var foot := if |p.locations| > 1 then NoFoot else p.foot;
    var t := LayBombs(TapCells(p.locations), BombLanes(notes));
    CountedOrdered(st.(foot := foot), t, |BombLanes(notes)|);
  }

  /** One pass of the measure loop keeps the counters ordered. */
  lemma StepOrdered(c: StepBuilderConfig, st: BuilderState, notes: seq<TimedNote>, start: int)
    requires AllWellFormed(notes) && CountsOrdered(st)
    ensures CountsOrdered(Step(c, st, notes, start).1)
  {
    var at := NotesAt(notes, start);
    if |at| > 0 {
      BuildNotesOrdered(c, st, at);
    }
  }

  /** A step that keeps the counters ordered keeps them ordered over any
      number of ticks. */
  lemma {:induction false} TicksOrdered(next: (BuilderState, int) --> (Tick, BuilderState), st: BuilderState, step: nat, start: int, n: nat)
    requires forall s, t :: next.requires(s, t)
    requires forall s, t :: CountsOrdered(s) ==> CountsOrdered(next(s, t).1)
    requires CountsOrdered(st)
    ensures CountsOrdered(Ticks(next, st, step, start, n).1)
    decreases n
  {
    if n > 0 {
      TicksOrdered(next, next(st, start).1, step, start + step, n - 1);
    }
  }

  /** Building a measure keeps the counters ordered. */
  lemma MeasureOrdered(c: StepBuilderConfig, st: BuilderState, step: nat, notes: seq<TimedNote>, start: int, n: nat)
    requires AllWellFormed(notes) && CountsOrdered(st)
    ensures CountsOrdered(MeasureFrom(c, st, step, notes, start, n).1)
  {
    var next := Stepper(c, notes);
    forall s, t | CountsOrdered(s) ensures CountsOrdered(next(s, t).1) {
      StepOrdered(c, s, notes, t);
    }
    TicksOrdered(next, st, step, start, n);
  }

  /** So does building one measure of the chart. */
  lemma MeasureAtOrdered(c: StepBuilderConfig, st: BuilderState, notes: seq<TimedNote>, i: int)
    requires AllWellFormed(notes) && CountsOrdered(st)
    ensures MeasureAt(c, st, notes, i).Success? ==> CountsOrdered(MeasureAt(c, st, notes, i).value.1)
  {
    var ns := NotesOfMeasure(notes, i);
    if |ns| > 0 {
      var d := ResolutionOf(Offsets(ns));
      if d in PossibleBeatsPerMeasure {
        TableGridsExact();
        MeasureOrdered(c, st, Spacing(d), ns, i * 384, d);
      }
    }
  }

  /** And building all of its measures. */
  lemma {:induction false} MeasuresOrdered(c: StepBuilderConfig, st: BuilderState, notes: seq<TimedNote>, count: nat, i: nat)
    requires AllWellFormed(notes) && CountsOrdered(st) && i <= count
    ensures MeasuresFrom(c, st, notes, count, i).Success? ==> CountsOrdered(MeasuresFrom(c, st, notes, count, i).value.1)
    decreases count - i
  {
    if i < count {
      var m := MeasureAt(c, st, notes, i);
      if m.Success? {
        MeasureAtOrdered(c, st, notes, i);
        MeasuresOrdered(c, m.value.1, notes, count, i + 1);
      }
    }
  }

  /** A step that makes ticks of four cells makes only such ticks. */
  lemma {:induction false} TicksWide(next: (BuilderState, int) --> (Tick, BuilderState), st: BuilderState, step: nat, start: int, n: nat)
    requires forall s, t :: next.requires(s, t) && |next(s, t).0| == 4
    ensures forall i :: 0 <= i < n ==> |Ticks(next, st, step, start, n).0[i]| == 4
    decreases n
  {
    if n > 0 {
      var first := next(st, start);
      var rest := Ticks(next, first.1, step, start + step, n - 1);
      TicksWide(next, first.1, step, start + step, n - 1);
      assert Ticks(next, st, step, start, n).0 == [first.0] + rest.0;
    }
  }

  /** Every tick of a measure has four cells. */
  lemma MeasureTicks(c: StepBuilderConfig, st: BuilderState, step: nat, notes: seq<TimedNote>, start: int, n: nat)
    requires AllWellFormed(notes)
    ensures forall i :: 0 <= i < n ==> |MeasureFrom(c, st, step, notes, start, n).0[i]| == 4
  {
    TicksWide(Stepper(c, notes), st, step, start, n);
  }

  /** The cells of a built tick: a cell is empty exactly when no lane was
      placed on it and no bomb fell on it; a tap is only where a lane was
      placed, and every placed lane is a tap when no bomb fell on a tap; a
      bomb on a cell without a tap leaves a mine. */
  lemma TickCellsMeaning(c: StepBuilderConfig, st: BuilderState, notes: seq<TimedNote>, j: nat)
    requires |notes| > 0 && AllWellFormed(notes) && j < 4
    ensures var t := BuildNotesSpec(c, st, notes).0;
      var placed := Placed(c, st, notes).locations;
      var bombs := BombLanes(notes);
      (t[j] == Empty <==> j !in placed && j !in bombs) &&
      (t[j] == Tap ==> j in placed) &&
      (j in placed && BombsOnTaps(TapCells(placed), bombs) == 0 ==> t[j] == Tap) &&
      (j in bombs && j !in placed ==> t[j] == Mine)
  {
    var placed := Placed(c, st, notes).locations;
    LayBombsCells(TapCells(placed), BombLanes(notes), j);
  }

  /** After a tick the foot is cleared by a jump, and otherwise is the foot
      the placement left. */
  lemma TickFoot(c: StepBuilderConfig, st: BuilderState, notes: seq<TimedNote>)
    requires |notes| > 0 && AllWellFormed(notes)
    ensures var p := Placed(c, st, notes);
      BuildNotesSpec(c, st, notes).1.foot == (if |p.locations| > 1 then NoFoot else p.foot)
    ensures BuildNotesSpec(c, st, notes).1.previousNote == st.previousNote
    ensures BuildNotesSpec(c, st, notes).1.previousTime == st.previousTime
  {
  }

  /** The shape of one measure of the chart: four empty ticks for a measure
      without notes, otherwise as many ticks as its resolution, which has a
      grid. */
  predicate MeasureShaped(m: Measure, ns: seq<TimedNote>)
  {
    (|ns| == 0 ==> m == [EmptyTick, EmptyTick, EmptyTick, EmptyTick]) &&
    (|ns| > 0 ==> |m| == ResolutionOf(Offsets(ns)) && ResolutionOf(Offsets(ns)) in PossibleBeatsPerMeasure)
  }

  lemma MeasureAtShape(c: StepBuilderConfig, st: BuilderState, notes: seq<TimedNote>, i: int)
    requires AllWellFormed(notes) && MeasureAt(c, st, notes, i).Success?
    ensures MeasureShaped(MeasureAt(c, st, notes, i).value.0, NotesOfMeasure(notes, i))
  {
  }

  /** Every measure of `ms`, the `k - i`-th holding the notes of measure
      `k`, has its shape. */
  predicate AllShaped(ms: seq<Measure>, notes: seq<TimedNote>, i: int)
  {
    forall k :: i <= k < i + |ms| ==> MeasureShaped(ms[k - i], NotesOfMeasure(notes, k))
  }

  lemma ConsShaped(all: seq<Measure>, x: Measure, rest: seq<Measure>, notes: seq<TimedNote>, i: int)
    requires all == [x] + rest
    requires MeasureShaped(x, NotesOfMeasure(notes, i)) && AllShaped(rest, notes, i + 1)
    ensures AllShaped(all, notes, i)
  {
    forall k | i <= k < i + |all|
      ensures MeasureShaped(all[k - i], NotesOfMeasure(notes, k))
    {
      if k > i {
        assert all[k - i] == rest[k - (i + 1)];
      }
    }
  }

  /** One step of `MeasuresFrom`: its first measure is `MeasureAt`'s, and
      the rest are the measures built from the state after it. */
  lemma MeasuresHead(c: StepBuilderConfig, st: BuilderState, notes: seq<TimedNote>, count: nat, i: nat)
    requires AllWellFormed(notes) && i < count
    requires MeasuresFrom(c, st, notes, count, i).Success?
    ensures MeasureAt(c, st, notes, i).Success?
    ensures var rest := MeasuresFrom(c, MeasureAt(c, st, notes, i).value.1, notes, count, i + 1);
      rest.Success? &&
      MeasuresFrom(c, st, notes, count, i).value.0 == [MeasureAt(c, st, notes, i).value.0] + rest.value.0
  {
  }

  /** The chart's measures: one per index from `i` on; an index without
      notes gives four empty ticks; any other gives as many ticks as its
      resolution, which has a grid. */
  lemma {:induction false} MeasuresShape(c: StepBuilderConfig, st: BuilderState, notes: seq<TimedNote>, count: nat, i: nat)
    requires AllWellFormed(notes) && i <= count
    requires MeasuresFrom(c, st, notes, count, i).Success?
    ensures AllShaped(MeasuresFrom(c, st, notes, count, i).value.0, notes, i)
    decreases count - i
  {
    if i < count {
      MeasuresHead(c, st, notes, count, i);
      var m := MeasureAt(c, st, notes, i);
      var rest := MeasuresFrom(c, m.value.1, notes, count, i + 1);
      MeasuresShape(c, m.value.1, notes, count, i + 1);
      MeasureAtShape(c, st, notes, i);
      ConsShaped(MeasuresFrom(c, st, notes, count, i).value.0, m.value.0, rest.value.0, notes, i);
    }
  }
}
