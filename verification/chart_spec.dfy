/**
  The chart-level steps of `StepBuilder`: the additional offset, converted
  from seconds to beats and added to every note before building, and the
  meter computed from the counters once the chart is built.
 */
module ChartSpec {
  import opened Wrappers
  import opened MapTypes
  import opened StepBuilderSpec

  /** `Number(bpm) || 120`: no number (NaN) or zero gives 120. */
  function BpmOr120(bpm: Option<real>): (b: real)
    ensures b != 0.0
    ensures bpm.Some? && bpm.value != 0.0 ==> b == bpm.value
    ensures bpm.None? || bpm.value == 0.0 ==> b == 120.0
  {
    if bpm.None? || bpm.value == 0.0 then 120.0 else bpm.value
  }

  /** The shift of `applyAdditionalOffset`, in beats: the additional offset
      in seconds (`ITG_OFFSET` when unset) less `ITG_OFFSET`, times
      `bpm / 60` beats per second. */
  function OffsetInBeats(bpm: Option<real>, additionalOffset: Option<real>, itgOffset: real): real
  {
    var offsetSeconds := (if additionalOffset.Some? then additionalOffset.value else itgOffset) - itgOffset;
    offsetSeconds * (BpmOr120(bpm) / 60.0)
  }

  /** The notes move exactly when an additional offset other than
      `ITG_OFFSET` is set. */
  lemma OffsetInBeatsZero(bpm: Option<real>, additionalOffset: Option<real>, itgOffset: real)
    ensures OffsetInBeats(bpm, additionalOffset, itgOffset) == 0.0 <==>
            additionalOffset.None? || additionalOffset.value == itgOffset
  {
    var rate := BpmOr120(bpm) / 60.0;
    assert rate != 0.0;
    var offsetSeconds := (if additionalOffset.Some? then additionalOffset.value else itgOffset) - itgOffset;
    if offsetSeconds != 0.0 {
      assert offsetSeconds * rate != 0.0;
    }
  }

  /** Same note, other time. */
  predicate SameButTime(a: NoteV2, b: NoteV2)
  {
    a.cutDirection == b.cutDirection && a.lineIndex == b.lineIndex &&
    a.lineLayer == b.lineLayer && a.noteType == b.noteType
  }

  /** `applyAdditionalOffset`: every note, in order, moved by `shift` beats. */
  function ShiftNotes(notes: seq<NoteV2>, shift: real): (r: seq<NoteV2>)
    ensures |r| == |notes|
    ensures forall i :: 0 <= i < |notes| ==> SameButTime(r[i], notes[i]) && r[i].time - notes[i].time == shift
  {
    seq(|notes|, i requires 0 <= i < |notes| => notes[i].(time := notes[i].time + shift))
  }

  /** A zero shift leaves the notes as they are. */
  lemma ShiftNotesZero(notes: seq<NoteV2>)
    ensures ShiftNotes(notes, 0.0) == notes
  {
    var r := ShiftNotes(notes, 0.0);
    forall i | 0 <= i < |notes| ensures r[i] == notes[i] {
      assert SameButTime(r[i], notes[i]);
    }
  }

  /** Two shifts are one shift by their sum; so shifting back undoes a shift. */
  lemma ShiftNotesCompose(notes: seq<NoteV2>, a: real, b: real)
    ensures ShiftNotes(ShiftNotes(notes, a), b) == ShiftNotes(notes, a + b)
  {
    var left := ShiftNotes(ShiftNotes(notes, a), b);
    var right := ShiftNotes(notes, a + b);
    forall i | 0 <= i < |notes| ensures left[i] == right[i] {
      assert SameButTime(left[i], ShiftNotes(notes, a)[i]);
      assert SameButTime(right[i], notes[i]);
    }
  }

  /** `mapNotes.slice(-1)[0]?._time`: the time of the last note in the
      list (not the latest time), or nothing for no notes. */
  function LastTime(notes: seq<NoteV2>): (r: Option<real>)
    ensures r.Some? <==> |notes| > 0
    ensures |notes| > 0 ==> r.value == notes[|notes| - 1].time
  {
    if |notes| == 0 then None else Some(notes[|notes| - 1].time)
  }

  /** The note count of `getChartDifficulty`: a jump counts 3, hands 4, a
      tap 1. */
  function WeightedCount(st: BuilderState): (n: nat)
    ensures n >= st.tap
    ensures n == 0 <==> st.tap == 0 && st.jump == 0 && st.hands == 0
  {
    st.jump * 3 + st.hands * 4 + st.tap
  }

  /** The notes per minute: the weighted count over the song length in
      minutes (the last note's time over the bpm), when both are numbers
      and the length is not zero. */
  function NotesPerMinute(lastTime: real, bpm: real, st: BuilderState): real
    requires lastTime != 0.0 && bpm != 0.0
  {
    WeightedCount(st) as real / (lastTime / bpm)
  }

  /** `getChartDifficulty`. `meterOf(x)` stands for
      `Math.round(Math.sqrt(x) / Math.sqrt(300) * 11)` at a positive `x`;
      every case that gives 0 or NaN there ends in the `|| 1`: no last
      note or a last note at time 0, a bpm that is not a number or is 0
      (an infinite length), no notes counted, a negative length (the square
      root of a negative number), or a rounding to 0. */
  function ChartDifficulty(lastTime: Option<real>, bpm: Option<real>, st: BuilderState, meterOf: real -> nat): (meter: nat)
    ensures meter >= 1
    ensures lastTime.None? || lastTime == Some(0.0) || bpm.None? || bpm == Some(0.0) ==> meter == 1
    ensures WeightedCount(st) == 0 ==> meter == 1
    ensures meter > 1 ==>
      lastTime.Some? && bpm.Some? && lastTime.value != 0.0 && bpm.value != 0.0 &&
      NotesPerMinute(lastTime.value, bpm.value, st) > 0.0 &&
      meter == meterOf(NotesPerMinute(lastTime.value, bpm.value, st))
  {
    if lastTime.None? || lastTime.value == 0.0 || bpm.None? || bpm.value == 0.0 then 1
    else
      var notesPerMin := NotesPerMinute(lastTime.value, bpm.value, st);
      if notesPerMin <= 0.0 then 1
      else
        var m := meterOf(notesPerMin);
        if m == 0 then 1 else m
  }

  /** Dividing by a positive length keeps the order of the counts. */
  lemma DivideKeepsOrder(a: real, b: real, len: real)
    requires 0.0 <= a <= b && len > 0.0
    ensures a / len <= b / len
  {
    assert b / len - a / len == (b - a) / len;
  }

  /** A positive quotient of a non-negative number has a positive divisor. */
  lemma PositiveDivisor(a: real, len: real)
    requires a >= 0.0 && len != 0.0 && a / len > 0.0
    ensures len > 0.0
  {
  }

  /** More weighted notes in the same song never lower the meter, for a
      rounding that grows with its argument. */
  lemma DifficultyMonotone(lastTime: Option<real>, bpm: Option<real>, st1: BuilderState, st2: BuilderState, meterOf: real -> nat)
    requires forall x, y :: 0.0 < x <= y ==> meterOf(x) <= meterOf(y)
    requires WeightedCount(st1) <= WeightedCount(st2)
    ensures ChartDifficulty(lastTime, bpm, st1, meterOf) <= ChartDifficulty(lastTime, bpm, st2, meterOf)
  {
    if lastTime.Some? && lastTime.value != 0.0 && bpm.Some? && bpm.value != 0.0 {
      var len := lastTime.value / bpm.value;
      var x := NotesPerMinute(lastTime.value, bpm.value, st1);
      var y := NotesPerMinute(lastTime.value, bpm.value, st2);
      if x > 0.0 {
        PositiveDivisor(WeightedCount(st1) as real, len);
        DivideKeepsOrder(WeightedCount(st1) as real, WeightedCount(st2) as real, len);
        assert x <= y;
      }
    }
  }
}
