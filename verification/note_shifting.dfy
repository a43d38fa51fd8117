/**
  `getShiftTimingDifference`: how many seconds notes move when they are
  shifted by one subdivision of a beat grid, forwards (later, positive) or
  backwards (earlier, negative).
 */
module NoteShifting {
  import opened Wrappers

  datatype Direction = Forward | Backward

  /** The shift in seconds for a grid of `shifting` notes per measure at
      `bpm`. No grid (null, undefined, 0, NaN) or a non-positive one gives
      no shift; an unset direction is forwards. */
  function ShiftTimingDifference(shifting: Option<real>, direction: Option<Direction>, bpm: real): (r: real)
    requires bpm != 0.0
    ensures shifting.None? || shifting.value <= 0.0 ==> r == 0.0
    ensures shifting.Some? && shifting.value > 0.0 ==>
      r * shifting.value * bpm == (if direction == Some(Backward) then -240.0 else 240.0)
  {
    if shifting.None? || shifting.value <= 0.0 then 0.0
    else
      var secondsPerBeat := 60.0 / bpm;
      var beatsPerSubdivision := 4.0 / shifting.value;
      var shiftInSeconds := beatsPerSubdivision * secondsPerBeat;
      if direction == Some(Backward) then -shiftInSeconds else shiftInSeconds
  }

  /** There is a shift exactly when a positive grid is given. */
  lemma NoShiftIffNoGrid(shifting: Option<real>, direction: Option<Direction>, bpm: real)
    requires bpm != 0.0
    ensures ShiftTimingDifference(shifting, direction, bpm) == 0.0 <==> shifting.None? || shifting.value <= 0.0
  {
  }

  /** At a positive tempo the shift is negative exactly when it goes
      backwards, and positive otherwise. */
  lemma ShiftSign(shifting: real, direction: Option<Direction>, bpm: real)
    requires bpm > 0.0 && shifting > 0.0
    ensures ShiftTimingDifference(Some(shifting), direction, bpm) < 0.0 <==> direction == Some(Backward)
    ensures direction != Some(Backward) ==> ShiftTimingDifference(Some(shifting), direction, bpm) > 0.0
  {
    var r := ShiftTimingDifference(Some(shifting), direction, bpm);
    assert r * (shifting * bpm) == (if direction == Some(Backward) then -240.0 else 240.0);
    assert shifting * bpm > 0.0;
  }

  /** Backwards is forwards negated; an unset direction is forwards. */
  lemma BackwardIsNegatedForward(shifting: Option<real>, bpm: real)
    requires bpm != 0.0
    ensures ShiftTimingDifference(shifting, Some(Backward), bpm) == -ShiftTimingDifference(shifting, Some(Forward), bpm)
    ensures ShiftTimingDifference(shifting, None, bpm) == ShiftTimingDifference(shifting, Some(Forward), bpm)
  {
  }

  /** The shift is one tick of a measure of `shifting` ticks: four beats
      over `shifting`, in seconds. */
  lemma ShiftIsOneTick(shifting: real, bpm: real)
    requires bpm != 0.0 && shifting > 0.0
    ensures ShiftTimingDifference(Some(shifting), Some(Forward), bpm) == 4.0 * (60.0 / bpm) / shifting
  {
  }
}
