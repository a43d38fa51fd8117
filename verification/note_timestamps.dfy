/**
  `getNoteTimestamps`: the second at which each sounding tick of a chart
  plays, for the preview's metronome. Every non-empty measure lasts four
  beats, its ticks share them evenly, and a tick sounds when one of its
  cells is a tap. Seconds are exact `real`s.
 */
module NoteTimestamps {
  import opened StepTypes

  /** `SOUND_DELAY_COMPENSATION`: each stamp is 50 ms early. */
  const SoundDelay: real := 0.05

  /** `note.some(...)`: a tick sounds when some cell is neither '0' nor
      'M', that is a tap. */
  predicate Sounds(t: Tick)
    ensures Sounds(t) <==> Tap in t
  {
    |t| > 0 && (t[0] == Tap || Sounds(t[1..]))
  }

  /** The number of sounding ticks. */
  function Sounding(ticks: seq<Tick>): (n: nat)
    ensures n <= |ticks|
  {
    if |ticks| == 0 then 0
    else (if Sounds(ticks[0]) then 1 else 0) + Sounding(ticks[1..])
  }

  /** The stamps of a measure's ticks, the first tick starting at `time`
      and each lasting `step`. */
  function TickStamps(ticks: seq<Tick>, time: real, step: real): (r: seq<real>)
    ensures |r| == Sounding(ticks)
  {
    if |ticks| == 0 then []
    else (if Sounds(ticks[0]) then [time - SoundDelay] else []) + TickStamps(ticks[1..], time + step, step)
  }

  /** The length of one tick of a measure of `len` ticks. */
  function TickLength(secondsPerBeat: real, len: nat): real
    requires len > 0
  {
    secondsPerBeat * 4.0 / len as real
  }

  /** The start of tick `k` of ticks lasting `step` from `time`: `step`
      added `k` times, as the loop adds it. */
  function Advance(time: real, step: real, k: nat): real
    decreases k
  {
    if k == 0 then time else Advance(time + step, step, k - 1)
  }

  /** `k` steps of `step` are `k * step`. */
  lemma {:induction false} AdvanceIsProduct(time: real, step: real, k: nat)
    ensures Advance(time, step, k) == time + k as real * step
    decreases k
  {
    if k > 0 {
      AdvanceIsProduct(time + step, step, k - 1);
      assert (k - 1) as real * step + step == k as real * step;
    }
  }

  /** The ticks of a measure add up to four beats. */
  lemma WholeMeasure(time: real, secondsPerBeat: real, len: nat)
    requires len > 0
    ensures Advance(time, TickLength(secondsPerBeat, len), len) == time + 4.0 * secondsPerBeat
  {
    AdvanceIsProduct(time, TickLength(secondsPerBeat, len), len);
    assert len as real * TickLength(secondsPerBeat, len) == 4.0 * secondsPerBeat;
  }

  /** The number of measures that are not empty. */
  function NonEmpty(ms: seq<Measure>): (n: nat)
    ensures n <= |ms|
  {
    if |ms| == 0 then 0
    else (if |ms[0]| == 0 then 0 else 1) + NonEmpty(ms[1..])
  }

  /** The number of sounding ticks of all measures. */
  function TotalSounding(ms: seq<Measure>): nat
  {
    if |ms| == 0 then 0
    else Sounding(ms[0]) + TotalSounding(ms[1..])
  }

  /** The stamps of all measures, the first starting at `time`; a non-empty
      measure lasts four beats, an empty one adds no stamp and takes no
      time. */
  function MeasureStamps(ms: seq<Measure>, time: real, secondsPerBeat: real): (r: seq<real>)
    ensures |r| == TotalSounding(ms)
  {
    if |ms| == 0 then []
    else MeasureHead(ms[0], time, secondsPerBeat) + MeasureStamps(ms[1..], NextStart(ms[0], time, secondsPerBeat), secondsPerBeat)
  }

  /** The stamps of one measure starting at `time`: none for an empty one. */
  function MeasureHead(m: Measure, time: real, secondsPerBeat: real): (r: seq<real>)
    ensures |r| == Sounding(m)
  {
    if |m| == 0 then [] else TickStamps(m, time, TickLength(secondsPerBeat, |m|))
  }

  /** The start of the measure after `m`: four beats on, or `time` itself
      after an empty measure. */
  function NextStart(m: Measure, time: real, secondsPerBeat: real): real
  {
    if |m| == 0 then time else time + 4.0 * secondsPerBeat
  }

  /** The stamps of a chart at `bpm` beats per minute, starting at
      `-offset`. */
  function Timestamps(measures: seq<Measure>, bpm: real, offset: real): (r: seq<real>)
    requires bpm != 0.0
    ensures |r| == TotalSounding(measures)
  {
    MeasureStamps(measures, -offset, 60.0 / bpm)
  }

  /** `getNoteTimestamps`. */
  method GetNoteTimestamps(measures: seq<Measure>, bpm: real, offset: real) returns (noteTimestamps: seq<real>)
    requires bpm != 0.0
    ensures noteTimestamps == Timestamps(measures, bpm, offset)
  {
    noteTimestamps := [];
    var currentTime := -offset;
    var secondsPerBeat := 60.0 / bpm;
    var i := 0;
    ghost var all := Timestamps(measures, bpm, offset);
    while i < |measures|
      invariant 0 <= i <= |measures|
      invariant noteTimestamps + MeasureStamps(measures[i..], currentTime, secondsPerBeat) == all
    {
      var measure := measures[i];
      if |measure| > 0 {
        var secondsPerNote := TickLength(secondsPerBeat, |measure|);
        ghost var before := noteTimestamps;
        ghost var start := currentTime;
        noteTimestamps, currentTime := StampMeasure(measure, secondsPerNote, noteTimestamps, currentTime);
        NextMeasure(measures, i, start, secondsPerBeat, before, all, currentTime);
      } else {
        SkipMeasure(measures, i, currentTime, secondsPerBeat);
      }
      i := i + 1;
    }
    assert measures[i..] == [];
  }

  /** The outer loop's step over a non-empty measure: the stamps so far,
      with those of measure `i` appended and the time moved four beats on,
      still lead to all the stamps. */
  lemma NextMeasure(ms: seq<Measure>, i: nat, time: real, secondsPerBeat: real, before: seq<real>, all: seq<real>, next: real)
    requires i < |ms| && |ms[i]| > 0
    requires before + MeasureStamps(ms[i..], time, secondsPerBeat) == all
    requires next == Advance(time, TickLength(secondsPerBeat, |ms[i]|), |ms[i]|)
    ensures (before + TickStamps(ms[i], time, TickLength(secondsPerBeat, |ms[i]|))) +
      MeasureStamps(ms[i + 1..], next, secondsPerBeat) == all
  {
    WholeMeasure(time, secondsPerBeat, |ms[i]|);
    assert next == NextStart(ms[i], time, secondsPerBeat);
    assert ms[i..][0] == ms[i] && ms[i..][1..] == ms[i + 1..];
    var here := MeasureHead(ms[i], time, secondsPerBeat);
    var later := MeasureStamps(ms[i + 1..], next, secondsPerBeat);
    assert MeasureStamps(ms[i..], time, secondsPerBeat) == here + later;
    assert before + (here + later) == (before + here) + later;
  }

  /** An empty measure: no stamps and no time. */
  lemma SkipMeasure(ms: seq<Measure>, i: nat, time: real, secondsPerBeat: real)
    requires i < |ms| && |ms[i]| == 0
    ensures MeasureStamps(ms[i + 1..], time, secondsPerBeat) == MeasureStamps(ms[i..], time, secondsPerBeat)
  {
    assert ms[i..][1..] == ms[i + 1..];
  }

  /** The inner loop of `getNoteTimestamps` over the ticks of a measure:
      it appends their stamps and moves the time on by one tick each. */
  method StampMeasure(measure: Measure, secondsPerNote: real, stamps: seq<real>, time: real)
    returns (noteTimestamps: seq<real>, currentTime: real)
    ensures noteTimestamps == stamps + TickStamps(measure, time, secondsPerNote)
    ensures currentTime == Advance(time, secondsPerNote, |measure|)
  {
    noteTimestamps := stamps;
    currentTime := time;
    var j := 0;
    while j < |measure|
      invariant 0 <= j <= |measure|
      invariant currentTime == Advance(time, secondsPerNote, j)
      invariant noteTimestamps + TickStamps(measure[j..], currentTime, secondsPerNote) ==
                stamps + TickStamps(measure, time, secondsPerNote)
    {
      StampStep(measure, j, currentTime, secondsPerNote, noteTimestamps, stamps + TickStamps(measure, time, secondsPerNote));
      if Sounds(measure[j]) {
        noteTimestamps := noteTimestamps + [currentTime - SoundDelay];
      }
      AdvanceStep(time, secondsPerNote, j);
      currentTime := currentTime + secondsPerNote;
      j := j + 1;
    }
    assert measure[j..] == [];
  }

  /** The stamps from tick `j` on: tick `j`'s, then the rest's one step
      later. */
  lemma TickStampsFrom(ticks: seq<Tick>, j: nat, time: real, step: real)
    requires j < |ticks|
    ensures TickStamps(ticks[j..], time, step) ==
      (if Sounds(ticks[j]) then [time - SoundDelay] else []) + TickStamps(ticks[j + 1..], time + step, step)
  {
    assert ticks[j..][1..] == ticks[j + 1..];
  }

  /** The inner loop's step: tick `j`'s stamp, if it sounds, moves from the
      stamps still to come to those appended. */
  lemma StampStep(ticks: seq<Tick>, j: nat, time: real, step: real, done: seq<real>, all: seq<real>)
    requires j < |ticks|
    requires done + TickStamps(ticks[j..], time, step) == all
    ensures (done + (if Sounds(ticks[j]) then [time - SoundDelay] else [])) +
      TickStamps(ticks[j + 1..], time + step, step) == all
  {
    TickStampsFrom(ticks, j, time, step);
    var head: seq<real> := if Sounds(ticks[j]) then [time - SoundDelay] else [];
    var rest := TickStamps(ticks[j + 1..], time + step, step);
    assert done + (head + rest) == (done + head) + rest;
  }

  /** One more step adds `step`. */
  lemma {:induction false} AdvanceStep(time: real, step: real, k: nat)
    ensures Advance(time, step, k + 1) == Advance(time, step, k) + step
    decreases k
  {
    if k > 0 {
      AdvanceStep(time + step, step, k - 1);
    }
  }

  // ---------------------------------------------------------------------
  // Where each stamp comes from

  /** The `j`-th element of `b` is element `|a| + j` of `a + b`. */
  lemma ConcatAt<T>(a: seq<T>, b: seq<T>, j: nat)
    requires j < |b|
    ensures |a| + j < |a + b| && (a + b)[|a| + j] == b[j]
  {
  }

  /** A non-empty prefix is its first element and a prefix of the tail. */
  lemma PrefixTail<T>(s: seq<T>, i: nat)
    requires 0 < i <= |s|
    ensures s[..i][0] == s[0] && s[..i][1..] == s[1..][..i - 1]
  {
  }

  /** The stamp of the `k`-th tick, when it sounds, is its start less the
      delay, and as many stamps precede it as sounding ticks precede it. */
  lemma {:induction false} TickStampAt(ticks: seq<Tick>, k: nat, time: real, step: real)
    requires k < |ticks| && Sounds(ticks[k])
    ensures var r := TickStamps(ticks, time, step);
      Sounding(ticks[..k]) < |r| && r[Sounding(ticks[..k])] == Advance(time, step, k) - SoundDelay
  {
    if k > 0 {
      var head: seq<real> := if Sounds(ticks[0]) then [time - SoundDelay] else [];
      var rest := TickStamps(ticks[1..], time + step, step);
      TickStampAt(ticks[1..], k - 1, time + step, step);
      PrefixTail(ticks, k);
      assert Sounding(ticks[..k]) == |head| + Sounding(ticks[1..][..k - 1]);
      assert TickStamps(ticks, time, step) == head + rest;
      ConcatAt(head, rest, Sounding(ticks[1..][..k - 1]));
    }
  }

  /** The start of the measure after `ms`: four beats per non-empty
      measure after `time`. */
  function MeasureTime(ms: seq<Measure>, time: real, secondsPerBeat: real): real
  {
    if |ms| == 0 then time
    else MeasureTime(ms[1..], NextStart(ms[0], time, secondsPerBeat), secondsPerBeat)
  }

  /** Each non-empty measure adds four beats. */
  lemma {:induction false} MeasureTimeIsProduct(ms: seq<Measure>, time: real, secondsPerBeat: real)
    ensures MeasureTime(ms, time, secondsPerBeat) == time + 4.0 * secondsPerBeat * NonEmpty(ms) as real
  {
    if |ms| > 0 {
      var next := NextStart(ms[0], time, secondsPerBeat);
      MeasureTimeIsProduct(ms[1..], next, secondsPerBeat);
      var n := NonEmpty(ms[1..]);
      assert 4.0 * secondsPerBeat * (n + 1) as real == 4.0 * secondsPerBeat + 4.0 * secondsPerBeat * n as real;
    }
  }

  /** The stamps of measure `i` stand in the stamps of all measures after
      those of the measures before it, and start where those end. */
  lemma {:induction false} MeasureStampsAt(ms: seq<Measure>, i: nat, j: nat, time: real, secondsPerBeat: real)
    requires i < |ms| && j < Sounding(ms[i])
    ensures var r := MeasureStamps(ms, time, secondsPerBeat);
      TotalSounding(ms[..i]) + j < |r| &&
      r[TotalSounding(ms[..i]) + j] == MeasureHead(ms[i], MeasureTime(ms[..i], time, secondsPerBeat), secondsPerBeat)[j]
  {
    var next := NextStart(ms[0], time, secondsPerBeat);
    var head := MeasureHead(ms[0], time, secondsPerBeat);
    var rest := MeasureStamps(ms[1..], next, secondsPerBeat);
    assert MeasureStamps(ms, time, secondsPerBeat) == head + rest;
    if i == 0 {
      assert ms[..0] == [];
    } else {
      var tail := ms[1..];
      assert tail[i - 1] == ms[i];
      MeasureStampsAt(tail, i - 1, j, next, secondsPerBeat);
      PrefixTail(ms, i);
      var before := TotalSounding(tail[..i - 1]);
      var start := MeasureTime(tail[..i - 1], next, secondsPerBeat);
      assert TotalSounding(ms[..i]) == |head| + before;
      assert MeasureTime(ms[..i], time, secondsPerBeat) == start;
      assert rest[before + j] == MeasureHead(ms[i], start, secondsPerBeat)[j];
      ConcatAt(head, rest, before + j);
    }
  }

  /** The stamp of tick `k` of measure `i`, when it sounds: the start of the
      measure plus `k` of its ticks, less the delay; it follows the stamps
      of every sounding tick before it. */
  lemma MeasureStampAt(ms: seq<Measure>, i: nat, k: nat, time: real, secondsPerBeat: real)
    requires i < |ms| && k < |ms[i]| && Sounds(ms[i][k])
    ensures var r := MeasureStamps(ms, time, secondsPerBeat);
      var index := TotalSounding(ms[..i]) + Sounding(ms[i][..k]);
      index < |r| &&
      r[index] == Advance(MeasureTime(ms[..i], time, secondsPerBeat), TickLength(secondsPerBeat, |ms[i]|), k) - SoundDelay
  {
    var start := MeasureTime(ms[..i], time, secondsPerBeat);
    TickStampAt(ms[i], k, start, TickLength(secondsPerBeat, |ms[i]|));
    assert MeasureHead(ms[i], start, secondsPerBeat) == TickStamps(ms[i], start, TickLength(secondsPerBeat, |ms[i]|));
    MeasureStampsAt(ms, i, Sounding(ms[i][..k]), time, secondsPerBeat);
  }

  /** When the first tick of the first measure sounds, the first stamp is
      `-offset` less the delay. */
  lemma FirstStamp(measures: seq<Measure>, bpm: real, offset: real)
    requires bpm != 0.0
    requires |measures| > 0 && |measures[0]| > 0 && Sounds(measures[0][0])
    ensures |Timestamps(measures, bpm, offset)| > 0 && Timestamps(measures, bpm, offset)[0] == -offset - SoundDelay
  {
  }

  // ---------------------------------------------------------------------
  // Order

  predicate Increasing(s: seq<real>)
  {
    forall i, j :: 0 <= i < j < |s| ==> s[i] < s[j]
  }

  lemma IncreasingConcat(a: seq<real>, b: seq<real>)
    requires Increasing(a) && Increasing(b)
    requires forall i, j :: 0 <= i < |a| && 0 <= j < |b| ==> a[i] < b[j]
    ensures Increasing(a + b)
  {
  }

  /** Steps of a positive length move forward. */
  lemma {:induction false} AdvanceMoves(time: real, step: real, k: nat)
    decreases k
    requires step > 0.0 && k > 0
    ensures Advance(time, step, k) > time
  {
    if k > 1 {
      AdvanceMoves(time + step, step, k - 1);
    }
  }

  /** With a positive tick length a measure's stamps increase and lie at or
      after its start and before its end, less the delay. */
  lemma {:induction false} TickStampsIncreasing(ticks: seq<Tick>, time: real, step: real)
    requires step > 0.0
    ensures var r := TickStamps(ticks, time, step);
      Increasing(r) &&
      forall i :: 0 <= i < |r| ==> time - SoundDelay <= r[i] < Advance(time, step, |ticks|) - SoundDelay
  {
    if |ticks| > 0 {
      TickStampsIncreasing(ticks[1..], time + step, step);
      AdvanceMoves(time, step, |ticks|);
      var head: seq<real> := if Sounds(ticks[0]) then [time - SoundDelay] else [];
      IncreasingConcat(head, TickStamps(ticks[1..], time + step, step));
    }
  }

  /** With a positive beat length the stamps of all measures increase and
      none comes before the start, less the delay. */
  lemma {:induction false} MeasureStampsIncreasing(ms: seq<Measure>, time: real, secondsPerBeat: real)
    requires secondsPerBeat > 0.0
    ensures var r := MeasureStamps(ms, time, secondsPerBeat);
      Increasing(r) && forall i :: 0 <= i < |r| ==> time - SoundDelay <= r[i]
  {
    if |ms| > 0 {
      var next := NextStart(ms[0], time, secondsPerBeat);
      MeasureStampsIncreasing(ms[1..], next, secondsPerBeat);
      MeasureHeadIncreasing(ms[0], time, secondsPerBeat);
      StampsJoin(MeasureHead(ms[0], time, secondsPerBeat), MeasureStamps(ms[1..], next, secondsPerBeat), time, next);
    }
  }

  /** A measure's own stamps increase, and lie at or after its start and
      before the next measure's start, less the delay. */
  lemma MeasureHeadIncreasing(m: Measure, time: real, secondsPerBeat: real)
    requires secondsPerBeat > 0.0
    ensures var r := MeasureHead(m, time, secondsPerBeat);
      Increasing(r) &&
      time <= NextStart(m, time, secondsPerBeat) &&
      forall i :: 0 <= i < |r| ==> time - SoundDelay <= r[i] < NextStart(m, time, secondsPerBeat) - SoundDelay
  {
    if |m| > 0 {
      TickStampsIncreasing(m, time, TickLength(secondsPerBeat, |m|));
      WholeMeasure(time, secondsPerBeat, |m|);
    }
  }

  /** Increasing stamps before `next` followed by increasing stamps from
      `next` on are increasing. */
  lemma StampsJoin(head: seq<real>, rest: seq<real>, time: real, next: real)
    requires time <= next
    requires Increasing(head) && forall i :: 0 <= i < |head| ==> time - SoundDelay <= head[i] < next - SoundDelay
    requires Increasing(rest) && forall i :: 0 <= i < |rest| ==> next - SoundDelay <= rest[i]
    ensures Increasing(head + rest) && forall i :: 0 <= i < |head + rest| ==> time - SoundDelay <= (head + rest)[i]
  {
    IncreasingConcat(head, rest);
    forall i | 0 <= i < |head + rest|
      ensures time - SoundDelay <= (head + rest)[i]
    {
      if i >= |head| {
        assert (head + rest)[i] == rest[i - |head|];
      }
    }
  }

  /** For a positive bpm the stamps strictly increase. */
  lemma TimestampsIncreasing(measures: seq<Measure>, bpm: real, offset: real)
    requires bpm > 0.0
    ensures Increasing(Timestamps(measures, bpm, offset))
  {
    MeasureStampsIncreasing(measures, -offset, 60.0 / bpm);
  }

  // ---------------------------------------------------------------------
  // Empty measures

  /** The measures that are not empty, in order. */
  function Filled(ms: seq<Measure>): (r: seq<Measure>)
    ensures |r| == NonEmpty(ms)
  {
    if |ms| == 0 then []
    else (if |ms[0]| == 0 then [] else [ms[0]]) + Filled(ms[1..])
  }

  lemma {:induction false} FilledConcat(a: seq<Measure>, b: seq<Measure>)
    ensures Filled(a + b) == Filled(a) + Filled(b)
  {
    if |a| == 0 {
      assert a + b == b;
    } else {
      var head: seq<Measure> := if |a[0]| == 0 then [] else [a[0]];
      FilledConcat(a[1..], b);
      assert (a + b)[0] == a[0];
      assert (a + b)[1..] == a[1..] + b;
      assert Filled(a + b) == head + (Filled(a[1..]) + Filled(b));
      assert Filled(a) == head + Filled(a[1..]);
    }
  }

  /** The stamps depend only on the measures that are not empty: dropping
      the empty ones changes none. */
  lemma {:induction false} MeasureStampsFilled(ms: seq<Measure>, time: real, secondsPerBeat: real)
    ensures MeasureStamps(ms, time, secondsPerBeat) == MeasureStamps(Filled(ms), time, secondsPerBeat)
  {
    if |ms| > 0 {
      var next := NextStart(ms[0], time, secondsPerBeat);
      MeasureStampsFilled(ms[1..], next, secondsPerBeat);
      var rest := MeasureStamps(Filled(ms[1..]), next, secondsPerBeat);
      assert MeasureStamps(ms, time, secondsPerBeat) == MeasureHead(ms[0], time, secondsPerBeat) + rest;
      if |ms[0]| > 0 {
        var f := Filled(ms);
        assert f == [ms[0]] + Filled(ms[1..]);
        assert f[0] == ms[0] && f[1..] == Filled(ms[1..]);
        assert MeasureStamps(f, time, secondsPerBeat) == MeasureHead(ms[0], time, secondsPerBeat) + rest;
      } else {
        assert Filled(ms) == Filled(ms[1..]);
        assert MeasureHead(ms[0], time, secondsPerBeat) == [];
      }
    }
  }

  /** An empty measure adds no stamp and moves no later stamp: the stamps are
      those of the chart without it. */
  lemma EmptyMeasureSkipped(a: seq<Measure>, b: seq<Measure>, time: real, secondsPerBeat: real)
    ensures MeasureStamps(a + [[]] + b, time, secondsPerBeat) == MeasureStamps(a + b, time, secondsPerBeat)
  {
    var empty: seq<Measure> := [[]];
    assert Filled(empty) == Filled(empty[1..]) == [];
    FilledConcat(a + empty, b);
    FilledConcat(a, empty);
    FilledConcat(a, b);
    assert Filled(a + empty) == Filled(a);
    assert Filled(a + empty + b) == Filled(a + b);
    MeasureStampsFilled(a + empty + b, time, secondsPerBeat);
    MeasureStampsFilled(a + b, time, secondsPerBeat);
  }
}
