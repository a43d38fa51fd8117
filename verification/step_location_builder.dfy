/**
  The randomised placement variant: the placement rules of `StepBuilder`,
  reading the previous tick from a lookback buffer of recent ticks, plus a
  bounded search that may replace a single tap by a rule-compliant lane
  that makes the buffer look more random.

  `Math.random()` is a stream of draws in [0, 1) handed in by the caller;
  each call consumes the first draw and hands back the rest. A stream that
  runs dry ends the call with `OutOfDraws`. The floating-point part of the
  randomness score (entropy and spread) is a function `blend` of the
  integer metrics, which are modelled exactly.

  The beat gap is counted in time units of 1/96 beat, as in `StepBuilder`.
 */
module StepLocationBuilder {
  import opened Wrappers
  import opened Strings
  import opened StepConfigurationShared
  import opened StepBuilderTypes
  import Placement

  /** One lookback entry: the cells of a tick ('1' marks a tap) and its
      time. A missing entry or a missing `note` is `note == None`. */
  datatype Entry = Entry(note: Option<seq<string>>, time: real)

  /** The outcome of a call that consumes draws: the lanes chosen and the
      draws left, or a stream that ran out. */
  datatype Outcome = Placed(locations: seq<int>, rest: seq<real>) | OutOfDraws

  /** `previousFoot`, an object the builder updates in place. */
  class FootRef {
    var value: Foot

    constructor(foot: Foot)
      ensures value == foot
    {
      value := foot;
    }
  }

  /** What `Math.random()` returns. */
  predicate Draws(rand: seq<real>)
  {
    forall i :: 0 <= i < |rand| ==> 0.0 <= rand[i] < 1.0
  }

  /** Lanes 0..3. */
  predicate OnLanes(ls: seq<int>)
  {
    forall i :: 0 <= i < |ls| ==> 0 <= ls[i] < 4
  }

  // ---------------------------------------------------------------------
  // randomChoiceExcluding
  // ---------------------------------------------------------------------

  /** `pool.filter(i => i !== x)`. */
  function Without(pool: seq<int>, x: int): (r: seq<int>)
    ensures |r| <= |pool|
    ensures forall y :: y in r <==> y in pool && y != x
    ensures x !in pool ==> r == pool
  {
    if |pool| == 0 then []
    else if pool[0] == x then Without(pool[1..], x)
    else [pool[0]] + Without(pool[1..], x)
  }

  /** The default pool. */
  const LanePool: seq<int> := [0, 1, 2, 3]

  /** The lanes other than `exclude`: three of them for a lane, all four
      for anything else (such as the missing first lane of `[]`). */
  function Choices(exclude: int): (cs: seq<int>)
    ensures 0 <= exclude < 4 ==> |cs| == 3
    ensures !(0 <= exclude < 4) ==> cs == LanePool
    ensures forall y :: y in cs <==> 0 <= y < 4 && y != exclude
  {
    var cs := Without(LanePool, exclude);
    assert forall y :: y in LanePool <==> 0 <= y < 4;
    if 0 <= exclude < 4 then
      assert LanePool == LanePool[..exclude] + [exclude] + LanePool[exclude + 1..];
      WithoutOnce(LanePool[..exclude], exclude, LanePool[exclude + 1..]);
      cs
    else cs
  }

  /** Filtering out a value that occurs once removes one element. */
  lemma {:induction false} WithoutOnce(a: seq<int>, x: int, b: seq<int>)
    requires x !in a && x !in b
    ensures |Without(a + [x] + b, x)| == |a| + |b|
    decreases |a|
  {
    if |a| == 0 {
      assert a + [x] + b == [x] + b;
      assert ([x] + b)[1..] == b;
    } else {
      assert (a + [x] + b)[1..] == a[1..] + [x] + b;
      WithoutOnce(a[1..], x, b);
    }
  }

  /** `Math.floor(d * n)`: an index into a list of `n` choices. */
  function PickIndex(d: real, n: nat): (k: int)
    requires 0.0 <= d < 1.0 && n > 0
    ensures 0 <= k < n
  {
    assert d * n as real < n as real;
    (d * n as real).Floor
  }

  /** `randomChoiceExcluding(exclude)` with the draw `d`: the choice at
      `floor(d * choices.length)`. */
  function RandomChoiceExcluding(exclude: int, d: real): (r: int)
    requires 0.0 <= d < 1.0
    ensures 0 <= r < 4 && r != exclude
  {
    var cs := Choices(exclude);
    var k := PickIndex(d, |cs|);
    assert cs[k] in cs;
    cs[k]
  }

  /** Every other lane is the choice of some draw. */
  lemma EveryOtherLaneReachable(exclude: int, l: int)
    requires 0 <= l < 4 && l != exclude
    ensures exists d :: 0.0 <= d < 1.0 && RandomChoiceExcluding(exclude, d) == l
  {
    var cs := Choices(exclude);
    assert l in cs;
    var k :| 0 <= k < |cs| && cs[k] == l;
    var d := k as real / |cs| as real;
    PickIndexOf(k, |cs|);
    assert RandomChoiceExcluding(exclude, d) == cs[k];
  }

  /** The draw `k / n` picks index `k`. */
  lemma PickIndexOf(k: nat, n: nat)
    requires k < n
    ensures 0.0 <= k as real / n as real < 1.0
    ensures PickIndex(k as real / n as real, n) == k
  {
    var d := k as real / n as real;
    assert d * n as real == k as real;
    assert (k as real).Floor == k;
  }

  // ---------------------------------------------------------------------
  // The integer metrics of calculateRandomnessScore
  // ---------------------------------------------------------------------

  /** The entry holds '1' at `lane`. */
  predicate HasOne(e: Entry, lane: nat)
  {
    e.note.Some? && lane < |e.note.value| && e.note.value[lane] == "1"
  }

  /** How many entries hold '1' at `lane`. */
  function CountLane(buf: seq<Entry>, lane: nat): (n: nat)
    ensures n <= |buf|
  {
    if |buf| == 0 then 0
    else CountLane(buf[..|buf| - 1], lane) + (if HasOne(buf[|buf| - 1], lane) then 1 else 0)
  }

  /** `getCounts`: the '1' count of each of the four lanes. */
  function Counts(buf: seq<Entry>): (counts: seq<nat>)
    ensures |counts| == 4
  {
    [CountLane(buf, 0), CountLane(buf, 1), CountLane(buf, 2), CountLane(buf, 3)]
  }

  /** Counts add up over concatenated buffers. */
  lemma {:induction false} CountLaneConcat(a: seq<Entry>, b: seq<Entry>, lane: nat)
    ensures CountLane(a + b, lane) == CountLane(a, lane) + CountLane(b, lane)
    decreases |b|
  {
    if |b| == 0 {
      assert a + b == a;
    } else {
      assert (a + b)[..|a + b| - 1] == a + b[..|b| - 1];
      CountLaneConcat(a, b[..|b| - 1], lane);
    }
  }

  /** The cells of the entry the search appends: '1' at `lane`, '0' elsewhere. */
  function OneHot(lane: int, time: real): (e: Entry)
    requires 0 <= lane < 4
    ensures e.note.Some? && |e.note.value| == 4
    ensures forall l: nat :: HasOne(e, l) <==> l == lane
  {
    Entry(Some(["0", "0", "0", "0"][lane := "1"]), time)
  }

  /** Appending a one-hot entry counts one more at its lane only. */
  lemma CountsAfterPush(buf: seq<Entry>, lane: int, time: real)
    requires 0 <= lane < 4
    ensures var after := Counts(buf + [OneHot(lane, time)]);
      after[lane] == Counts(buf)[lane] + 1 &&
      forall l :: 0 <= l < 4 && l != lane ==> after[l] == Counts(buf)[l]
  {
    var b := buf + [OneHot(lane, time)];
    assert b[..|b| - 1] == buf;
  }

  /** One more entry adds its '1' cells to the counts. */
  lemma CountLaneNext(buf: seq<Entry>, k: nat)
    requires k < |buf|
    ensures forall j: nat :: CountLane(buf[..k + 1], j) == CountLane(buf[..k], j) + (if HasOne(buf[k], j) then 1 else 0)
  {
    assert buf[..k + 1][..k] == buf[..k];
  }

  /** `getCounts`, with its `counts` array. */
  method GetCounts(buf: seq<Entry>) returns (counts: seq<nat>)
    ensures counts == Counts(buf)
  {
    var a := new nat[4](_ => 0);
    var k := 0;
    while k < |buf|
      invariant 0 <= k <= |buf|
      invariant forall j :: 0 <= j < 4 ==> a[j] == CountLane(buf[..k], j)
    {
      var entry := buf[k];
      CountLaneNext(buf, k);
      if entry.note.Some? {
        for i := 0 to 4
          invariant forall j :: 0 <= j < i ==> a[j] == CountLane(buf[..k + 1], j)
          invariant forall j :: i <= j < 4 ==> a[j] == CountLane(buf[..k], j)
        {
          if i < |entry.note.value| && entry.note.value[i] == "1" {
            a[i] := a[i] + 1;
          }
        }
      }
      k := k + 1;
    }
    assert buf[..k] == buf;
    counts := a[..];
  }

  /** `entry.note.findIndex(v => v === '1')`: the first '1', or -1 (also
      for an entry without cells). */
  function FirstOne(e: Entry): (i: int)
    ensures -1 <= i
    ensures i >= 0 ==> HasOne(e, i) && forall j: nat :: j < i ==> !HasOne(e, j)
    ensures i == -1 ==> forall j: nat :: !HasOne(e, j)
  {
    if e.note.None? then -1 else OneFrom(e.note.value, 0)
  }

  /** The first index at or after `i` holding '1', or -1. */
  function OneFrom(note: seq<string>, i: nat): (k: int)
    requires i <= |note|
    ensures k == -1 || (i <= k < |note| && note[k] == "1")
    ensures forall j :: i <= j < |note| && (k == -1 || j < k) ==> note[j] != "1"
    decreases |note| - i
  {
    if i == |note| then -1 else if note[i] == "1" then i else OneFrom(note, i + 1)
  }

  /** The variables of `longestStreak`: the lane followed (-1 for `null`),
      the current streak and the longest so far. */
  datatype Streak = Streak(cur: int, streak: nat, best: nat)

  /** One iteration of `longestStreak`. */
  function StreakStep(s: Streak, e: Entry): Streak
  {
    var idx := FirstOne(e);
    if idx == -1 then Streak(-1, 0, s.best)
    else
      var n := if s.cur == idx then s.streak + 1 else 1;
      Streak(idx, n, if n > s.best then n else s.best)
  }

  function StreakOf(buf: seq<Entry>): Streak
  {
    if |buf| == 0 then Streak(-1, 0, 0) else StreakStep(StreakOf(buf[..|buf| - 1]), buf[|buf| - 1])
  }

  /** `longestStreak`. */
  function LongestStreakOf(buf: seq<Entry>): nat
  {
    StreakOf(buf).best
  }

  /** Entries `i` up to `j` (excluded) all have their first '1' at the same lane. */
  predicate Run(buf: seq<Entry>, i: int, j: int)
  {
    0 <= i < j <= |buf| && FirstOne(buf[i]) >= 0 &&
    forall t :: i <= t < j ==> FirstOne(buf[t]) == FirstOne(buf[i])
  }

  /** A run of `len` entries starts at `i`. */
  predicate RunAt(buf: seq<Entry>, i: int, len: int)
  {
    Run(buf, i, i + len)
  }

  /** A run that ends before the last entry is a run of the buffer
      without it, and the other way round. */
  lemma RunInPrefix(buf: seq<Entry>, i: int, j: int)
    requires |buf| > 0 && j < |buf|
    ensures Run(buf[..|buf| - 1], i, j) <==> Run(buf, i, j)
  {
    if 0 <= i < j {
      assert forall t :: i <= t < j ==> buf[..|buf| - 1][t] == buf[t];
    }
  }

  /** What the loop keeps about the current streak: it counts the entries
      of the run ending at the last entry, and the longest streak bounds it. */
  lemma {:induction false} StreakShape(buf: seq<Entry>)
    ensures var s := StreakOf(buf);
      s.streak <= s.best <= |buf| &&
      (s.streak == 0 <==> s.cur == -1) &&
      (s.streak == 0 ==> |buf| == 0 || FirstOne(buf[|buf| - 1]) == -1) &&
      (s.streak > 0 ==> Run(buf, |buf| - s.streak, |buf|) && s.cur == FirstOne(buf[|buf| - 1]))
    decreases |buf|
  {
    if |buf| > 0 {
      var n := |buf|;
      var pre := buf[..n - 1];
      StreakShape(pre);
      var p := StreakOf(pre);
      var s := StreakOf(buf);
      if FirstOne(buf[n - 1]) != -1 && p.cur == FirstOne(buf[n - 1]) {
        RunInPrefix(buf, n - 1 - p.streak, n - 1);
        assert Run(buf, n - s.streak, n);
      }
    }
  }

  /** The current streak is maximal: no run ending at the last entry is
      longer. */
  lemma {:induction false} StreakMaximal(buf: seq<Entry>, i: int)
    requires Run(buf, i, |buf|)
    ensures |buf| - i <= StreakOf(buf).streak
    decreases |buf|
  {
    var n := |buf|;
    var pre := buf[..n - 1];
    StreakShape(pre);
    var idx := FirstOne(buf[n - 1]);
    assert idx == FirstOne(buf[i]) >= 0;
    if i < n - 1 {
      RunInPrefix(buf, i, n - 1);
      StreakMaximal(pre, i);
      assert FirstOne(pre[n - 2]) == idx;
    }
  }

  /** No run is longer than the longest streak. */
  lemma {:induction false} BestBoundsRuns(buf: seq<Entry>, i: int, j: int)
    requires Run(buf, i, j)
    ensures j - i <= StreakOf(buf).best
    decreases |buf|
  {
    var n := |buf|;
    StreakShape(buf);
    if j == n {
      StreakMaximal(buf, i);
    } else {
      RunInPrefix(buf, i, j);
      BestBoundsRuns(buf[..n - 1], i, j);
    }
  }

  /** Some run is as long as the longest streak. */
  lemma {:induction false} BestAttained(buf: seq<Entry>)
    requires StreakOf(buf).best > 0
    ensures exists i :: RunAt(buf, i, StreakOf(buf).best)
    decreases |buf|
  {
    var n := |buf|;
    var pre := buf[..n - 1];
    var s := StreakOf(buf);
    StreakShape(buf);
    if s.best == s.streak {
      assert RunAt(buf, n - s.streak, s.best);
    } else {
      BestAttained(pre);
      var i :| RunAt(pre, i, s.best);
      RunInPrefix(buf, i, i + s.best);
      assert RunAt(buf, i, s.best);
    }
  }

  /** The longest streak is the length of the longest run of entries that
      start on the same lane: no run is longer, one is that long, and it
      is 0 exactly when no entry holds a '1'. */
  lemma LongestStreakMeaning(buf: seq<Entry>)
    ensures LongestStreakOf(buf) <= |buf|
    ensures forall i, j :: Run(buf, i, j) ==> j - i <= LongestStreakOf(buf)
    ensures LongestStreakOf(buf) > 0 ==> exists i :: RunAt(buf, i, LongestStreakOf(buf))
    ensures LongestStreakOf(buf) == 0 <==> forall i :: 0 <= i < |buf| ==> FirstOne(buf[i]) == -1
  {
    StreakShape(buf);
    forall i, j | Run(buf, i, j) ensures j - i <= LongestStreakOf(buf) {
      BestBoundsRuns(buf, i, j);
    }
    forall i | 0 <= i < |buf| && FirstOne(buf[i]) != -1 ensures LongestStreakOf(buf) >= 1 {
      assert Run(buf, i, i + 1);
      BestBoundsRuns(buf, i, i + 1);
    }
    if LongestStreakOf(buf) > 0 {
      BestAttained(buf);
      var i :| RunAt(buf, i, LongestStreakOf(buf));
      assert FirstOne(buf[i]) != -1;
    }
  }

  /** An entry without a '1' ends the streak: the one after starts anew. */
  lemma StreakResets(buf: seq<Entry>, e: Entry, f: Entry)
    requires FirstOne(e) == -1 && FirstOne(f) >= 0
    ensures StreakOf(buf + [e]).streak == 0
    ensures StreakOf(buf + [e, f]).streak == 1
    ensures StreakOf(buf + [e, f]).best == StreakOf(buf).best || StreakOf(buf + [e, f]).best == 1
  {
    assert (buf + [e])[..|buf|] == buf;
    assert (buf + [e, f])[..|buf| + 1] == buf + [e];
  }

  /** `longestStreak`, with its loop over the entries. */
  method LongestStreak(buf: seq<Entry>) returns (maxStreak: nat)
    ensures maxStreak == LongestStreakOf(buf)
  {
    if |buf| == 0 {
      return 0;
    }
    maxStreak := 0;
    var cur := -1;
    var streak := 0;
    var k := 0;
    while k < |buf|
      invariant 0 <= k <= |buf|
      invariant StreakOf(buf[..k]) == Streak(cur, streak, maxStreak)
    {
      var entry := buf[k];
      assert buf[..k + 1][..k] == buf[..k];
      var idx := FirstOne(entry);
      if idx == -1 {
        cur := -1;
        streak := 0;
      } else {
        if cur == idx {
          streak := streak + 1;
        } else {
          cur := idx;
          streak := 1;
        }
        if streak > maxStreak {
          maxStreak := streak;
        }
      }
      k := k + 1;
    }
    assert buf[..k] == buf;
  }

  // ---------------------------------------------------------------------
  // The score and the threshold
  // ---------------------------------------------------------------------

  /** `calculateRandomnessScore`: 1 for a missing buffer or one of fewer than
      10 entries; otherwise the float combination of the lane counts, the
      longest streak and the length, given here as `blend`. */
  function Score(buf: Option<seq<Entry>>, blend: (seq<nat>, nat, nat) -> real): (score: real)
    ensures buf.None? || |buf.value| < 10 ==> score == 1.0
    ensures buf.Some? && |buf.value| >= 10 ==>
      score == blend(Counts(buf.value), LongestStreakOf(buf.value), |buf.value|)
  {
    if buf.None? || |buf.value| < 10 then 1.0
    else blend(Counts(buf.value), LongestStreakOf(buf.value), |buf.value|)
  }

  /** `getRandomnessThreshold`. */
  function RandomnessThreshold(r: RandomnessScore): (t: real)
    ensures 0.0 <= t < 1.0
    ensures t == 0.0 <==> r == NoRandomness
  {
    match r
    case NoRandomness => 0.0
    case Low => 0.3
    case Medium => 0.5
    case High => 0.7
  }

  /** The order of the levels. */
  function Level(r: RandomnessScore): nat
  {
    match r
    case NoRandomness => 0
    case Low => 1
    case Medium => 2
    case High => 3
  }

  /** A higher level asks for a higher score. */
  lemma ThresholdMonotone(r1: RandomnessScore, r2: RandomnessScore)
    requires Level(r1) < Level(r2)
    ensures RandomnessThreshold(r1) < RandomnessThreshold(r2)
  {
  }

  /** `isLookbackBufferRandomEnough(buf, config.randomnessScore || 'none')`.
      A missing or short buffer scores 1, above every threshold, so it is
      random enough at every level; with no level set, any buffer whose
      score is not negative is. */
  predicate RandomEnough(buf: Option<seq<Entry>>, level: Option<RandomnessScore>, blend: (seq<nat>, nat, nat) -> real)
    ensures buf.None? || |buf.value| < 10 ==> RandomEnough(buf, level, blend)
    ensures level.None? && Score(buf, blend) >= 0.0 ==> RandomEnough(buf, level, blend)
  {
    Score(buf, blend) >= RandomnessThreshold(GetOr(level, NoRandomness))
  }

  /** A buffer random enough at a level is random enough at every lower
      level. */
  lemma RandomEnoughLevels(buf: Option<seq<Entry>>, l1: RandomnessScore, l2: RandomnessScore, blend: (seq<nat>, nat, nat) -> real)
    requires Level(l1) <= Level(l2)
    ensures RandomEnough(buf, Some(l2), blend) ==> RandomEnough(buf, Some(l1), blend)
  {
    if Level(l1) < Level(l2) {
      ThresholdMonotone(l1, l2);
    } else {
      assert l1 == l2;
    }
  }

  // ---------------------------------------------------------------------
  // Previous positions and the join comparison
  // ---------------------------------------------------------------------

  /** The indices holding '1', from `i` on. */
  function OnesFrom(note: seq<string>, i: nat): (r: seq<int>)
    requires i <= |note|
    ensures forall k :: 0 <= k < |r| ==> i <= r[k] < |note| && note[r[k]] == "1"
    ensures forall k :: i <= k < |note| && note[k] == "1" ==> k in r
    ensures forall a, b :: 0 <= a < b < |r| ==> r[a] < r[b]
    decreases |note| - i
  {
    if i == |note| then []
    else if note[i] == "1" then [i] + OnesFrom(note, i + 1)
    else OnesFrom(note, i + 1)
  }

  /** The positions of the last entry's '1' cells, in order; none for a
      missing or empty buffer or a last entry without cells. */
  function LastPositions(buf: Option<seq<Entry>>): (prev: seq<int>)
    ensures forall k :: 0 <= k < |prev| ==> prev[k] >= 0
  {
    if buf.None? || |buf.value| == 0 then []
    else
      var last := buf.value[|buf.value| - 1];
      if last.note.None? then [] else OnesFrom(last.note.value, 0)
  }

  /** The `forEach` that collects the previous positions. */
  method PreviousPositionsOf(buf: Option<seq<Entry>>) returns (prev: seq<int>)
    ensures prev == LastPositions(buf)
  {
    prev := [];
    if buf.None? || |buf.value| == 0 {
      return;
    }
    var lastEntry := buf.value[|buf.value| - 1];
    if lastEntry.note.None? {
      return;
    }
    var note := lastEntry.note.value;
    var index := |note|;
    while index > 0
      invariant 0 <= index <= |note|
      invariant prev == OnesFrom(note, index)
    {
      index := index - 1;
      if note[index] == "1" {
        prev := [index] + prev;
      }
    }
  }

  /** `xs.join('')` for non-negative numbers. */
  function JoinNums(xs: seq<int>): (s: string)
    requires forall k :: 0 <= k < |xs| ==> xs[k] >= 0
    ensures |s| >= |xs|
  {
    if |xs| == 0 then "" else NatToString(xs[0]) + JoinNums(xs[1..])
  }

  /** A number has a one-character decimal form exactly below 10. */
  lemma NatToStringShort(n: nat)
    ensures |NatToString(n)| == 1 <==> n < 10
  {
    if n >= 10 {
      assert |NatToString(n / 10)| >= 1;
    }
  }

  /** The digit characters are distinct. */
  lemma DigitCharInjective(a: nat, b: nat)
    requires a < 10 && b < 10 && DigitChar(a) == DigitChar(b)
    ensures a == b
  {
    assert forall i, j :: 0 <= i < j < 10 ==> "0123456789"[i] < "0123456789"[j];
  }

  /** The join of the previous positions equals the join of one lane
      exactly when they are that lane. */
  lemma SameJoinSingle(prev: seq<int>, lane: int)
    requires forall k :: 0 <= k < |prev| ==> prev[k] >= 0
    requires 0 <= lane < 10
    ensures JoinNums(prev) == JoinNums([lane]) <==> prev == [lane]
  {
    JoinOfOne(lane);
    NatToStringShort(lane);
    if |prev| == 1 {
      var x := prev[0];
      JoinOfOne(x);
      assert prev == [x];
      NatToStringShort(x);
      if JoinNums(prev) == JoinNums([lane]) {
        assert x < 10;
        DigitCharInjective(x, lane);
      }
    } else if |prev| >= 2 {
      assert |JoinNums(prev)| >= 2;
    }
  }

  /** The join of one number is its decimal form. */
  lemma JoinOfOne(x: int)
    requires x >= 0
    ensures JoinNums([x]) == NatToString(x)
    ensures x < 10 ==> JoinNums([x]) == [DigitChar(x)]
  {
    assert JoinNums([x]) == NatToString(x) + JoinNums([]);
  }

  /** For lanes below 10 the joins agree exactly when the lanes do. */
  lemma {:induction false} SameJoinDigits(xs: seq<int>, ys: seq<int>)
    requires forall k :: 0 <= k < |xs| ==> 0 <= xs[k] < 10
    requires forall k :: 0 <= k < |ys| ==> 0 <= ys[k] < 10
    ensures JoinNums(xs) == JoinNums(ys) <==> xs == ys
    decreases |xs|
  {
    if |xs| > 0 && |ys| > 0 {
      NatToStringShort(xs[0]);
      NatToStringShort(ys[0]);
      var jx := JoinNums(xs);
      var jy := JoinNums(ys);
      assert jx[0] == DigitChar(xs[0]) && jx[1..] == JoinNums(xs[1..]);
      assert jy[0] == DigitChar(ys[0]) && jy[1..] == JoinNums(ys[1..]);
      SameJoinDigits(xs[1..], ys[1..]);
      if jx == jy {
        DigitCharInjective(xs[0], ys[0]);
        assert xs == [xs[0]] + xs[1..] && ys == [ys[0]] + ys[1..];
      }
    } else if |xs| > 0 {
      assert |JoinNums(xs)| > 0;
    } else if |ys| > 0 {
      assert |JoinNums(ys)| > 0;
    }
  }

  // ---------------------------------------------------------------------
  // calculateNextFoot
  // ---------------------------------------------------------------------

  /** `calculateNextFoot`: the foot after the placed lanes. */
  function NextFoot(prev: seq<int>, final: seq<int>, foot: Foot): (f: Foot)
    requires forall k :: 0 <= k < |prev| ==> prev[k] >= 0
    requires OnLanes(final)
    ensures JoinNums(prev) == JoinNums(final) ==> f == foot
    ensures |final| != 1 ==> f == foot
    ensures JoinNums(prev) != JoinNums(final) && final == [0] ==> f == Left
    ensures JoinNums(prev) != JoinNums(final) && final == [3] ==> f == Right
    ensures JoinNums(prev) != JoinNums(final) && |final| == 1 && final[0] != 0 && final[0] != 3 ==>
      f != foot && f != NoFoot
  {
    if JoinNums(prev) == JoinNums(final) then foot
    else if |final| == 1 then
      if final[0] == 0 then Left
      else if final[0] == 3 then Right
      else if foot == Left then Right
      else Left
    else foot
  }

  /** After a single lane the foot follows the same rule as in `StepBuilder`. */
  lemma NextFootAsStepBuilder(prev: seq<int>, lane: int, foot: Foot)
    requires forall k :: 0 <= k < |prev| ==> prev[k] >= 0
    requires 0 <= lane < 4
    ensures NextFoot(prev, [lane], foot) == Placement.AcceptedFoot(prev, [lane], foot)
  {
    SameJoinSingle(prev, lane);
  }

  // ---------------------------------------------------------------------
  // enforcePlacementRules
  // ---------------------------------------------------------------------

  /** The single-lane branch of `enforcePlacementRules` for the lane `lane`:
      the outcome, and the lane the caller's one-element array holds at the
      end (each re-draw writes it). */
  function SingleRules(c: StepBuilderConfig, prev: seq<int>, lane: int, gap: int, foot: Foot, rand: seq<real>): (r: (Outcome, int))
    requires Draws(rand) && 0 <= lane < 4
    ensures 0 <= r.1 < 4
    ensures r.0.Placed? ==> Draws(r.0.rest) && (r.0.locations == [] || r.0.locations == [r.1])
    decreases |rand|
  {
    if DoubleTap(c, prev, lane, gap) || (!JumpTap(c, prev, gap) && CrossesFoot(c, gap, lane, foot)) then
      if |rand| == 0 then (OutOfDraws, lane)
      else
        SingleRules(c, prev, RandomChoiceExcluding(lane, rand[0]), gap, foot, rand[1..])
    else if JumpTap(c, prev, gap) then (Placed([], rand), lane)
    else (Placed([lane], rand), lane)
  }

  /** `enforcePlacementRules` on the lanes `cur`. */
  function Enforce(c: StepBuilderConfig, prev: seq<int>, cur: seq<int>, gap: int, foot: Foot, rand: seq<real>): (r: Outcome)
    requires Draws(rand) && OnLanes(cur)
    ensures r.Placed? ==> OnLanes(r.locations) && |r.locations| <= |cur| && Draws(r.rest)
    decreases |cur|
  {
    if |cur| == 1 then SingleRules(c, prev, cur[0], gap, foot, rand).0
    else if |cur| >= 2 then
      var capped := CapHands(c, cur);
      if JumpDemoted(c, prev, gap) then Enforce(c, prev, capped[..1], gap, foot, rand)
      else Placed(capped, rand)
    else Placed(cur, rand)
  }

  /** A single lane is dropped exactly after a jump within the jump-then-tap
      gap; a lane it keeps obeys every rule (no double tap, no tap right
      after a jump, no crossover onto the foot used last); a lane that
      already obeys them is kept as it is, without a draw; and the caller's
      array ends up holding the lane kept. */
  lemma {:induction false} SingleRulesMeaning(c: StepBuilderConfig, prev: seq<int>, lane: int, gap: int, foot: Foot, rand: seq<real>)
    requires Draws(rand) && 0 <= lane < 4
    ensures var r := SingleRules(c, prev, lane, gap, foot, rand);
      (r.0.Placed? ==>
        (r.0.locations == [] <==> JumpTap(c, prev, gap)) &&
        (r.0.locations != [] ==> r.0.locations == [r.1] && SingleCompliant(c, prev, r.1, gap, foot))) &&
      (SingleCompliant(c, prev, lane, gap, foot) ==> r == (Placed([lane], rand), lane))
    decreases |rand|
  {
    var r := SingleRules(c, prev, lane, gap, foot, rand);
    if DoubleTap(c, prev, lane, gap) || (!JumpTap(c, prev, gap) && CrossesFoot(c, gap, lane, foot)) {
      if |rand| > 0 {
        SingleRulesMeaning(c, prev, RandomChoiceExcluding(lane, rand[0]), gap, foot, rand[1..]);
      }
    }
  }

  /** The whole rule set: a jump too close to the previous tick is cut to
      its first lane and checked as a single; any other jump is kept, cut
      to two lanes when hands are off; and a single obeys every rule. */
  lemma EnforceMeaning(c: StepBuilderConfig, prev: seq<int>, cur: seq<int>, gap: int, foot: Foot, rand: seq<real>)
    requires Draws(rand) && OnLanes(cur)
    ensures var r := Enforce(c, prev, cur, gap, foot, rand);
      (|cur| == 0 ==> r == Placed([], rand)) &&
      (|cur| >= 2 && !JumpDemoted(c, prev, gap) ==> r == Placed(CapHands(c, cur), rand)) &&
      (|cur| >= 2 && JumpDemoted(c, prev, gap) ==> r == SingleRules(c, prev, cur[0], gap, foot, rand).0) &&
      (r.Placed? && c.hands == Some("false") ==> |r.locations| <= 2) &&
      (r.Placed? && |r.locations| == 1 ==> SingleCompliant(c, prev, r.locations[0], gap, foot))
  {
    var r := Enforce(c, prev, cur, gap, foot, rand);
    if |cur| == 1 {
      SingleRulesMeaning(c, prev, cur[0], gap, foot, rand);
    } else if |cur| >= 2 {
      var capped := CapHands(c, cur);
      if JumpDemoted(c, prev, gap) {
        assert capped[..1] == [cur[0]];
        SingleRulesMeaning(c, prev, cur[0], gap, foot, rand);
      }
    }
  }

  /** The same rules, in the same order, as `getLocationForNotes`: the two
      place the same number of lanes, the same jump lanes, and a single
      lane that needs no move is the same lane; they differ only in which
      lane a moved single ends on (a random one here, the next one there). */
  lemma SameRulesAsStepBuilder(c: StepBuilderConfig, prev: seq<int>, cur: seq<int>, gap: int, foot: Foot, rand: seq<real>)
    requires Draws(rand) && OnLanes(cur)
    requires forall k :: 0 <= k < |prev| ==> prev[k] >= 0
    ensures var r := Enforce(c, prev, cur, gap, foot, rand);
      var p := Placement.Place(c, prev, cur, gap, foot);
      r.Placed? ==>
        |r.locations| == |p.locations| &&
        (|r.locations| != 1 ==> r.locations == p.locations) &&
        (|cur| >= 1 && SingleCompliant(c, prev, cur[0], gap, foot) && (|cur| == 1 || JumpDemoted(c, prev, gap)) ==>
          r.locations == p.locations)
  {
    assert Placement.ValidLanes(cur);
    assert NoLane !in prev;
    var r := Enforce(c, prev, cur, gap, foot, rand);
    EnforceMeaning(c, prev, cur, gap, foot, rand);
    if |cur| == 1 {
      SingleRulesMeaning(c, prev, cur[0], gap, foot, rand);
      Placement.PlaceSingle(c, prev, cur[0], gap, foot);
      assert cur == [cur[0]];
    } else if |cur| >= 2 && JumpDemoted(c, prev, gap) {
      Placement.PlaceJump(c, prev, cur, gap, foot);
      SingleRulesMeaning(c, prev, cur[0], gap, foot, rand);
      Placement.PlaceSingle(c, prev, cur[0], gap, foot);
    } else if |cur| >= 2 {
      Placement.PlaceJump(c, prev, cur, gap, foot);
    }
  }

  /** `enforcePlacementRules`. It reads `previousFoot` and never writes it;
      a single lane is re-drawn in the caller's array itself, while a jump
      works on slices and leaves the caller's array alone. */
  method EnforcePlacementRules(c: StepBuilderConfig, buf: Option<seq<Entry>>, cur: array<int>, gap: int,
                               previousFoot: FootRef, rand: seq<real>) returns (r: Outcome)
    requires Draws(rand) && OnLanes(cur[..])
    modifies cur
    ensures r == Enforce(c, LastPositions(buf), old(cur[..]), gap, previousFoot.value, rand)
    ensures cur.Length == 1 ==> cur[..] == [SingleRules(c, LastPositions(buf), old(cur[0]), gap, previousFoot.value, rand).1]
    ensures cur.Length != 1 ==> cur[..] == old(cur[..])
    decreases |rand|, cur.Length, 1
  {
    var previousPositions := PreviousPositionsOf(buf);
    if cur.Length == 1 {
      r := SingleLane(c, buf, cur, gap, previousFoot, rand, previousPositions);
      assert cur[..] == [cur[0]];
      return;
    } else if cur.Length >= 2 {
      var currentLocations := cur;
      if c.hands == Some("false") {
        currentLocations := new int[2];
        currentLocations[0], currentLocations[1] := cur[0], cur[1];
        assert currentLocations[..] == cur[..2];
      }
      assert currentLocations[..] == CapHands(c, cur[..]);
      if |previousPositions| > 1 && Below(gap, c.minGapForJumps) {
        var first := new int[1];
        first[0] := currentLocations[0];
        assert first[..] == CapHands(c, cur[..])[..1];
        r := EnforcePlacementRules(c, buf, first, gap, previousFoot, rand);
        return;
      } else if |previousPositions| == 1 && Below(gap, c.minGapForTapJumps) {
        var first := new int[1];
        first[0] := currentLocations[0];
        assert first[..] == CapHands(c, cur[..])[..1];
        r := EnforcePlacementRules(c, buf, first, gap, previousFoot, rand);
        return;
      } else {
        return Placed(currentLocations[..], rand);
      }
    }
    return Placed(cur[..], rand);
  }

  /** The `currentLocations.length === 1` branch of `enforcePlacementRules`:
      a double tap, or a crossover onto the foot used last, re-draws the
      lane in place and checks again; a tap right after a jump is dropped. */
  method SingleLane(c: StepBuilderConfig, buf: Option<seq<Entry>>, cur: array<int>, gap: int,
                    previousFoot: FootRef, rand: seq<real>, previousPositions: seq<int>) returns (r: Outcome)
    requires Draws(rand) && cur.Length == 1 && 0 <= cur[0] < 4
    requires previousPositions == LastPositions(buf)
    modifies cur
    ensures (r, cur[0]) == SingleRules(c, previousPositions, old(cur[0]), gap, previousFoot.value, rand)
    decreases |rand|, 1, 0
  {
    var lane := cur[0];
    SameJoinSingle(previousPositions, lane);
    assert cur[..] == [lane];
    if Below(gap, c.minGapForDoubleTap) && JoinNums(previousPositions) == JoinNums(cur[..]) {
      r := Redraw(c, buf, cur, gap, previousFoot, rand, previousPositions);
      return;
    } else if Below(gap, c.minGapForJumpTap) && |previousPositions| > 1 {
      return Placed([], rand);
    } else if c.crossover == Some("false") || Below(gap, c.minGapForCrossovers) {
      var currentFoot := FootOf(lane);
      if previousFoot.value != NoFoot && previousFoot.value == currentFoot {
        r := Redraw(c, buf, cur, gap, previousFoot, rand, previousPositions);
        return;
      }
    }
    return Placed([lane], rand);
  }

  /** A broken rule in the single-lane branch: draw another lane in place
      and put it through the rules again, or run out of draws. */
  method Redraw(c: StepBuilderConfig, buf: Option<seq<Entry>>, cur: array<int>, gap: int,
                previousFoot: FootRef, rand: seq<real>, previousPositions: seq<int>) returns (r: Outcome)
    requires Draws(rand) && cur.Length == 1 && 0 <= cur[0] < 4
    requires previousPositions == LastPositions(buf)
    modifies cur
    ensures |rand| == 0 ==> r == OutOfDraws && cur[0] == old(cur[0])
    ensures |rand| > 0 ==>
      (r, cur[0]) == SingleRules(c, previousPositions, RandomChoiceExcluding(old(cur[0]), rand[0]), gap, previousFoot.value, rand[1..])
    decreases |rand|, 0, 0
  {
    if |rand| == 0 {
      return OutOfDraws;
    }
    assert Draws(rand[1..]);
    var next := RandomChoiceExcluding(cur[0], rand[0]);
    cur[0] := next;
    assert cur[..] == [next];
    r := EnforcePlacementRules(c, buf, cur, gap, previousFoot, rand[1..]);
  }

  // ---------------------------------------------------------------------
  // getRandomChoiceForSingle and stepLocationBuilder
  // ---------------------------------------------------------------------

  /** The buffer the search scores a candidate lane with: a copy of the
      buffer (or an empty one) with the candidate's one-hot entry appended. */
  function Pushed(buf: Option<seq<Entry>>, lane: int, gap: int): (b: seq<Entry>)
    requires 0 <= lane < 4
    ensures |b| == (if buf.Some? then |buf.value| else 0) + 1
  {
    (if buf.Some? then buf.value else []) + [OneHot(lane, gap as real)]
  }

  /** `getRandomChoiceForSingle`: five tries of a random other single lane,
      each put through the placement rules with a copy of the foot; a
      compliant try whose pushed buffer scores strictly higher than the
      best so far replaces the best. It returns the input when the buffer is
      already random enough or no try wins, and otherwise a single lane that
      obeys every rule and whose pushed buffer scores higher than the
      buffer as it is. */
  method GetRandomChoiceForSingle(current: seq<int>, c: StepBuilderConfig, buf: Option<seq<Entry>>, gap: int,
                                  previousFoot: FootRef, blend: (seq<nat>, nat, nat) -> real, rand: seq<real>)
    returns (r: Outcome)
    requires Draws(rand) && OnLanes(current)
    ensures RandomEnough(buf, c.randomnessScore, blend) ==> r == Placed(current, rand)
    ensures r.Placed? ==> Draws(r.rest) && OnLanes(r.locations)
    ensures r.Placed? && r.locations != current ==>
      |r.locations| == 1 &&
      SingleCompliant(c, LastPositions(buf), r.locations[0], gap, previousFoot.value) &&
      Score(Some(Pushed(buf, r.locations[0], gap)), blend) > Score(buf, blend)
  {
    var maxTries := 5;
    var bestLocation := current;
    var bestScore := Score(buf, blend);
    if RandomEnough(buf, c.randomnessScore, blend) {
      return Placed(bestLocation, rand);
    }
    var rnd := rand;
    for i := 0 to maxTries
      invariant Draws(rnd) && OnLanes(bestLocation)
      invariant bestScore >= Score(buf, blend)
      invariant bestLocation != current ==> bestScore > Score(buf, blend)
      invariant bestLocation != current ==>
        |bestLocation| == 1 &&
        SingleCompliant(c, LastPositions(buf), bestLocation[0], gap, previousFoot.value) &&
        bestScore == Score(Some(Pushed(buf, bestLocation[0], gap)), blend)
    {
      if |rnd| == 0 {
        return OutOfDraws;
      }
      var exclude := if |bestLocation| > 0 then bestLocation[0] else NoLane;
      var newLocation := new int[1];
      newLocation[0] := RandomChoiceExcluding(exclude, rnd[0]);
      ghost var lane := newLocation[0];
      var footCopy := new FootRef(previousFoot.value);
      var ruleCompliantLocation := EnforcePlacementRules(c, buf, newLocation, gap, footCopy, rnd[1..]);
      SingleRulesMeaning(c, LastPositions(buf), lane, gap, previousFoot.value, rnd[1..]);
      if ruleCompliantLocation.OutOfDraws? {
        return OutOfDraws;
      }
      rnd := ruleCompliantLocation.rest;
      var locations := ruleCompliantLocation.locations;
      if |locations| > 0 {
        var newLookbackBuffer := Pushed(buf, locations[0], gap);
        var newScore := Score(Some(newLookbackBuffer), blend);
        if newScore > bestScore {
          bestScore := newScore;
          bestLocation := locations;
        }
      }
    }
    return Placed(bestLocation, rnd);
  }

  /** `stepLocationBuilder`: the rule-compliant lanes when the buffer is
      random enough; otherwise the search's choice, which is either those
      lanes or one compliant single lane that raises the buffer's score.
      The foot is then written once, from the lanes finally chosen; a
      single lane is re-drawn in the caller's array, and the buffer is a
      value left as it is. */
  method StepLocationBuilder(c: StepBuilderConfig, buf: Option<seq<Entry>>, cur: array<int>, gap: int,
                             previousFoot: FootRef, blend: (seq<nat>, nat, nat) -> real, rand: seq<real>)
    returns (r: Outcome)
    requires Draws(rand) && OnLanes(cur[..])
    modifies cur, previousFoot
    ensures var compliant := Enforce(c, LastPositions(buf), old(cur[..]), gap, old(previousFoot.value), rand);
      (compliant.OutOfDraws? ==> r.OutOfDraws?) &&
      (compliant.Placed? && RandomEnough(buf, c.randomnessScore, blend) ==> r == compliant) &&
      (compliant.Placed? && !RandomEnough(buf, c.randomnessScore, blend) && r.Placed? ==>
         r.locations == compliant.locations ||
         (|r.locations| == 1 && 0 <= r.locations[0] < 4 &&
          SingleCompliant(c, LastPositions(buf), r.locations[0], gap, old(previousFoot.value)) &&
          Score(Some(Pushed(buf, r.locations[0], gap)), blend) > Score(buf, blend)))
    ensures cur.Length == 1 ==>
      cur[..] == [SingleRules(c, LastPositions(buf), old(cur[0]), gap, old(previousFoot.value), rand).1]
    ensures cur.Length != 1 ==> cur[..] == old(cur[..])
    ensures r.Placed? ==>
      OnLanes(r.locations) &&
      previousFoot.value == NextFoot(LastPositions(buf), r.locations, old(previousFoot.value))
    ensures r.OutOfDraws? ==> previousFoot.value == old(previousFoot.value)
  {
    var ruleCompliantLocations := EnforcePlacementRules(c, buf, cur, gap, previousFoot, rand);
    if ruleCompliantLocations.OutOfDraws? {
      return OutOfDraws;
    }
    var isRandomEnough := RandomEnough(buf, c.randomnessScore, blend);
    var finalLocation := ruleCompliantLocations;
    if !isRandomEnough {
      finalLocation := GetRandomChoiceForSingle(ruleCompliantLocations.locations, c, buf, gap, previousFoot, blend,
                                                ruleCompliantLocations.rest);
      if finalLocation.OutOfDraws? {
        return OutOfDraws;
      }
    }
    var previousPositions := PreviousPositionsOf(buf);
    previousFoot.value := NextFoot(previousPositions, finalLocation.locations, previousFoot.value);
    return finalLocation;
  }
}
