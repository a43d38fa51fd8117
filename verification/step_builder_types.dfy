/**
  The configuration both placement engines read, and the placement rules
  they share: the gap comparisons, the foot a lane implies and the
  rule-compliance predicate a placed note satisfies.

  Time is counted in units of 1/96 beat (384 units to a 4-beat measure).
 */
module StepBuilderTypes {
  import opened Wrappers
  import opened StepTypes
  import opened StepConfigurationShared

  /** Time units per beat. */
  const UnitsPerBeat: int := 96

  /** Beats per measure (`DEFAULT_BEATS_PER_MEASURE`). */
  const DefaultBeatsPerMeasure: int := 4

  /** Time units per 4-beat measure. */
  const UnitsPerMeasure: int := 384

  /** `Number.MAX_SAFE_INTEGER`, the gap used before any note was placed,
      in time units. */
  const MaxSafeGap: int := 9007199254740991 * 96

  /** A lane that is not a lane: the source computes `(undefined + 1) % 4`,
      which is NaN, when it pads an empty lane set. It matches no cell. */
  const NoLane: int := -1

  /** The settings the placement rules read. Absent numbers are `undefined`. */
  datatype StepBuilderConfig = StepBuilderConfig(
    crossover: Option<string>,
    hands: Option<string>,
    minGapForCrossovers: Option<nat>,
    minGapForDoubleTap: Option<nat>,
    minGapForTapJumps: Option<nat>,
    minGapForJumpTap: Option<nat>,
    minGapForJumps: Option<nat>,
    jumpMode: Option<string>,
    randomnessScore: Option<RandomnessScore>)

  /** The settings form, validated, as the builder receives it: every
      setting is present, and every gap the rules read lies from 4 to 32.
      The auto-snapping gap is a form setting the rules do not read. */
  function FromForm(f: BaseStepConfiguration, randomness: Option<RandomnessScore>): (c: StepBuilderConfig)
    requires Valid(f)
    ensures c.crossover == Some(f.crossover) && c.hands == Some(f.hands) && c.jumpMode == Some(f.jumpMode)
    ensures c.minGapForDoubleTap == Some(f.minGapForDoubleTap) && 4 <= f.minGapForDoubleTap <= 32
    ensures c.minGapForCrossovers == Some(f.minGapForCrossovers) && 4 <= f.minGapForCrossovers <= 32
    ensures c.minGapForJumps == Some(f.minGapForJumps) && 4 <= f.minGapForJumps <= 32
    ensures c.minGapForTapJumps == Some(f.minGapForTapJumps) && 4 <= f.minGapForTapJumps <= 32
    ensures c.minGapForJumpTap == Some(f.minGapForJumpTap) && 4 <= f.minGapForJumpTap <= 32
    ensures c.randomnessScore == randomness
  {
    StepBuilderConfig(
      Some(f.crossover), Some(f.hands),
      Some(f.minGapForCrossovers), Some(f.minGapForDoubleTap), Some(f.minGapForTapJumps),
      Some(f.minGapForJumpTap), Some(f.minGapForJumps),
      Some(f.jumpMode), randomness)
  }

  /** The foot the last single step was taken with (`undefined` = NoFoot). */
  datatype Foot = Left | Right | NoFoot

  /** `beatGap < DEFAULT_BEATS_PER_MEASURE / m` for a gap in time units.
      An undefined `m` gives NaN (never below); 0 gives Infinity. */
  predicate Below(gap: int, m: Option<nat>)
  {
    match m
    case None => false
    case Some(d) => d == 0 || gap * d < DefaultBeatsPerMeasure * UnitsPerBeat
  }

  /** The foot a single lane forces: lane 0 the left, lane 3 the right. */
  function FootOf(lane: int): Foot
  {
    if lane == 0 then Left else if lane == 3 then Right else NoFoot
  }

  /** Rule 1 (double tap): the same single lane again within the double-tap gap. */
  predicate DoubleTap(c: StepBuilderConfig, prev: seq<int>, lane: int, gap: int)
  {
    Below(gap, c.minGapForDoubleTap) && prev == [lane]
  }

  /** Rule 2 (jump then tap): a single right after a jump, within the gap. */
  predicate JumpTap(c: StepBuilderConfig, prev: seq<int>, gap: int)
  {
    Below(gap, c.minGapForJumpTap) && |prev| > 1
  }

  /** Rule 3 applies: crossovers are off, or the crossover gap is not met. */
  predicate CrossoverChecked(c: StepBuilderConfig, gap: int)
  {
    c.crossover == Some("false") || Below(gap, c.minGapForCrossovers)
  }

  /** Rule 3 (crossover): the lane's foot is the foot used last. */
  predicate CrossesFoot(c: StepBuilderConfig, gap: int, lane: int, foot: Foot)
  {
    CrossoverChecked(c, gap) && foot != NoFoot && FootOf(lane) == foot
  }

  /** A single lane that no rule moves or drops. */
  predicate SingleCompliant(c: StepBuilderConfig, prev: seq<int>, lane: int, gap: int, foot: Foot)
  {
    !DoubleTap(c, prev, lane, gap) && !JumpTap(c, prev, gap) && !CrossesFoot(c, gap, lane, foot)
  }

  /** Rules 5: a jump too close after a jump, or after a tap, is cut down. */
  predicate JumpDemoted(c: StepBuilderConfig, prev: seq<int>, gap: int)
  {
    (|prev| > 1 && Below(gap, c.minGapForJumps)) || (|prev| == 1 && Below(gap, c.minGapForTapJumps))
  }

  /** `hands === 'false'` keeps the first two lanes of a jump. */
  function CapHands(c: StepBuilderConfig, cur: seq<int>): (r: seq<int>)
    requires |cur| >= 2
    ensures c.hands == Some("false") ==> r == cur[..2]
    ensures c.hands != Some("false") ==> r == cur
  {
    if c.hands == Some("false") then cur[..2] else cur
  }

  /** The lanes of a tick holding a tap, in lane order (`previousPositions`). */
  function TapLanes(t: Tick): (r: seq<int>)
    ensures |r| <= |t|
    ensures forall i :: 0 <= i < |r| ==> 0 <= r[i] < |t| && t[r[i]] == Tap
    ensures forall i :: 0 <= i < |t| && t[i] == Tap ==> i in r
    ensures forall i, j :: 0 <= i < j < |r| ==> r[i] < r[j]
  {
    if |t| == 0 then []
    else
      var init := TapLanes(t[..|t| - 1]);
      assert forall i :: 0 <= i < |t| - 1 ==> t[..|t| - 1][i] == t[i];
      if t[|t| - 1] == Tap then init + [|t| - 1] else init
  }
}
