/**
  The placement rules of `getLocationForNotes`, as a function of the
  previous tick's tap lanes, the lanes wanted now, the gap since the
  previous tick and the foot used last. The `StepBuilder` class runs them
  against its own foot field; this function is what it is proved against.
 */
module Placement {
  import opened Wrappers
  import opened StepBuilderTypes

  /** A lane `buildNotes` can produce: 0..3, or the NaN lane. */
  predicate ValidLane(l: int)
  {
    0 <= l < 4 || l == NoLane
  }

  predicate ValidLanes(ls: seq<int>)
  {
    forall i :: 0 <= i < |ls| ==> ValidLane(ls[i])
  }

  /** `(lane + 1) % 4`; the NaN lane stays NaN. */
  function Rotate(l: int): (r: int)
    ensures ValidLane(l) ==> ValidLane(r)
  {
    if l == NoLane then NoLane else (l + 1) % 4
  }

  /** The result: the lanes to tap and the foot used last afterwards. */
  datatype Placement = Placement(locations: seq<int>, foot: Foot)

  /** The foot after an accepted single: unchanged when it repeats the
      previous tick, left on lane 0, right on lane 3, otherwise the other
      foot (no foot counts as right, so it becomes left). */
  function AcceptedFoot(prev: seq<int>, cur: seq<int>, foot: Foot): (f: Foot)
    requires |cur| == 1
    ensures prev == cur ==> f == foot
    ensures prev != cur && cur[0] == 0 ==> f == Left
    ensures prev != cur && cur[0] == 3 ==> f == Right
    ensures prev != cur && cur[0] != 0 && cur[0] != 3 ==> f != foot && f != NoFoot
  {
    if prev == cur then foot
    else if cur[0] == 0 then Left
    else if cur[0] == 3 then Right
    else if foot == Left then Right
    else Left
  }

  /** A single lane that rule 1 or rule 3 moves on by one. */
  predicate Moves(c: StepBuilderConfig, prev: seq<int>, gap: int, foot: Foot, l: int)
  {
    DoubleTap(c, prev, l, gap) || (!JumpTap(c, prev, gap) && CrossesFoot(c, gap, l, foot))
  }

  /** How many lanes in a row, from `l`, get moved on (at most 3 counted). */
  function RunLength(c: StepBuilderConfig, prev: seq<int>, gap: int, foot: Foot, l: int): nat
  {
    if !Moves(c, prev, gap, foot, l) then 0
    else if !Moves(c, prev, gap, foot, Rotate(l)) then 1
    else if !Moves(c, prev, gap, foot, Rotate(Rotate(l))) then 2
    else 3
  }

  /** Only the previous single lane and the lane on the side of the last
      foot are ever moved on, so three lanes in a row never are. */
  lemma NoThreeMoves(c: StepBuilderConfig, prev: seq<int>, gap: int, foot: Foot, l: int)
    requires ValidLane(l) && NoLane !in prev
    ensures RunLength(c, prev, gap, foot, l) < 3
  {
    var l1 := Rotate(l);
    var l2 := Rotate(l1);
    if l != NoLane {
      assert l1 != l && l2 != l && l2 != l1;
      assert Moves(c, prev, gap, foot, l) ==> prev == [l] || FootOf(l) == foot != NoFoot;
      assert Moves(c, prev, gap, foot, l1) ==> prev == [l1] || FootOf(l1) == foot != NoFoot;
      assert Moves(c, prev, gap, foot, l2) ==> prev == [l2] || FootOf(l2) == foot != NoFoot;
    }
  }

  /** `getLocationForNotes`, for the lanes of one tick. */
  function Place(c: StepBuilderConfig, prev: seq<int>, cur: seq<int>, gap: int, foot: Foot): (p: Placement)
    requires ValidLanes(cur) && NoLane !in prev
    ensures ValidLanes(p.locations)
    decreases |cur|, if |cur| == 1 then RunLength(c, prev, gap, foot, cur[0]) else 0
  {
    if |cur| == 1 then
      var lane := cur[0];
      if DoubleTap(c, prev, lane, gap) then
        NoThreeMoves(c, prev, gap, foot, lane);
        Place(c, prev, [Rotate(lane)], gap, foot)
      else if JumpTap(c, prev, gap) then
        Placement([], foot)
      else if CrossesFoot(c, gap, lane, foot) then
        NoThreeMoves(c, prev, gap, foot, lane);
        Place(c, prev, [Rotate(lane)], gap, foot)
      else
        Placement(cur, AcceptedFoot(prev, cur, foot))
    else if |cur| >= 2 then
      var capped := CapHands(c, cur);
      if JumpDemoted(c, prev, gap) then Place(c, prev, capped[..1], gap, foot)
      else Placement(capped, foot)
    else
      Placement(cur, foot)
  }

  /** A single lane: it is dropped exactly when it follows a jump within
      the jump-then-tap gap; otherwise the lane placed is the first of the
      lane and its next two rotations that no rule moves, it obeys every
      rule, the lane is kept exactly when it already obeys them, and the
      foot follows the accepted lane. */
  lemma {:induction false} PlaceSingle(c: StepBuilderConfig, prev: seq<int>, lane: int, gap: int, foot: Foot)
    requires ValidLane(lane) && NoLane !in prev
    ensures var p := Place(c, prev, [lane], gap, foot);
      (p.locations == [] <==> JumpTap(c, prev, gap)) &&
      (p.locations == [] ==> p.foot == foot) &&
      (p.locations != [] ==>
        |p.locations| == 1 &&
        SingleCompliant(c, prev, p.locations[0], gap, foot) &&
        p.foot == AcceptedFoot(prev, p.locations, foot) &&
        (p.locations[0] == lane ||
         (Moves(c, prev, gap, foot, lane) &&
          (p.locations[0] == Rotate(lane) ||
           (Moves(c, prev, gap, foot, Rotate(lane)) && p.locations[0] == Rotate(Rotate(lane))))))) &&
      (p.locations == [lane] <==> SingleCompliant(c, prev, lane, gap, foot))
    decreases RunLength(c, prev, gap, foot, lane)
  {
    var p := Place(c, prev, [lane], gap, foot);
    if Moves(c, prev, gap, foot, lane) {
      NoThreeMoves(c, prev, gap, foot, lane);
      var next := Rotate(lane);
      assert !JumpTap(c, prev, gap);
      assert p == Place(c, prev, [next], gap, foot);
      PlaceSingle(c, prev, next, gap, foot);
      if Moves(c, prev, gap, foot, next) {
        NoThreeMoves(c, prev, gap, foot, next);
        PlaceSingle(c, prev, Rotate(next), gap, foot);
      }
      assert lane != NoLane;
      assert p.locations != [lane];
    }
  }

  /** A jump: cut down to its first lane, placed as a single, when it
      comes too soon; otherwise kept (at most two lanes without hands),
      with the foot untouched. */
  lemma PlaceJump(c: StepBuilderConfig, prev: seq<int>, cur: seq<int>, gap: int, foot: Foot)
    requires |cur| >= 2 && ValidLanes(cur) && NoLane !in prev
    ensures var p := Place(c, prev, cur, gap, foot);
      (JumpDemoted(c, prev, gap) ==> p == Place(c, prev, [cur[0]], gap, foot) && |p.locations| <= 1) &&
      (!JumpDemoted(c, prev, gap) ==> p.foot == foot && 2 <= |p.locations| && p.locations <= cur) &&
      (c.hands == Some("false") ==> |p.locations| <= 2) &&
      (c.hands != Some("false") && !JumpDemoted(c, prev, gap) ==> p.locations == cur)
  {
    var p := Place(c, prev, cur, gap, foot);
    assert CapHands(c, cur)[..1] == [cur[0]];
    if JumpDemoted(c, prev, gap) {
      PlaceSingle(c, prev, cur[0], gap, foot);
    }
  }
}
