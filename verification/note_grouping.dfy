/**
  How `buildNotes` turns the notes that fall on one tick into the lanes it
  wants to tap: the notes of each hand in lane order (a lane already taken
  by that hand moves one lane right), then merged by the jump mode.
 */
module NoteGrouping {
  import opened Wrappers
  import opened StepBuilderTypes
  import opened Placement

  /** A note after snapping: its lane, its type (0 left hand, 1 right
      hand, 3 bomb) and its time in units of 1/96 beat. */
  datatype TimedNote = TimedNote(lineIndex: int, noteType: int, units: int)

  /** The notes the model of the builder accepts: lanes 0..3, types 0..3.
      A type outside 0..3 would form a hand group of its own. */
  predicate WellFormed(n: TimedNote)
  {
    0 <= n.lineIndex < 4 && 0 <= n.noteType <= 3
  }

  predicate AllWellFormed(notes: seq<TimedNote>)
  {
    forall i :: 0 <= i < |notes| ==> WellFormed(notes[i])
  }

  /** The lanes of the notes of one type, in note order. */
  function LanesOfType(notes: seq<TimedNote>, t: int): (r: seq<int>)
    ensures AllWellFormed(notes) ==> LanesIn(r)
    ensures |r| <= |notes|
  {
    if |notes| == 0 then []
    else
      var init := LanesOfType(notes[..|notes| - 1], t);
      assert AllWellFormed(notes) ==> AllWellFormed(notes[..|notes| - 1]);
      var n := notes[|notes| - 1];
      if n.noteType == t then init + [n.lineIndex] else init
  }

  /** The hand's lane list the `reduce` builds: each lane is pushed as is,
      or moved one lane right when the hand already has it. */
  function BumpRepeats(lanes: seq<int>): (r: seq<int>)
    ensures |r| == |lanes|
  {
    if |lanes| == 0 then []
    else
      var init := BumpRepeats(lanes[..|lanes| - 1]);
      var l := lanes[|lanes| - 1];
      if l in init then init + [(l + 1) % 4] else init + [l]
  }

  /** Each lane of the hand's list is the note's own lane, unless an
      earlier note of the hand already produced it; then the lane right of
      it (wrapping to 0). */
  lemma {:induction false} BumpRepeatsAt(lanes: seq<int>, i: nat)
    requires i < |lanes|
    ensures BumpRepeats(lanes)[i] ==
      (if lanes[i] in BumpRepeats(lanes)[..i] then (lanes[i] + 1) % 4 else lanes[i])
    decreases |lanes|
  {
    var init := lanes[..|lanes| - 1];
    var r := BumpRepeats(lanes);
    assert r[..|init|] == BumpRepeats(init);
    if i < |init| {
      BumpRepeatsAt(init, i);
      assert r[..i] == BumpRepeats(init)[..i];
    }
  }

  /** `Object.values(notesIndexMap)`: one lane list per hand that has
      notes, by ascending type (integer keys come out in numeric order);
      bombs (type 3) are left out. */
  function HandIndices(notes: seq<TimedNote>): (r: seq<seq<int>>)
    ensures forall i :: 0 <= i < |r| ==> |r[i]| > 0
    ensures |r| <= 3
  {
    var hands := [BumpRepeats(LanesOfType(notes, 0)), BumpRepeats(LanesOfType(notes, 1)), BumpRepeats(LanesOfType(notes, 2))];
    NonEmpty(hands)
  }

  function NonEmpty(xs: seq<seq<int>>): (r: seq<seq<int>>)
    ensures forall i :: 0 <= i < |r| ==> |r[i]| > 0
    ensures |r| <= |xs|
    ensures forall x :: x in r <==> x in xs && |x| > 0
  {
    if |xs| == 0 then []
    else if |xs[0]| > 0 then [xs[0]] + NonEmpty(xs[1..])
    else NonEmpty(xs[1..])
  }

  /** `.flat()` */
  function Flatten(xs: seq<seq<int>>): (r: seq<int>)
    ensures |xs| > 0 && |xs[0]| > 0 ==> |r| > 0 && r[0] == xs[0][0]
  {
    if |xs| == 0 then [] else xs[0] + Flatten(xs[1..])
  }

  /** A lane of any hand is in the flattened list. */
  lemma {:induction false} InFlatten(xs: seq<seq<int>>, i: nat, x: int)
    requires i < |xs| && x in xs[i]
    ensures x in Flatten(xs)
    decreases i
  {
    if i > 0 {
      InFlatten(xs[1..], i - 1, x);
    }
  }

  /** A lane of the flattened list comes from some hand. */
  lemma {:induction false} FlattenOrigin(xs: seq<seq<int>>, x: int) returns (i: nat)
    requires x in Flatten(xs)
    ensures i < |xs| && x in xs[i]
    decreases |xs|
  {
    if x in xs[0] {
      i := 0;
    } else {
      var k := FlattenOrigin(xs[1..], x);
      i := k + 1;
    }
  }

  /** All values are lanes 0..3. */
  predicate LanesIn(xs: seq<int>)
  {
    forall i :: 0 <= i < |xs| ==> 0 <= xs[i] < 4
  }

  predicate HandsIn(xs: seq<seq<int>>)
  {
    forall i :: 0 <= i < |xs| ==> LanesIn(xs[i])
  }

  lemma FlattenLanes(xs: seq<seq<int>>)
    requires HandsIn(xs)
    ensures LanesIn(Flatten(xs))
  {
    forall k | 0 <= k < |Flatten(xs)| ensures 0 <= Flatten(xs)[k] < 4 {
      var i := FlattenOrigin(xs, Flatten(xs)[k]);
      var x := Flatten(xs)[k];
      assert x in xs[i];
    }
  }

  /** `Array.from(new Set(xs))`: each value once, at its first occurrence. */
  function Dedup(xs: seq<int>): (r: seq<int>)
    ensures forall x :: x in r <==> x in xs
    ensures forall i, j :: 0 <= i < j < |r| ==> r[i] != r[j]
    ensures |r| <= |xs|
  {
    if |xs| == 0 then []
    else
      var init := Dedup(xs[..|xs| - 1]);
      var x := xs[|xs| - 1];
      assert forall y :: y in xs <==> y in xs[..|xs| - 1] || y == x;
      if x in init then init else init + [x]
  }

  /** The first lane of each hand (`indices.slice(0, 1)`). */
  function Firsts(xs: seq<seq<int>>): (r: seq<int>)
    requires forall i :: 0 <= i < |xs| ==> |xs[i]| > 0
    ensures |r| == |xs| && forall i :: 0 <= i < |xs| ==> r[i] == xs[i][0]
  {
    if |xs| == 0 then [] else [xs[0][0]] + Firsts(xs[1..])
  }

  /** The hands with at least two notes (swings). */
  function Swings(xs: seq<seq<int>>): (r: seq<seq<int>>)
    ensures forall x :: x in r <==> x in xs && |x| >= 2
  {
    if |xs| == 0 then []
    else if |xs[0]| >= 2 then [xs[0]] + Swings(xs[1..])
    else Swings(xs[1..])
  }

  /** A set of one lane becomes a jump with the lane to its right; no
      lane at all becomes the NaN lane. */
  function PadToJump(ls: seq<int>): (r: seq<int>)
  {
    if |ls| == 0 then [NoLane]
    else if |ls| == 1 then ls + [(ls[0] + 1) % 4]
    else ls
  }

  /** The lanes `buildNotes` asks `getLocationForNotes` for. */
  function CurrentLocations(jumpMode: Option<string>, hands: seq<seq<int>>): (r: seq<int>)
    requires forall i :: 0 <= i < |hands| ==> |hands[i]| > 0
  {
    if |hands| == 1 then hands[0]
    else if jumpMode == Some("swing") then
      var swing := Dedup(Flatten(Swings(hands)));
      if |swing| == 0 then
        var all := Flatten(hands);
        if |all| == 0 then [] else all[..1]
      else swing
    else if jumpMode == Some("both") then PadToJump(Dedup(Flatten(hands)))
    else if jumpMode == Some("twohands") then PadToJump(Dedup(Firsts(hands)))
    else []
  }

  /** The lanes of a tick's notes are all lanes 0..3, or the NaN lane. */
  lemma {:induction false} BumpRepeatsLanes(lanes: seq<int>)
    requires LanesIn(lanes)
    ensures LanesIn(BumpRepeats(lanes))
    decreases |lanes|
  {
    if |lanes| > 0 {
      var init := lanes[..|lanes| - 1];
      BumpRepeatsLanes(init);
      assert BumpRepeats(lanes)[..|init|] == BumpRepeats(init);
    }
  }

  lemma HandIndicesLanes(notes: seq<TimedNote>)
    requires AllWellFormed(notes)
    ensures HandsIn(HandIndices(notes))
  {
    var hands := [BumpRepeats(LanesOfType(notes, 0)), BumpRepeats(LanesOfType(notes, 1)), BumpRepeats(LanesOfType(notes, 2))];
    BumpRepeatsLanes(LanesOfType(notes, 0));
    BumpRepeatsLanes(LanesOfType(notes, 1));
    BumpRepeatsLanes(LanesOfType(notes, 2));
    assert HandsIn(hands);
    forall k | 0 <= k < |HandIndices(notes)| ensures LanesIn(HandIndices(notes)[k]) {
      assert HandIndices(notes)[k] in hands;
    }
  }

  lemma DedupLanes(xs: seq<int>)
    requires LanesIn(xs)
    ensures LanesIn(Dedup(xs))
  {
    forall k | 0 <= k < |Dedup(xs)| ensures 0 <= Dedup(xs)[k] < 4 {
      assert Dedup(xs)[k] in xs;
    }
  }

  lemma SwingsLanes(xs: seq<seq<int>>)
    requires HandsIn(xs)
    ensures HandsIn(Swings(xs))
  {
    forall k | 0 <= k < |Swings(xs)| ensures LanesIn(Swings(xs)[k]) {
      assert Swings(xs)[k] in xs;
    }
  }

  lemma PadLanes(xs: seq<int>)
    requires LanesIn(xs)
    ensures ValidLanes(PadToJump(xs))
  {
  }

  /** Every lane asked for is a lane 0..3 or the NaN lane. */
  lemma CurrentLocationsLanes(jumpMode: Option<string>, hands: seq<seq<int>>)
    requires forall i :: 0 <= i < |hands| ==> |hands[i]| > 0
    requires HandsIn(hands)
    ensures ValidLanes(CurrentLocations(jumpMode, hands))
  {
    var r := CurrentLocations(jumpMode, hands);
    if |hands| == 1 {
      assert LanesIn(hands[0]);
    } else if jumpMode == Some("swing") {
      SwingsLanes(hands);
      FlattenLanes(Swings(hands));
      DedupLanes(Flatten(Swings(hands)));
      FlattenLanes(hands);
      assert LanesIn(r);
    } else if jumpMode == Some("both") {
      FlattenLanes(hands);
      DedupLanes(Flatten(hands));
      PadLanes(Dedup(Flatten(hands)));
    } else if jumpMode == Some("twohands") {
      DedupLanes(Firsts(hands));
      PadLanes(Dedup(Firsts(hands)));
    }
  }

  /** 'both' and 'twohands': two or more hands give two or more distinct
      lanes, a single lane being padded with the lane to its right, among
      them each hand's first lane; a tick of bombs only asks for the NaN
      lane. */
  lemma PaddedJump(jumpMode: Option<string>, hands: seq<seq<int>>)
    requires jumpMode == Some("both") || jumpMode == Some("twohands")
    requires forall i :: 0 <= i < |hands| ==> |hands[i]| > 0
    requires HandsIn(hands)
    ensures |hands| == 0 ==> CurrentLocations(jumpMode, hands) == [NoLane]
    ensures |hands| >= 2 ==>
      var r := CurrentLocations(jumpMode, hands);
      |r| >= 2 && (forall i, j :: 0 <= i < j < |r| ==> r[i] != r[j]) &&
      forall i :: 0 <= i < |hands| ==> hands[i][0] in r
  {
    if |hands| >= 2 {
      var base := if jumpMode == Some("both") then Dedup(Flatten(hands)) else Dedup(Firsts(hands));
      assert CurrentLocations(jumpMode, hands) == PadToJump(base);
      forall i | 0 <= i < |hands| ensures hands[i][0] in base {
        if jumpMode == Some("both") {
          InFlatten(hands, i, hands[i][0]);
        } else {
          assert Firsts(hands)[i] == hands[i][0];
        }
      }
      assert hands[0][0] in base;
      if |base| == 1 {
        assert base[0] == hands[0][0];
        assert LanesIn(hands[0]);
        assert (base[0] + 1) % 4 != base[0];
      }
    }
  }

  /** 'swing': with two or more hands, the lanes of the swinging hands
      (each once), or, when no hand swings, the first hand's first lane. */
  lemma {:induction false} SwingsEmpty(xs: seq<seq<int>>)
    requires forall i :: 0 <= i < |xs| ==> |xs[i]| < 2
    ensures Swings(xs) == []
  {
    if |xs| > 0 {
      SwingsEmpty(xs[1..]);
    }
  }

  lemma SwingNone(hands: seq<seq<int>>)
    requires forall i :: 0 <= i < |hands| ==> |hands[i]| > 0
    requires |hands| >= 2 && forall i :: 0 <= i < |hands| ==> |hands[i]| < 2
    ensures CurrentLocations(Some("swing"), hands) == [hands[0][0]]
  {
    SwingsEmpty(hands);
    assert Flatten(hands)[..1] == [hands[0][0]];
  }

  /** A lane is among the swinging hands' lanes exactly when some hand of
      two or more notes holds it. */
  lemma SwingLanes(hands: seq<seq<int>>, x: int)
    ensures x in Flatten(Swings(hands)) <==> exists i :: 0 <= i < |hands| && |hands[i]| >= 2 && x in hands[i]
  {
    var sw := Swings(hands);
    if x in Flatten(sw) {
      var k := FlattenOrigin(sw, x);
      assert sw[k] in sw;
      var j :| 0 <= j < |hands| && hands[j] == sw[k];
    }
    if exists i :: 0 <= i < |hands| && |hands[i]| >= 2 && x in hands[i] {
      var j :| 0 <= j < |hands| && |hands[j]| >= 2 && x in hands[j];
      assert hands[j] in sw;
      var k :| 0 <= k < |sw| && sw[k] == hands[j];
      InFlatten(sw, k, x);
    }
  }

  lemma SwingSome(hands: seq<seq<int>>, x: int)
    requires forall i :: 0 <= i < |hands| ==> |hands[i]| > 0
    requires |hands| >= 2 && exists i :: 0 <= i < |hands| && |hands[i]| >= 2
    ensures var r := CurrentLocations(Some("swing"), hands);
      (x in r <==> exists i :: 0 <= i < |hands| && |hands[i]| >= 2 && x in hands[i]) &&
      (forall i, j :: 0 <= i < j < |r| ==> r[i] != r[j])
  {
    var i :| 0 <= i < |hands| && |hands[i]| >= 2;
    var flat := Flatten(Swings(hands));
    SwingLanes(hands, hands[i][0]);
    assert hands[i][0] in flat;
    assert CurrentLocations(Some("swing"), hands) == Dedup(flat);
    SwingLanes(hands, x);
  }
}
