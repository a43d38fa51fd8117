/**
  The beat grids notes are snapped to. A grid member is a position inside a
  beat, in units of 1/96 beat: 0 is the start of the beat, 96 the start of
  the next. The grid of `d` notes per 4-beat measure has a member every
  `384 / d` units.
 */
module Fractions {
  import opened Wrappers
  import opened Arithmetic

  /** `POSSIBLE_BEATS_PER_MEASURE` */
  const PossibleBeatsPerMeasure: seq<nat> := [4, 8, 12, 16, 24, 32, 48, 64, 96, 128]

  /** The grid of `d` notes per measure falls on whole 1/96-beat units. */
  predicate ExactGrid(d: int)
  {
    d > 0 && 384 % d == 0
  }

  /** Distance between neighbouring grid members, in units. */
  function Spacing(d: int): (s: nat)
    requires ExactGrid(d)
    ensures s > 0 && s * d == 384
  {
    384 / d
  }

  /** The grid of `d` in exact arithmetic: 0, s, 2s, ... up to 96. */
  function Grid(d: int): (g: seq<nat>)
    requires ExactGrid(d)
  {
    seq(96 / Spacing(d) + 1, k requires 0 <= k => k * Spacing(d))
  }

  /** The members of a list, as a set. */
  function Members(s: seq<nat>): set<nat>
  {
    set x | x in s
  }

  /** The members of `S` below `v`, ascending: `Array.from(new Set(xs)).sort()`
      for values in 0..96, whose string order is their numeric order. */
  function AscendingBelow(S: set<nat>, v: nat): (r: seq<nat>)
    ensures forall x :: x in r <==> x in S && x < v
    ensures forall i, j :: 0 <= i < j < |r| ==> r[i] < r[j]
  {
    if v == 0 then []
    else
      var init := AscendingBelow(S, v - 1);
      assert forall i :: 0 <= i < |init| ==> init[i] in init;
      assert forall i :: 0 <= i < |init| ==> init[i] < v - 1;
      if v - 1 in S then init + [v - 1] else init
  }

  /** The grid whose members `generateFractions` adds for subfractions. */
  function SubfractionGrid(d: int): Option<nat>
  {
    if d == 12 then Some(8) else if d == 24 then Some(16) else if d == 32 then Some(24) else None
  }

  /** The list `generateFractions(d, sub)` returns, in exact arithmetic. */
  function FractionsSpec(d: int, sub: bool): seq<nat>
    requires ExactGrid(d)
  {
    if !sub then Grid(d)
    else
      var extra := match SubfractionGrid(d) case Some(e) => Grid(e) case None => [];
      AscendingBelow(Members(Grid(d) + extra), 97)
  }

  lemma CountAbove(n: nat, s: nat)
    requires s > 0 && 96 < n * s <= 96 + s
    ensures n == 96 / s + 1
  {
    var q := 96 / s;
    assert 96 == q * s + 96 % s;
    MulLessCancel(q, n, s);
    assert n * s < (q + 2) * s;
    MulLessCancel(n, q + 2, s);
  }

  /** `generateFractions`: step from 0 by `4/d` beats while at most one beat,
      then, for subfractions, add the companion grid and de-duplicate and sort. */
  method GenerateFractions(maxBeatsPerMeasure: int, shouldIncludeSubfractions: bool) returns (fractions: seq<nat>)
    requires ExactGrid(maxBeatsPerMeasure)
    ensures fractions == FractionsSpec(maxBeatsPerMeasure, shouldIncludeSubfractions)
    decreases if shouldIncludeSubfractions then 1 else 0
  {
    var s := Spacing(maxBeatsPerMeasure);
    var res := 0;
    fractions := [];
    while res <= 96
      invariant res == |fractions| * s
      invariant res <= 96 + s
      invariant |fractions| <= 96 / s + 1
      invariant fractions == Grid(maxBeatsPerMeasure)[..|fractions|]
      decreases 96 + s - res
    {
      MulLeDiv(|fractions|, s, 96);
      fractions := fractions + [res];
      res := res + s;
    }
    CountAbove(|fractions|, s);
    assert fractions == Grid(maxBeatsPerMeasure);
    if !shouldIncludeSubfractions {
      return;
    }
    if maxBeatsPerMeasure == 12 {
      var extra := GenerateFractions(8, false);
      fractions := fractions + extra;
    } else if maxBeatsPerMeasure == 24 {
      var extra := GenerateFractions(16, false);
      fractions := fractions + extra;
    } else if maxBeatsPerMeasure == 32 {
      var extra := GenerateFractions(24, false);
      fractions := fractions + extra;
    } else {
      assert fractions == Grid(maxBeatsPerMeasure) + [];
    }
    fractions := AscendingBelow(Members(fractions), 97);
  }

  /** Every resolution in the table gives an exact grid with 4 | d. */
  lemma TableGridsExact()
    ensures forall d :: d in PossibleBeatsPerMeasure ==> ExactGrid(d) && d % 4 == 0
  {
  }

  /** A grid member is a multiple of the spacing between 0 and 96, and the
      other way round. */
  lemma GridMembers(d: int, g: int)
    requires ExactGrid(d)
    ensures g in Grid(d) <==> 0 <= g <= 96 && g % Spacing(d) == 0
  {
    var s := Spacing(d);
    var grid := Grid(d);
    if g in grid {
      var k :| 0 <= k < |grid| && grid[k] == g;
      MulLeDiv(k, s, 96);
      ModOfMultiple(k, s);
    }
    if 0 <= g <= 96 && g % s == 0 {
      var k := g / s;
      assert g == k * s + g % s;
      MulLeDiv(k, s, 96);
      assert grid[k] == g;
    }
  }

  /** For a resolution that is a multiple of 4, `generateFractions(d)` lists
      d/4 + 1 ascending values from 0 to 1 beat. */
  lemma GridShape(d: int)
    requires ExactGrid(d) && d % 4 == 0
    ensures |Grid(d)| == d / 4 + 1
    ensures Grid(d)[0] == 0 && Grid(d)[|Grid(d)| - 1] == 96
    ensures forall i, j :: 0 <= i < j < |Grid(d)| ==> Grid(d)[i] < Grid(d)[j]
  {
    var s := Spacing(d);
    assert s * (d / 4) == 96 by {
      assert d == 4 * (d / 4);
      assert s * (4 * (d / 4)) == 384;
    }
    assert 96 / s == d / 4;
    var grid := Grid(d);
    forall i, j | 0 <= i < j < |grid|
      ensures grid[i] < grid[j]
    {
      MulLessCancelRev(i, j, s);
    }
  }

  /** With subfractions the result holds exactly the members of the grid of
      `d` and of its companion grid, each once, ascending, from 0 to 1 beat. */
  lemma SubfractionsMembers(d: int, g: int)
    requires ExactGrid(d)
    ensures g in FractionsSpec(d, true) <==>
      g in Grid(d) || (SubfractionGrid(d).Some? && g in Grid(SubfractionGrid(d).value))
    ensures forall i, j :: 0 <= i < j < |FractionsSpec(d, true)| ==>
      FractionsSpec(d, true)[i] < FractionsSpec(d, true)[j]
  {
    GridMembers(d, g);
    if SubfractionGrid(d).Some? {
      GridMembers(SubfractionGrid(d).value, g);
    }
  }

  /** The `FRACTIONS` table: the grid of every resolution in the table. */
  function FractionsTable(d: int): (r: Option<seq<nat>>)
    ensures r.Some? <==> d in PossibleBeatsPerMeasure
    ensures r.Some? ==> ExactGrid(d) && r.value == Grid(d) && |r.value| == d / 4 + 1
  {
    TableGridsExact();
    if d in PossibleBeatsPerMeasure then GridShape(d); Some(Grid(d)) else None
  }

  /** Distance in beats between grid member `g` and the beat fraction `f`. */
  function Dist(g: nat, f: real): (r: real)
    ensures r >= 0.0
  {
    var x := g as real / 96.0 - f;
    if x < 0.0 then -x else x
  }

  /** The scan `getNeariestFraction` makes over `fractions`: the best
      distance so far, starting from 1, and the member that reached it,
      starting from 0; a member replaces the best only when strictly closer. */
  function NearestScan(f: real, fractions: seq<nat>): (r: (real, nat))
    ensures r.0 <= 1.0
    ensures r.0 < 1.0 ==> r.1 in fractions
    ensures r.0 == 1.0 ==> r.1 == 0
  {
    if |fractions| == 0 then (1.0, 0)
    else
      var init := fractions[..|fractions| - 1];
      var prev := NearestScan(f, init);
      var t := fractions[|fractions| - 1];
      if Dist(t, f) < prev.0 then (Dist(t, f), t) else prev
  }

  /** The scan keeps the distance of its member, is at most every member's
      distance, and its member comes no later than any member as close. */
  lemma {:induction false} NearestScanBest(f: real, fractions: seq<nat>)
    ensures NearestScan(f, fractions).0 < 1.0 ==> NearestScan(f, fractions).0 == Dist(NearestScan(f, fractions).1, f)
    ensures forall x :: x in fractions ==> NearestScan(f, fractions).0 <= Dist(x, f)
    ensures NearestScan(f, fractions).0 < 1.0 ==>
      forall k :: 0 <= k < |fractions| && Dist(fractions[k], f) == NearestScan(f, fractions).0 ==>
        NearestScan(f, fractions).1 in fractions[..k + 1]
  {
    if |fractions| > 0 {
      var init := fractions[..|fractions| - 1];
      NearestScanBest(f, init);
      assert fractions == init + [fractions[|fractions| - 1]];
    }
  }

  /** The member `getNeariestFraction` picks is in the list and no member
      is closer to the fraction. */
  lemma NearestIsClosest(f: real, fractions: seq<nat>)
    requires 0 in fractions && 0.0 <= f < 1.0
    ensures NearestScan(f, fractions).1 in fractions
    ensures forall x :: x in fractions ==> Dist(NearestScan(f, fractions).1, f) <= Dist(x, f)
  {
    NearestScanBest(f, fractions);
    assert Dist(0, f) == f;
  }

  /** Ties go to the earliest member: every member as close as the one
      picked comes at or after it in the list. */
  lemma NearestIsEarliest(f: real, fractions: seq<nat>)
    requires 0 in fractions && 0.0 <= f < 1.0
    ensures forall k :: 0 <= k < |fractions| && Dist(fractions[k], f) == Dist(NearestScan(f, fractions).1, f) ==>
      NearestScan(f, fractions).1 in fractions[..k + 1]
  {
    NearestScanBest(f, fractions);
    assert Dist(0, f) == f;
  }

  /** The beat a note at `t` lies in and its position inside it, in units. */
  function BeatOf(t: real): int
  {
    t.Floor
  }

  function OffsetInBeat(t: real): (x: real)
    ensures 0.0 <= x < 96.0
  {
    (t - t.Floor as real) * 96.0
  }

  /** The snapped time, in units, of a note at beat `t`: kept when its
      position in the beat is already a member of `fractions`, otherwise the
      beat start plus the nearest member. */
  function SnapUnits(fractions: seq<nat>, t: real): int
  {
    var x := OffsetInBeat(t);
    if x == x.Floor as real && x.Floor in fractions then BeatOf(t) * 96 + x.Floor
    else BeatOf(t) * 96 + NearestScan(t - BeatOf(t) as real, fractions).1
  }

  /** The snapped position inside the beat is a member of `fractions`. */
  lemma SnapInBeat(fractions: seq<nat>, t: real)
    requires 0 in fractions
    ensures SnapUnits(fractions, t) - BeatOf(t) * 96 in fractions
  {
    var x := OffsetInBeat(t);
    if x == x.Floor as real && x.Floor in fractions {
      assert SnapUnits(fractions, t) - BeatOf(t) * 96 == x.Floor;
    }
  }

  /** A snapped note lies on a member of the grid inside its beat (96 being
      the start of the next beat), and no member is closer to where it was;
      a note already on the grid keeps its time exactly. */
  lemma SnapOnGrid(fractions: seq<nat>, t: real)
    requires 0 in fractions
    ensures SnapUnits(fractions, t) - BeatOf(t) * 96 in fractions
    ensures forall y :: y in fractions ==>
      Dist(SnapUnits(fractions, t) - BeatOf(t) * 96, t - BeatOf(t) as real) <= Dist(y, t - BeatOf(t) as real)
    ensures (exists g :: g in fractions && g as real == OffsetInBeat(t)) ==> SnapUnits(fractions, t) as real == t * 96.0
  {
    var f := t - BeatOf(t) as real;
    var x := OffsetInBeat(t);
    var u := SnapUnits(fractions, t);
    if x == x.Floor as real && x.Floor in fractions {
      assert u - BeatOf(t) * 96 == x.Floor;
      assert x.Floor as real / 96.0 == f;
      assert Dist(x.Floor, f) == 0.0;
    } else {
      assert 0.0 <= f < 1.0;
      NearestIsClosest(f, fractions);
    }
    if exists g :: g in fractions && g as real == x {
      var g :| g in fractions && g as real == x;
      FloorIs(x, g);
      assert u == BeatOf(t) * 96 + g;
    }
  }

  /** A time on a grid member of its beat snaps to itself. */
  lemma SnapOfGridPoint(fractions: seq<nat>, b: int, g: nat, t: real)
    requires 0 in fractions && g in fractions && g <= 96
    requires t == (b * 96 + g) as real / 96.0
    ensures SnapUnits(fractions, t) == b * 96 + g
  {
    if g < 96 {
      assert t == b as real + g as real / 96.0;
      FloorIs(t, b);
      assert BeatOf(t) == b;
      var x := OffsetInBeat(t);
      assert x == g as real;
      FloorIs(x, g);
      assert SnapUnits(fractions, t) == BeatOf(t) * 96 + g;
      assert SnapUnits(fractions, t) == b * 96 + g;
    } else {
      assert t == (b + 1) as real;
      FloorIs(t, b + 1);
      assert BeatOf(t) == b + 1;
      var x := OffsetInBeat(t);
      assert x == 0.0;
      FloorIs(x, 0);
      assert SnapUnits(fractions, t) == BeatOf(t) * 96 + 0;
      assert SnapUnits(fractions, t) == b * 96 + g;
    }
  }

  /** Snapping is idempotent: a snapped time is on the grid and stays put. */
  lemma SnapIdempotent(fractions: seq<nat>, t: real)
    requires 0 in fractions
    requires forall g :: g in fractions ==> g <= 96
    ensures SnapUnits(fractions, SnapUnits(fractions, t) as real / 96.0) == SnapUnits(fractions, t)
  {
    var u := SnapUnits(fractions, t);
    SnapInBeat(fractions, t);
    var g := u - BeatOf(t) * 96;
    assert g in fractions;
    assert u == BeatOf(t) * 96 + g;
    SnapOfGridPoint(fractions, BeatOf(t), g, u as real / 96.0);
    assert SnapUnits(fractions, u as real / 96.0) == u;
  }
}
