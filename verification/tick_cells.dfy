/**
  How `buildNotes` fills the four cells of a tick: a tap on every placed
  lane, then the bombs. A bomb on a lane without a tap turns that cell
  into a mine; the bombs that landed on taps are then laid, one each, on
  the lowest-numbered cells that are not empty.
 */
module TickCells {
  import opened StepTypes

  /** How many cells of `t` hold `c` (`notes.filter(n => n === c).length`). */
  function CountCells(t: Tick, c: Cell): (n: nat)
    ensures n <= |t|
  {
    if |t| == 0 then 0 else CountCells(t[..|t| - 1], c) + (if t[|t| - 1] == c then 1 else 0)
  }

  /** The cells after `notes[location] = '1'` for every placed lane; a lane
      outside 0..3 (the NaN lane) names no cell. */
  function TapCells(locations: seq<int>): (t: Tick)
    ensures |t| == 4
    ensures forall i :: 0 <= i < 4 ==> (t[i] == Tap <==> i in locations) && (t[i] == Empty <==> i !in locations)
  {
    seq(4, i requires 0 <= i < 4 => if i in locations then Tap else Empty)
  }

  /** The first bomb loop, over the bombs' lanes in order: the cells, and
      how many bombs are still to lay (those that found a tap). */
  function MarkBombs(t: Tick, bombs: seq<int>): (r: (Tick, nat))
    requires forall k :: 0 <= k < |bombs| ==> 0 <= bombs[k] < |t|
    ensures |r.0| == |t|
    decreases |bombs|
  {
    if |bombs| == 0 then (t, 0)
    else
      var prev := MarkBombs(t, bombs[..|bombs| - 1]);
      var b := bombs[|bombs| - 1];
      if prev.0[b] != Tap then (prev.0[b := Mine], prev.1) else (prev.0, prev.1 + 1)
  }

  /** The second bomb loop from cell `i` on: each non-empty cell becomes a
      mine while bombs remain to lay. */
  function FillMines(t: Tick, count: nat, i: nat): (r: Tick)
    requires i <= |t|
    ensures |r| == |t|
    decreases |t| - i
  {
    if i == |t| then t
    else if t[i] != Empty && count > 0 then FillMines(t[i := Mine], count - 1, i + 1)
    else FillMines(t, count, i + 1)
  }

  /** How many bombs fall on lanes holding a tap. */
  function BombsOnTaps(t: Tick, bombs: seq<int>): (n: nat)
    requires forall k :: 0 <= k < |bombs| ==> 0 <= bombs[k] < |t|
    ensures n <= |bombs|
  {
    if |bombs| == 0 then 0
    else BombsOnTaps(t, bombs[..|bombs| - 1]) + (if t[bombs[|bombs| - 1]] == Tap then 1 else 0)
  }

  /** The first loop turns exactly the bomb lanes without a tap into
      mines, leaves every other cell alone, and leaves to lay as many bombs
      as fell on taps. */
  lemma {:induction false} MarkBombsCells(t: Tick, bombs: seq<int>)
    requires forall k :: 0 <= k < |bombs| ==> 0 <= bombs[k] < |t|
    ensures forall j :: 0 <= j < |t| ==>
      MarkBombs(t, bombs).0[j] == (if j in bombs && t[j] != Tap then Mine else t[j])
    ensures MarkBombs(t, bombs).1 == BombsOnTaps(t, bombs)
    decreases |bombs|
  {
    if |bombs| > 0 {
      var init := bombs[..|bombs| - 1];
      var b := bombs[|bombs| - 1];
      MarkBombsCells(t, init);
      assert forall j :: j in bombs <==> j in init || j == b;
      assert MarkBombs(t, init).0[b] == Tap <==> t[b] == Tap;
    }
  }

  /** Non-empty cells of `t` in `[i, j)`. */
  function Occupied(t: Tick, i: nat, j: nat): (n: nat)
    requires i <= j <= |t|
    decreases j - i
  {
    if i == j then 0 else (if t[i] != Empty then 1 else 0) + Occupied(t, i + 1, j)
  }

  /** The second loop turns into mines exactly the first `count` non-empty
      cells from `i` on (all of them when there are fewer) and leaves every
      other cell alone. */
  lemma {:induction false} FillMinesCells(t: Tick, count: nat, i: nat, j: nat)
    requires i <= j < |t|
    ensures FillMines(t, count, i)[j] == (if t[j] != Empty && Occupied(t, i, j) < count then Mine else t[j])
    decreases |t| - i
  {
    if t[i] != Empty && count > 0 {
      var t' := t[i := Mine];
      if i < j {
        FillMinesCells(t', count - 1, i + 1, j);
        OccupiedSame(t, t', i + 1, j);
      }
      FillMinesBefore(t', count - 1, i + 1, i);
    } else {
      if i < j {
        FillMinesCells(t, count, i + 1, j);
      } else {
        FillMinesBefore(t, count, i + 1, i);
      }
    }
  }

  /** Cells before the loop's position are not touched. */
  lemma {:induction false} FillMinesBefore(t: Tick, count: nat, i: nat, j: nat)
    requires j < i <= |t|
    ensures FillMines(t, count, i)[j] == t[j]
    decreases |t| - i
  {
    if i < |t| {
      if t[i] != Empty && count > 0 {
        FillMinesBefore(t[i := Mine], count - 1, i + 1, j);
      } else {
        FillMinesBefore(t, count, i + 1, j);
      }
    }
  }

  /** Changing a cell before `i` does not change what lies from `i` on. */
  lemma {:induction false} OccupiedSame(t: Tick, u: Tick, i: nat, j: nat)
    requires i <= j <= |t| == |u|
    requires forall k :: i <= k < j ==> t[k] == u[k]
    ensures Occupied(t, i, j) == Occupied(u, i, j)
    decreases j - i
  {
    if i < j {
      OccupiedSame(t, u, i + 1, j);
    }
  }

  /** Both bomb loops. */
  function LayBombs(t: Tick, bombs: seq<int>): (r: Tick)
    requires forall k :: 0 <= k < |bombs| ==> 0 <= bombs[k] < |t|
    ensures |r| == |t|
  {
    var marked := MarkBombs(t, bombs);
    FillMines(marked.0, marked.1, 0)
  }

  /** After the bombs: a cell is empty exactly when it was empty and no
      bomb fell on it; a tap is only ever kept, never added; a bomb on a
      lane without a tap always leaves a mine there; and with no bomb on a
      tap the taps all stay. */
  lemma LayBombsCells(t: Tick, bombs: seq<int>, j: nat)
    requires forall k :: 0 <= k < |bombs| ==> 0 <= bombs[k] < |t|
    requires j < |t|
    ensures LayBombs(t, bombs)[j] == Empty <==> t[j] == Empty && j !in bombs
    ensures LayBombs(t, bombs)[j] == Tap ==> t[j] == Tap
    ensures j in bombs && t[j] != Tap ==> LayBombs(t, bombs)[j] == Mine
    ensures BombsOnTaps(t, bombs) == 0 && t[j] == Tap ==> LayBombs(t, bombs)[j] == Tap
  {
    MarkBombsCells(t, bombs);
    var marked := MarkBombs(t, bombs);
    FillMinesCells(marked.0, marked.1, 0, j);
  }
}
