/**
  The colour the visualisers give a note: the coarsest beat grid the
  note lies on, from quarter notes (`red`) down to 32nds (`lightgreen`),
  and `gray` for a note on none of them. Both visualisers (the canvas one
  and the DOM one) share the table and the rule.
 */
module NotesVisualizer {

  /** The keys of `COLORS` in the order `Object.keys` lists integer keys:
      ascending. */
  const Divisors: seq<nat> := [4, 8, 12, 16, 24, 32]

  /** `COLORS`, value by value in the order of `Divisors`. */
  const ColorNames: seq<string> := ["red", "blue", "purple", "yellow", "green", "lightgreen"]

  const Gray: string := "gray"

  /** `noteSize >= d && (index * d) % noteSize === 0`: the note at `index`
      of a measure of `noteSize` ticks lies on the grid of `d` notes per
      measure. For an empty measure `% 0` is NaN and never equals 0. */
  predicate Fits(d: nat, index: nat, noteSize: nat)
  {
    noteSize >= d && noteSize > 0 && (index * d) % noteSize == 0
  }

  /** The first position from `k` on whose divisor fits, or `|Divisors|`
      when none does. */
  function FirstFit(index: nat, noteSize: nat, k: nat): (r: nat)
    requires k <= |Divisors|
    ensures k <= r <= |Divisors|
    ensures r < |Divisors| ==> Fits(Divisors[r], index, noteSize)
    ensures forall j :: k <= j < r ==> !Fits(Divisors[j], index, noteSize)
    decreases |Divisors| - k
  {
    if k == |Divisors| then k
    else if Fits(Divisors[k], index, noteSize) then k
    else FirstFit(index, noteSize, k + 1)
  }

  /** `getNoteColor` of the canvas visualiser: the colour of the first
      divisor that fits, else `gray`. The colour is `gray` exactly when no
      divisor fits. */
  function NoteColor(index: nat, noteSize: nat): (c: string)
    ensures c == Gray <==> forall j :: 0 <= j < |Divisors| ==> !Fits(Divisors[j], index, noteSize)
  {
    var k := FirstFit(index, noteSize, 0);
    if k < |Divisors| then ColorNames[k] else Gray
  }

  /** `getNoteColor` of the DOM visualiser. It also works out the note's
      place in the measure as a fraction, and never uses it; the colour is
      the canvas visualiser's. */
  function NoteColorDom(index: nat, noteSize: nat): (c: string)
    ensures c == NoteColor(index, noteSize)
  {
    var k := FirstFit(index, noteSize, 0);
    if k < |Divisors| then ColorNames[k] else Gray
  }

  /** A note gets the `j`-th colour exactly when the `j`-th divisor fits
      and no earlier one does. */
  lemma ColorIff(index: nat, noteSize: nat, j: nat)
    requires j < |Divisors|
    ensures NoteColor(index, noteSize) == ColorNames[j] <==>
      Fits(Divisors[j], index, noteSize) && forall i :: 0 <= i < j ==> !Fits(Divisors[i], index, noteSize)
  {
    var k := FirstFit(index, noteSize, 0);
    if NoteColor(index, noteSize) == ColorNames[j] {
      assert k < |Divisors|;
      assert ColorNames[k] == ColorNames[j];
      assert k == j by {
        assert forall a, b :: 0 <= a < b < |ColorNames| ==> ColorNames[a] != ColorNames[b];
      }
    }
    if Fits(Divisors[j], index, noteSize) && forall i :: 0 <= i < j ==> !Fits(Divisors[i], index, noteSize) {
      assert k == j;
    }
  }

  /** The first tick of a measure of four ticks or more is `red`. */
  lemma DownbeatIsRed(noteSize: nat)
    requires noteSize >= 4
    ensures NoteColor(0, noteSize) == "red"
  {
    assert Fits(4, 0, noteSize);
  }

  /** A measure of fewer than four ticks is all `gray`. */
  lemma ShortMeasureIsGray(index: nat, noteSize: nat)
    requires noteSize < 4
    ensures NoteColor(index, noteSize) == Gray
  {
  }

  /** In a measure of four ticks every tick is a quarter note: `red`. */
  lemma QuarterMeasureIsRed(index: nat)
    ensures NoteColor(index, 4) == "red"
  {
    assert Fits(4, index, 4);
  }

  /** A product grows with its second factor. */
  lemma {:induction false} MulGrows(n: nat, a: int, b: int)
    requires a <= b
    ensures n * a <= n * b
    decreases n
  {
    if n > 0 {
      MulGrows(n - 1, a, b);
      assert n * a == (n - 1) * a + a;
      assert n * b == (n - 1) * b + b;
    }
  }

  /** The remainder is the one `r` in `[0, n)` with `x == n * q + r`. */
  lemma ModUnique(x: int, n: nat, q: int, r: int)
    requires n > 0 && 0 <= r < n && x == n * q + r
    ensures x % n == r
  {
    var q2, r2 := x / n, x % n;
    assert x == n * q2 + r2;
    if q2 > q {
      MulGrows(n, q + 1, q2);
    } else if q2 < q {
      MulGrows(n, q2 + 1, q);
    }
  }

  /** Adding a multiple of the modulus does not change a remainder. */
  lemma ModAddMultiple(a: nat, n: nat, m: nat)
    requires n > 0
    ensures (a + n * m) % n == a % n
  {
    var q, r := a / n, a % n;
    assert a + n * m == n * (q + m) + r;
    ModUnique(a + n * m, n, q + m, r);
  }

  /** Whether a divisor fits depends on the index only up to multiples of
      the measure's length. */
  lemma FitsPeriodic(d: nat, index: nat, noteSize: nat)
    requires noteSize > 0
    ensures Fits(d, index + noteSize, noteSize) == Fits(d, index, noteSize)
  {
    assert (index + noteSize) * d == index * d + noteSize * d;
    ModAddMultiple(index * d, noteSize, d);
  }

  /** The colour repeats every measure length: `index` and
      `index + noteSize` get the same colour. */
  lemma ColorPeriodic(index: nat, noteSize: nat)
    ensures NoteColor(index + noteSize, noteSize) == NoteColor(index, noteSize)
  {
    if noteSize > 0 {
      forall d | d in Divisors
        ensures Fits(d, index + noteSize, noteSize) == Fits(d, index, noteSize)
      {
        FitsPeriodic(d, index, noteSize);
      }
      FirstFitAgrees(index + noteSize, index, noteSize, 0);
    }
  }

  /** Two indices that every divisor fits alike get the same first fit. */
  lemma {:induction false} FirstFitAgrees(i1: nat, i2: nat, noteSize: nat, k: nat)
    requires k <= |Divisors|
    requires forall d :: d in Divisors ==> Fits(d, i1, noteSize) == Fits(d, i2, noteSize)
    ensures FirstFit(i1, noteSize, k) == FirstFit(i2, noteSize, k)
    decreases |Divisors| - k
  {
    if k < |Divisors| {
      assert Divisors[k] in Divisors;
      FirstFitAgrees(i1, i2, noteSize, k + 1);
    }
  }

  /** A multiple of the modulus leaves no remainder. */
  lemma MultipleModIsZero(n: nat, m: nat)
    requires n > 0
    ensures (n * m) % n == 0
  {
    ModUnique(n * m, n, m, 0);
  }

  /** A note on the grid of the `j`-th divisor (a measure the divisor
      splits evenly, at a multiple of its line spacing) is coloured as that
      grid or a coarser one, and never `gray`. */
  lemma OnGridIsColoured(index: nat, noteSize: nat, j: nat)
    requires j < |Divisors|
    requires noteSize > 0 && noteSize % Divisors[j] == 0
    requires index % (noteSize / Divisors[j]) == 0
    ensures FirstFit(index, noteSize, 0) <= j
    ensures NoteColor(index, noteSize) != Gray
  {
    var d := Divisors[j];
    var spacing := noteSize / d;
    assert noteSize == d * spacing;
    assert spacing >= 1;
    var lines := index / spacing;
    assert index == spacing * lines;
    assert index * d == noteSize * lines by {
      assert index * d == (spacing * lines) * d;
      assert (spacing * lines) * d == (d * spacing) * lines;
    }
    MultipleModIsZero(noteSize, lines);
    assert Fits(d, index, noteSize);
  }
}
