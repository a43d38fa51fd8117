/**
  How many ticks a measure gets: the first table resolution whose grid
  holds a note's position, folded over the measure's notes with the least
  common multiple, starting from 4.
 */
module Resolution {
  import opened Arithmetic
  import opened Fractions

  /** `g` lies on the grid of resolution `d`. */
  predicate OnGrid(g: int, d: int)
  {
    ExactGrid(d) && 0 <= g <= 96 && g % Spacing(d) == 0
  }

  /** Being on the grid is being a member of `generateFractions(d)`. */
  lemma OnGridIsMember(g: int, d: int)
    requires ExactGrid(d)
    ensures OnGrid(g, d) <==> g in Grid(d)
  {
    GridMembers(d, g);
  }

  /** The index of the first table resolution from `i` on whose grid holds
      `g`, or the length of the table. */
  function FirstGridFrom(g: int, i: nat): (j: nat)
    requires i <= |PossibleBeatsPerMeasure|
    ensures i <= j <= |PossibleBeatsPerMeasure|
    decreases |PossibleBeatsPerMeasure| - i
  {
    if i == |PossibleBeatsPerMeasure| then i
    else if OnGrid(g, PossibleBeatsPerMeasure[i]) then i
    else FirstGridFrom(g, i + 1)
  }

  /** The entry found holds `g`. */
  lemma {:induction false} FirstGridFromHolds(g: int, i: nat)
    requires i <= |PossibleBeatsPerMeasure|
    ensures FirstGridFrom(g, i) < |PossibleBeatsPerMeasure| ==> OnGrid(g, PossibleBeatsPerMeasure[FirstGridFrom(g, i)])
    decreases |PossibleBeatsPerMeasure| - i
  {
    if i < |PossibleBeatsPerMeasure| && !OnGrid(g, PossibleBeatsPerMeasure[i]) {
      FirstGridFromHolds(g, i + 1);
    }
  }

  /** No entry before the one found holds `g`. */
  lemma {:induction false} FirstGridFromIsFirst(g: int, i: nat, k: nat)
    requires i <= k < |PossibleBeatsPerMeasure| && OnGrid(g, PossibleBeatsPerMeasure[k])
    ensures FirstGridFrom(g, i) <= k
    decreases |PossibleBeatsPerMeasure| - i
  {
    if i < k && !OnGrid(g, PossibleBeatsPerMeasure[i]) {
      FirstGridFromIsFirst(g, i + 1, k);
    }
  }

  /** An entry that does not hold `g` is not the one found. */
  lemma {:induction false} FirstGridFromSkips(g: int, i: nat, k: nat)
    requires i <= k < |PossibleBeatsPerMeasure| && !OnGrid(g, PossibleBeatsPerMeasure[k])
    ensures FirstGridFrom(g, i) != k
    decreases |PossibleBeatsPerMeasure| - i
  {
    if i < k && !OnGrid(g, PossibleBeatsPerMeasure[i]) {
      FirstGridFromSkips(g, i + 1, k);
    }
  }

  /** `getBeatsPerMeasureForFraction`: the first resolution in the table
      whose grid holds the position `g`, else the last one, 128. */
  function BeatsPerMeasureForFraction(g: int): (d: nat)
    ensures d in PossibleBeatsPerMeasure
  {
    var j := FirstGridFrom(g, 0);
    if j < |PossibleBeatsPerMeasure| then PossibleBeatsPerMeasure[j] else 128
  }

  /** The resolution found holds `g`, unless it is the fallback 128, and no
      smaller table resolution holds `g`: the table ascends. */
  lemma BeatsPerMeasureIsFirst(g: int, e: nat)
    requires e in PossibleBeatsPerMeasure && OnGrid(g, e)
    ensures BeatsPerMeasureForFraction(g) <= e
    ensures OnGrid(g, BeatsPerMeasureForFraction(g))
  {
    var k :| 0 <= k < |PossibleBeatsPerMeasure| && PossibleBeatsPerMeasure[k] == e;
    FirstGridFromIsFirst(g, 0, k);
    FirstGridFromHolds(g, 0);
  }

  /** The fallback: a position no grid holds gets 128. */
  lemma BeatsPerMeasureFallback(g: int)
    requires forall e :: e in PossibleBeatsPerMeasure ==> !OnGrid(g, e)
    ensures BeatsPerMeasureForFraction(g) == 128
  {
    FirstGridFromHolds(g, 0);
  }

  /** A multiple of 4 units lies on the grid of 96, the table's ninth entry. */
  lemma FirstIndexAtMost96(g: int)
    requires 0 <= g < 96 && g % 4 == 0
    ensures FirstGridFrom(g, 0) <= 8
  {
    DivModUnique(384, 96, 4, 0);
    assert OnGrid(g, PossibleBeatsPerMeasure[8]);
    FirstGridFromIsFirst(g, 0, 8);
  }

  /** A multiple of 12 units lies on the grid of 32, before 64 in the table. */
  lemma FirstIndexAtMost32(g: int)
    requires 0 <= g < 96 && g % 12 == 0
    ensures FirstGridFrom(g, 0) <= 5
  {
    DivModUnique(384, 32, 12, 0);
    assert OnGrid(g, PossibleBeatsPerMeasure[5]);
    FirstGridFromIsFirst(g, 0, 5);
  }

  /** Any other multiple of 4 units is off the grid of 64. */
  lemma FirstIndexNot64(g: int)
    requires 0 <= g < 96 && g % 4 == 0 && g % 12 != 0
    ensures FirstGridFrom(g, 0) != 7
  {
    assert g % 6 != 0;
    DivModUnique(384, 64, 6, 0);
    assert !OnGrid(g, PossibleBeatsPerMeasure[7]);
    FirstGridFromSkips(g, 0, 7);
  }

  /** A position on the 96-grid (every multiple of 4 units) never needs 64
      or 128 ticks: its resolution divides 96. */
  lemma BeatsPerMeasureDivides96(g: int)
    requires 0 <= g < 96 && g % 4 == 0
    ensures 96 % BeatsPerMeasureForFraction(g) == 0
  {
    FirstIndexAtMost96(g);
    if g % 12 == 0 {
      FirstIndexAtMost32(g);
    } else {
      FirstIndexNot64(g);
    }
    var j := FirstGridFrom(g, 0);
    assert j == 0 || j == 1 || j == 2 || j == 3 || j == 4 || j == 5 || j == 6 || j == 8;
  }

  /** Euclid's algorithm, the `gcd` helper of `getLeastCommonMultiple`. */
  function GcdSpec(x: nat, y: nat): nat
    decreases y
  {
    if y == 0 then x else GcdSpec(y, x % y)
  }

  /** The loop of `gcd`. */
  method Gcd(x0: nat, y0: nat) returns (x: nat)
    ensures x == GcdSpec(x0, y0)
  {
    x := x0;
    var y: nat := y0;
    while y != 0
      invariant GcdSpec(x, y) == GcdSpec(x0, y0)
      decreases y
    {
      var temp: nat := y;
      y := x % y;
      x := temp;
    }
  }

  /** The gcd divides both arguments. */
  lemma {:induction false} GcdDivides(x: nat, y: nat)
    requires x > 0 || y > 0
    ensures GcdSpec(x, y) > 0 && x % GcdSpec(x, y) == 0 && y % GcdSpec(x, y) == 0
    decreases y
  {
    if y == 0 {
      ModOfMultiple(1, x);
    } else {
      GcdDivides(y, x % y);
      var g := GcdSpec(x, y);
      assert x == (x / y) * y + x % y;
      DivLinear(g, y, x % y, x / y, 1);
    }
  }

  /** Every common divisor divides the gcd. */
  lemma {:induction false} GcdGreatest(x: nat, y: nat, e: int)
    requires e > 0 && x % e == 0 && y % e == 0
    ensures GcdSpec(x, y) % e == 0
    decreases y
  {
    if y != 0 {
      assert x % y == 1 * x + (-(x / y)) * y;
      DivLinear(e, x, y, 1, -(x / y));
      GcdGreatest(y, x % y, e);
    }
  }

  /** Scaling both arguments scales the gcd. */
  lemma {:induction false} GcdScale(m: nat, x: nat, y: nat)
    requires m > 0
    ensures GcdSpec(m * x, m * y) == m * GcdSpec(x, y)
    decreases y
  {
    if y != 0 {
      var q := x / y;
      var r := x % y;
      assert m * x == q * (m * y) + m * r;
      MulLessCancelRev(r, y, m);
      assert r * m < y * m;
      DivModUnique(m * x, m * y, q, m * r);
      GcdScale(m, y, r);
    }
  }

  /** `Math.abs(a * b) / gcd(a, b)` for positive arguments. */
  function LcmSpec(a: nat, b: nat): nat
    requires a > 0 && b > 0
  {
    GcdDivides(a, b);
    a * b / GcdSpec(a, b)
  }

  /** `getLeastCommonMultiple`. */
  method LeastCommonMultiple(a: nat, b: nat) returns (l: nat)
    requires a > 0 && b > 0
    ensures l == LcmSpec(a, b)
  {
    var g := Gcd(a, b);
    GcdDivides(a, b);
    l := a * b / g;
  }

  /** Dividing a product by a divisor of one factor. */
  lemma MulDivExact(a: int, b: int, g: int)
    requires g > 0 && b % g == 0
    ensures a * b / g == a * (b / g)
  {
    var bg := b / g;
    assert b == bg * g;
    assert a * b == (a * bg) * g;
    DivModUnique(a * b, g, a * bg, 0);
  }

  /** Moving a common factor between two products. */
  lemma SwapFactor(a: int, b: int, g: int)
    requires g > 0 && a % g == 0 && b % g == 0
    ensures a * (b / g) == (a / g) * b
  {
    var ag := a / g;
    var bg := b / g;
    assert a == ag * g && b == bg * g;
    calc {
      a * bg;
      (ag * g) * bg;
      ag * (bg * g);
      ag * b;
    }
  }

  /** The lcm is a positive common multiple of its arguments. */
  lemma LcmCommonMultiple(a: nat, b: nat)
    requires a > 0 && b > 0
    ensures LcmSpec(a, b) > 0 && LcmSpec(a, b) % a == 0 && LcmSpec(a, b) % b == 0
  {
    GcdDivides(a, b);
    var g := GcdSpec(a, b);
    MulDivExact(a, b, g);
    SwapFactor(a, b, g);
    ModOfMultiple(b / g, a);
    ModOfMultiple(a / g, b);
    assert LcmSpec(a, b) == (b / g) * a;
  }

  /** The lcm times the gcd is the product. */
  lemma LcmTimesGcd(a: nat, b: nat)
    requires a > 0 && b > 0
    ensures LcmSpec(a, b) * GcdSpec(a, b) == a * b
  {
    GcdDivides(a, b);
    var g := GcdSpec(a, b);
    MulDivExact(a, b, g);
    var q := b / g;
    assert b == q * g;
    assert LcmSpec(a, b) == a * q;
    MulAssoc(a, q, g);
  }

  /** `m` a multiple of `b` makes `m * a` a multiple of `a * b`. */
  lemma ScaledMultiple(m: int, a: int, b: int)
    requires b > 0 && a > 0 && m % b == 0
    ensures (m * a) % (a * b) == 0
  {
    var t := m / b;
    assert m == t * b;
    assert m * a == t * (a * b);
    ModOfMultiple(t, a * b);
  }

  /** Cancelling a positive factor from an equation. */
  lemma CancelFactor(x: int, y: int, g: int)
    requires g > 0 && x * g == y * g
    ensures x == y
  {
    MulLessCancel(x - y, 1, g);
    MulLessCancel(-1, x - y, g);
    assert (x - y) * g == 0;
  }

  /** `m` times the gcd is a multiple of `a * b` when `m` is a common
      multiple of `a` and `b`. */
  lemma GcdOfMultiples(a: nat, b: nat, m: nat)
    requires a > 0 && b > 0
    requires m > 0 && m % a == 0 && m % b == 0
    ensures (m * GcdSpec(a, b)) % (a * b) == 0
  {
    ScaledMultiple(m, a, b);
    ScaledMultiple(m, b, a);
    assert b * a == a * b;
    GcdGreatest(m * a, m * b, a * b);
    GcdScale(m, a, b);
  }

  /** Cancelling a positive factor from a divisibility. */
  lemma CancelDivides(m: int, g: int, l: int)
    requires g > 0 && l > 0 && (m * g) % (l * g) == 0
    ensures m % l == 0
  {
    var mg := m * g;
    var lg := l * g;
    var k := mg / lg;
    DivMod(mg, lg);
    MulAssoc(k, l, g);
    CancelFactor(m, k * l, g);
    ModOfMultiple(k, l);
  }

  /** The lcm divides every positive common multiple. */
  lemma LcmLeast(a: nat, b: nat, m: nat)
    requires a > 0 && b > 0
    requires m > 0 && m % a == 0 && m % b == 0
    ensures LcmSpec(a, b) > 0 && m % LcmSpec(a, b) == 0
  {
    LcmCommonMultiple(a, b);
    LcmTimesGcd(a, b);
    GcdDivides(a, b);
    GcdOfMultiples(a, b, m);
    CancelDivides(m, GcdSpec(a, b), LcmSpec(a, b));
  }

  /** The resolution of a measure whose notes sit at positions `offsets`
      in their beats: the lcm fold of their table resolutions from 4. */
  function ResolutionOf(offsets: seq<int>): (d: nat)
    ensures d > 0
  {
    if |offsets| == 0 then 4
    else
      var init := ResolutionOf(offsets[..|offsets| - 1]);
      LcmCommonMultiple(init, BeatsPerMeasureForFraction(offsets[|offsets| - 1]));
      LcmSpec(init, BeatsPerMeasureForFraction(offsets[|offsets| - 1]))
  }

  /** The resolution is a multiple of 4 and of every note's resolution. */
  lemma {:induction false} ResolutionIsCommonMultiple(offsets: seq<int>)
    ensures ResolutionOf(offsets) % 4 == 0
    ensures forall i :: 0 <= i < |offsets| ==> ResolutionOf(offsets) % BeatsPerMeasureForFraction(offsets[i]) == 0
  {
    if |offsets| == 0 {
      ModOfMultiple(1, 4);
    } else {
      var init := offsets[..|offsets| - 1];
      var b := BeatsPerMeasureForFraction(offsets[|offsets| - 1]);
      ResolutionIsCommonMultiple(init);
      var r := ResolutionOf(init);
      var whole := ResolutionOf(offsets);
      assert whole == LcmSpec(r, b);
      LcmCommonMultiple(r, b);
      assert whole % r == 0 && whole % b == 0;
      DivTrans(4, r, whole);
      forall i | 0 <= i < |offsets|
        ensures whole % BeatsPerMeasureForFraction(offsets[i]) == 0
      {
        if i < |init| {
          assert offsets[i] == init[i];
          DivTrans(BeatsPerMeasureForFraction(init[i]), r, whole);
        }
      }
    }
  }

  /** When every note sits on the 96-grid the resolution divides 96. */
  lemma {:induction false} ResolutionDivides96(offsets: seq<int>)
    requires forall i :: 0 <= i < |offsets| ==> 0 <= offsets[i] < 96 && offsets[i] % 4 == 0
    ensures 96 % ResolutionOf(offsets) == 0
  {
    if |offsets| > 0 {
      var init := offsets[..|offsets| - 1];
      var b := BeatsPerMeasureForFraction(offsets[|offsets| - 1]);
      ResolutionDivides96(init);
      BeatsPerMeasureDivides96(offsets[|offsets| - 1]);
      LcmLeast(ResolutionOf(init), b, 96);
    }
  }

  /** The multiples of 4 that divide 96 are all in the table. */
  lemma DivisorsOf96InTable(d: nat)
    requires d > 0 && d % 4 == 0 && 96 % d == 0
    ensures d in PossibleBeatsPerMeasure
  {
    var k := d / 4;
    assert d == 4 * k;
    assert k <= 24 by {
      MulLeDiv(d, 1, 96);
    }
  }

  /** So a measure whose notes all sit on the 96-grid has a resolution in
      the table, and the `FRACTIONS` lookup of line 397 succeeds. */
  lemma ResolutionInTable(offsets: seq<int>)
    requires forall i :: 0 <= i < |offsets| ==> 0 <= offsets[i] < 96 && offsets[i] % 4 == 0
    ensures ResolutionOf(offsets) in PossibleBeatsPerMeasure
  {
    ResolutionDivides96(offsets);
    ResolutionIsCommonMultiple(offsets);
    DivisorsOf96InTable(ResolutionOf(offsets));
  }
}
