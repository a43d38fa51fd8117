/** Facts about integer and real arithmetic the grid proofs rely on. */
module Arithmetic {

  /** Cancelling a positive factor from a strict inequality. */
  lemma MulLessCancel(a: int, b: int, s: int)
    requires s > 0 && a * s < b * s
    ensures a < b
  {
    assert (b - a) * s == b * s - a * s;
  }

  /** Multiplying by a non-negative factor keeps the order. */
  lemma MulMono(a: int, b: int, s: int)
    requires a <= b && s >= 0
    ensures a * s <= b * s
  {
    assert b * s - a * s == (b - a) * s;
  }

  /** `k * s <= n` exactly when `k <= n / s`. */
  lemma MulLeDiv(k: nat, s: nat, n: nat)
    requires s > 0
    ensures k * s <= n <==> k <= n / s
  {
    var q := n / s;
    assert n == q * s + n % s;
    if k <= q {
      MulMono(k, q, s);
    }
    if k * s <= n {
      assert k * s < (q + 1) * s;
      MulLessCancel(k, q + 1, s);
    }
  }

  /** Multiplying by a positive factor keeps a strict order. */
  lemma MulLessCancelRev(a: int, b: int, s: int)
    requires a < b && s > 0
    ensures a * s < b * s
  {
    assert b * s - a * s == (b - a) * s;
  }

  /** A multiple of `s` leaves no remainder. */
  lemma ModOfMultiple(k: int, s: int)
    requires s > 0
    ensures (k * s) % s == 0 && (k * s) / s == k
  {
    var q := (k * s) / s;
    var m := (k * s) % s;
    assert k * s == q * s + m;
    assert (k - q) * s == m;
    MulLessCancel(k - q, 1, s);
    MulLessCancel(-1, k - q, s);
  }

  /** Euclidean division is unique: a quotient and remainder in range are
      the quotient and remainder. */
  lemma DivModUnique(n: int, d: int, q: int, r: int)
    requires d > 0 && 0 <= r < d && n == q * d + r
    ensures n / d == q && n % d == r
  {
    var q' := n / d;
    var r' := n % d;
    assert n == q' * d + r';
    assert (q - q') * d == r' - r;
    MulLessCancel(q - q', 1, d);
    MulLessCancel(-1, q - q', d);
  }

  /** The floor of a real is the integer just at or below it. */
  lemma FloorIs(x: real, q: int)
    requires q as real <= x < q as real + 1.0
    ensures x.Floor == q
  {
  }

  /** A combination of two multiples of `e` is a multiple of `e`. */
  lemma DivLinear(e: int, x: int, y: int, c: int, d: int)
    requires e > 0 && x % e == 0 && y % e == 0
    ensures (c * x + d * y) % e == 0
  {
    var p := x / e;
    var q := y / e;
    assert x == p * e;
    assert y == q * e;
    assert c * x + d * y == (c * p + d * q) * e;
    ModOfMultiple(c * p + d * q, e);
  }

  /** Divisibility is transitive. */
  lemma DivTrans(a: int, b: int, c: int)
    requires a > 0 && b > 0 && b % a == 0 && c % b == 0
    ensures c % a == 0
  {
    var p := b / a;
    var q := c / b;
    assert b == p * a;
    assert c == q * b;
    assert c == (q * p) * a;
    ModOfMultiple(q * p, a);
  }

  /** Euclidean division and remainder recompose the dividend. */
  lemma DivMod(x: int, y: int)
    requires y != 0
    ensures x == (x / y) * y + x % y
  {
  }

  /** Multiplication distributes over addition. */
  lemma MulDistrib(a: int, b: int, c: int)
    ensures (a + b) * c == a * c + b * c
  {
  }

  /** Multiplication is associative. */
  lemma MulAssoc(a: int, b: int, c: int)
    ensures a * (b * c) == (a * b) * c
  {
  }
}
