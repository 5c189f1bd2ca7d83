/**
 * Small facts about integer multiplication, division and remainder, kept apart so that
 * each proof that needs one sees no other non-linear arithmetic.
 */
module Arith {
  lemma Distrib(x: int, y: int, z: int)
    ensures (x + y) * z == x * z + y * z
  {
  }

  lemma MulAssoc(x: int, y: int, z: int)
    ensures (x * y) * z == x * (z * y)
  {
  }

  lemma MulGe(a: int, k: int)
    requires a >= 1 && k > 0
    ensures a * k >= k
  {
  }

  /** The quotient and remainder of `x` by `d` are the only decomposition with a
      remainder in [0, d). */
  lemma DivModUnique(x: int, d: int, q: int, r: int)
    requires d > 0 && 0 <= r < d && x == q * d + r
    ensures x / d == q && x % d == r
  {
    var q', r' := x / d, x % d;
    Distrib(q, -q', d);
    if q > q' { MulGe(q - q', d); }
    if q < q' { MulGe(q' - q, d); }
  }

  /** `(x // a) // b == x // (a * b)` for positive `a` and `b`. */
  lemma DivDiv(x: int, a: int, b: int)
    requires a > 0 && b > 0
    ensures (x / a) / b == x / (a * b)
  {
    var q, r := x / a, x % a;
    var q2, r2 := q / b, q % b;
    MulAssoc(q2, b, a);
    Distrib(q2 * b, r2, a);
    Distrib(b - r2 - 1, r2 + 1, a);
    MulGe(b - r2, a);
    Distrib(b - r2, r2, a);
    DivModUnique(x, a * b, q2, r2 * a + r);
  }
}
