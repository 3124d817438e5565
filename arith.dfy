/** Facts about Euclidean division that the solver does not find by itself. */
module Arith {
  /** A multiple of a positive `d` strictly between `-d` and `d` is zero. */
  lemma MulZero(d: int, k: int)
    requires d > 0 && -d < d * k < d
    ensures k == 0
  {
    if k >= 1 {
      assert d * k == d * (k - 1) + d;
      MulNonneg(d, k - 1);
    } else if k <= -1 {
      assert d * k == d * (k + 1) - d;
      MulNonneg(d, -(k + 1));
      assert d * -(k + 1) == -(d * (k + 1));
    }
  }

  lemma MulNonneg(a: int, b: int)
    requires a >= 0 && b >= 0
    ensures a * b >= 0
  {
  }

  /** Adding the divisor adds one to the quotient. */
  lemma DivPlus(x: int, d: int)
    requires d > 0
    ensures (x + d) / d == x / d + 1
  {
    var q, r := x / d, x % d;
    var q2, r2 := (x + d) / d, (x + d) % d;
    assert x + d == d * (q + 1) + r;
    assert d * (q2 - (q + 1)) == r - r2;
    MulZero(d, q2 - (q + 1));
  }

  /** The quotient and remainder are the only ones with a remainder in `[0, d)`. */
  lemma DivUnique(x: int, d: int, q: int, r: int)
    requires d > 0 && 0 <= r < d && x == d * q + r
    ensures x / d == q && x % d == r
  {
    assert d * (x / d - q) == r - x % d;
    MulZero(d, x / d - q);
  }
}
