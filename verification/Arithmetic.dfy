/** Products and quotients that the solver needs spelled out. */
module Arithmetic {
  lemma Distribute(n: int, d: int)
    ensures (n + 1) * d == n * d + d
  {
  }

  lemma ProductMonotone(k: nat, x: int, y: int)
    requires x <= y
    ensures k * x <= k * y
  {
  }

  lemma ScaleUp(x: real, y: real, d: real)
    requires x < y && d > 0.0
    ensures x * d < y * d
  {
    assert (y - x) * d > 0.0;
  }

  lemma QuotientSign(x: real, d: real)
    requires d > 0.0 && 0.0 <= x
    ensures 0.0 <= x / d
  {
  }

  lemma QuotientSteps(x: real, y: real, d: real)
    requires d > 0.0 && x + d <= y
    ensures x / d + 1.0 <= y / d
  {
    var p, q := x / d, y / d;
    assert p * d == x && q * d == y;
    assert (p + 1.0) * d == x + d;
    if q < p + 1.0 {
      ScaleUp(q, p + 1.0, d);
    }
  }
}
