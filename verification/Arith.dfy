/** Facts about products and quotients that the solver should not have to rediscover. */
module Arith {
  lemma Distribute(a: int, b: int, c: int)
    ensures (a + b) * c == a * c + b * c
  {
  }

  lemma {:induction false} MulOrder(a: int, b: int, c: int)
    requires a <= b && c >= 0
    ensures a * c <= b * c
    decreases b - a
  {
    if a < b {
      MulOrder(a, b - 1, c);
      Distribute(b - 1, 1, c);
    }
  }

  /** A quotient and remainder are the only ones. */
  lemma DivMod(k: int, q: int, r: int, b: int)
    requires b > 0 && 0 <= r < b && k == q * b + r
    ensures k / b == q && k % b == r
  {
    var q' := k / b;
    assert k == q' * b + k % b;
    if q > q' {
      MulOrder(q' + 1, q, b);
      Distribute(q', 1, b);
    } else if q < q' {
      MulOrder(q + 1, q', b);
      Distribute(q, 1, b);
    }
  }
}
