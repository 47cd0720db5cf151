/** Facts about products and quotients that the solver does not find by itself. */
module Arithmetic {
  lemma Product(a: int, b: int, k: nat)
    requires a <= b
    ensures a * k <= b * k
  {
  }

  /** A quotient and a remainder below the divisor are the quotient and the remainder. */
  lemma DivisionIsUnique(x: int, k: nat, q: int, r: nat)
    requires x == q * k + r && r < k
    ensures x / k == q && x % k == r
  {
    var p := x / k;
    assert p * k <= x < p * k + k;
    assert (p + 1) * k == p * k + k && (q + 1) * k == q * k + k;
    if p < q {
      Product(p + 1, q, k);
    }
    if p > q {
      Product(q + 1, p, k);
    }
  }

  lemma RealProduct(a: real, b: real, k: real)
    requires a < b && k > 0.0
    ensures a * k < b * k
  {
  }
}
