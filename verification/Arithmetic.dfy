/** Division facts that the solver does not find by itself. */
module Arithmetic {

  lemma MulOrder(d: nat, a: int, b: int)
    requires a < b
    ensures d * a + d <= d * b
  {
    assert d * (b - a - 1) >= 0;
    assert d * (b - a - 1) == d * b - d * a - d;
  }

  /** Quotient and remainder are unique. */
  lemma DivUnique(x: int, d: nat, q: int, r: nat)
    requires r < d && x == d * q + r
    ensures x / d == q && x % d == r
  {
    var q', r' := x / d, x % d;
    assert x == d * q' + r';
    if q < q' {
      MulOrder(d, q, q');
    } else if q' < q {
      MulOrder(d, q', q);
    }
  }

  lemma NextMod(n: nat, g: nat)
    requires g > 0
    ensures (n + 1) % g == if n % g + 1 < g then n % g + 1 else 0
  {
    var q := n / g;
    if n % g + 1 < g {
      DivUnique(n + 1, g, q, n % g + 1);
    } else {
      assert g * (q + 1) == g * q + g;
      DivUnique(n + 1, g, q + 1, 0);
    }
  }
}
