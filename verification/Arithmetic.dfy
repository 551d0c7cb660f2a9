/** Facts about products and quotients of variables. */
module Arithmetic {

  lemma Product(k: nat, r: nat)
    ensures (k + 1) * r == k * r + r
  {
  }

  lemma ProductGrows(a: nat, b: nat, r: nat)
    requires a <= b
    ensures a * r <= b * r
  {
  }

  lemma QuotientBound(n: nat, d: nat, m: nat)
    requires d > 0 && n * d <= m
    ensures n <= m / d
  {
    var k := m / d;
    assert m < k * d + d;
    if k + 1 <= n { ProductGrows(k + 1, n, d); }
  }

  /** Division rounding up: `k` steps of `r` cover `d` exactly from ceil(d / r) on. */
  lemma StepsCover(k: nat, r: nat, d: nat)
    requires r > 0
    ensures k * r >= d <==> k >= (d + r - 1) / r
  {
    var c := (d + r - 1) / r;
    assert c * r < d + r && c * r >= d by { assert (d + r - 1) == c * r + (d + r - 1) % r; }
    if k < c { ProductGrows(k + 1, c, r); Product(k, r); } else { ProductGrows(c, k, r); }
  }
}
