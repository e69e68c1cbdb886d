/** Facts about quotients by a variable divisor. */
module Arithmetic {
  lemma AtLeast(k: int, m: nat)
    ensures k >= 1 ==> k * m >= m
  {
    if k >= 1 {
      assert k * m == (k - 1) * m + m;
    }
  }

  lemma SameQuotient(m: nat, q: nat, p: nat, r: nat, s: nat)
    requires q * m + r == p * m + s && r < m && s < m
    ensures q == p && r == s
  {
    AtLeast(p - q, m);
    AtLeast(q - p, m);
    assert (p - q) * m == p * m - q * m && (q - p) * m == q * m - p * m;
  }

  lemma QuotRem(x: nat, m: nat, q: nat, r: nat)
    requires x == q * m + r && r < m
    ensures x / m == q && x % m == r
  {
    SameQuotient(m, q, x / m, r, x % m);
  }

  lemma QuotientsOrdered(x: nat, y: nat, m: nat)
    requires x <= y && m > 0
    ensures x / m <= y / m
  {
    AtLeast(x / m - y / m, m);
    assert (x / m - y / m) * m == x / m * m - y / m * m;
  }
}
