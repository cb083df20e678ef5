/** Facts about products and quotients the bounds rest on. */
module Arithmetic {

  lemma OneMore(n: int, d: int)
    ensures (n + 1) * d == n * d + d
  {
  }

  /** Anything above the quotient, times the divisor, exceeds the dividend. */
  lemma AboveQuotient(n: nat, d: nat, r: nat)
    requires d > 0 && n > r / d
    ensures n * d > r
  {
    assert n * d >= (r / d + 1) * d;
  }

  lemma MultiplesAreFarApart(d: nat, k: int)
    ensures k >= 1 ==> d * k >= d
    ensures k <= -1 ==> d * k + d <= 0
  {
    if k >= 1 {
      assert d * k == d * (k - 1) + d;
    } else if k <= -1 {
      assert d * k == d * (k + 1) - d;
    }
  }

  lemma QuotientOf(x: int, d: nat, q: int, r: nat)
    requires d > 0 && x == d * q + r && r < d
    ensures x / d == q
  {
    MultiplesAreFarApart(d, x / d - q);
    assert d * (x / d - q) == r - x % d;
  }

  /** Adding the divisor raises the quotient by one. */
  lemma QuotientPlusOne(x: int, d: nat)
    requires d > 0
    ensures (x + d) / d == x / d + 1
  {
    assert x == d * (x / d) + x % d;
    assert x + d == d * (x / d + 1) + x % d;
    QuotientOf(x + d, d, x / d + 1, x % d);
  }
}
