/** Quotients and remainders by numbers that are not known. */
module Arithmetic {

  lemma DivideByTenFirst(n: nat, p: nat)
    requires p > 0
    ensures n / (10 * p) == n / 10 / p
  {
    var q, r := n / 10 / p, n / 10 % p;
    assert n / 10 == q * p + r;
    assert n == 10 * (q * p + r) + n % 10;
    assert 10 * (q * p + r) == q * (10 * p) + 10 * r;
    assert 0 <= 10 * r + n % 10 < 10 * p;
    QuotientIs(n, 10 * p, q, 10 * r + n % 10);
  }

  lemma QuotientIs(n: nat, d: nat, q: nat, r: nat)
    requires d > 0 && n == q * d + r && r < d
    ensures n / d == q && n % d == r
  {
    var p := n / d;
    assert n == p * d + n % d;
    if q < p {
      MoreTimes(q + 1, p, d);
    } else if p < q {
      MoreTimes(p + 1, q, d);
    }
  }

  lemma MoreTimes(a: nat, b: nat, d: nat)
    requires 1 <= a <= b
    ensures (a - 1) * d + d <= b * d
  {
    assert (a - 1) * d + d == a * d;
    assert a * d <= b * d;
  }
}
