/** Quotient and remainder of variable divisors. */
module Division {

  lemma AtLeastOnce(k: nat, n: nat)
    requires 0 < k
    ensures n <= k * n
  {
    assert k * n == (k - 1) * n + n;
  }

  lemma QuotientIs(x: nat, n: nat, q: nat, r: nat)
    requires r < n && x == q * n + r
    ensures x / n == q && x % n == r
  {
    var q', r' := x / n, x % n;
    assert x == q' * n + r';
    if q' < q {
      AtLeastOnce(q - q', n);
    } else if q < q' {
      AtLeastOnce(q' - q, n);
    }
  }

  lemma OneMoreFits(x: nat, n: nat)
    requires 0 < n
    ensures (x + n) / n == x / n + 1
  {
    var q, r := x / n, x % n;
    assert x == q * n + r;
    assert (q + 1) * n == q * n + n;
    QuotientIs(x + n, n, q + 1, r);
  }

  /** A sum can be reduced before adding. */
  lemma AddInside(x: nat, y: nat, n: nat)
    requires 0 < n
    ensures (x + y) % n == (x % n + y) % n
  {
    var q, r := x / n, x % n;
    var q', r' := (r + y) / n, (r + y) % n;
    assert x == q * n + r && r + y == q' * n + r';
    assert (q + q') * n == q * n + q' * n;
    QuotientIs(x + y, n, q + q', r');
  }
}
