/** Division and remainders. */
module Arithmetic {
  lemma TimesAtMost(a: int, b: int, d: nat)
    ensures a <= b ==> a * d <= b * d
  {
  }

  lemma Divide(n: nat, d: nat, k: nat)
    requires d > 0 && n < k * d
    ensures n / d < k && n == n / d * d + n % d && n % d < d
  {
    TimesAtMost(k, n / d, d);
  }

  lemma Quotient(n: int, d: nat, q: int, r: nat)
    requires r < d && n == q * d + r
    ensures n / d == q && n % d == r
  {
    var q' := n / d;
    assert n == q' * d + n % d;
    TimesAtMost(q' + 1, q, d);
    TimesAtMost(q + 1, q', d);
    NextMultiple(q, d);
    NextMultiple(q', d);
  }

  lemma NextMultiple(q: int, d: nat)
    ensures (q + 1) * d == q * d + d
  {
  }

  lemma Undivide(q: nat, d: nat, r: nat, k: nat)
    requires r < d && q < k
    ensures (q * d + r) / d == q && (q * d + r) % d == r && q * d + r < k * d
  {
    TimesAtMost(q + 1, k, d);
    NextMultiple(q, d);
    Quotient(q * d + r, d, q, r);
  }

  lemma Congruent(x: nat, y: nat, k: nat, m: nat)
    requires m > 0 && x == y + k * m
    ensures x % m == y % m
  {
    var a, b := x / m, y / m + k;
    assert x == a * m + x % m && x == b * m + y % m by {
      assert (y / m + k) * m == y / m * m + k * m;
    }
    TimesAtMost(a + 1, b, m);
    TimesAtMost(b + 1, a, m);
    NextMultiple(a, m);
    NextMultiple(b, m);
  }

  lemma TimesSplit(v: nat, p: nat, m: nat)
    requires m > 0
    ensures v * p == v * (p % m) + v * (p / m) * m
  {
    var q := p / m;
    Distribute(v, q * m, p % m);
    Associate(v, q, m);
  }

  lemma Distribute(v: nat, a: nat, b: nat)
    ensures v * (a + b) == v * a + v * b
  {
  }

  lemma Associate(v: nat, q: nat, m: nat)
    ensures v * (q * m) == v * q * m
  {
  }

  lemma SumTimes(i: nat, j: nat, k: nat, m: nat)
    ensures (i + j + k) * m == i * m + j * m + k * m
  {
  }
}
