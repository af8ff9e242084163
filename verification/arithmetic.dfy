/** Division of natural numbers, as the number formats need it. */
module Arithmetic {
  lemma DivUnique(n: nat, d: nat, q: nat, r: nat)
    requires d > 0 && n == d * q + r && r < d
    ensures n / d == q
  {
    var q', r' := n / d, n % d;
    assert n == d * q' + r';
    MulStep(d, q, q');
    MulStep(d, q', q);
  }

  lemma MulStep(d: nat, a: nat, b: nat)
    ensures a < b ==> d * a + d <= d * b
  {
    if a < b {
      var rest: nat := b - a - 1;
      assert b == a + 1 + rest;
      assert d * (a + 1 + rest) == d * a + d + d * rest;
    }
  }

  /** Dividing twice is dividing by the product. */
  lemma DivTwice(n: nat, a: nat, p: nat)
    requires a > 0 && p > 0
    ensures a * p > 0 && n / a / p == n / (a * p)
  {
    var m := n / a;
    var q, r := m / p, m % p;
    MulStep(a, 0, p);
    MulStep(a, r, p);
    DivMod(n, a);
    DivMod(m, p);
    Distribute(a, p, q, r);
    DivUnique(n, a * p, q, a * r + n % a);
  }

  lemma DivMod(n: nat, d: nat)
    requires d > 0
    ensures n == d * (n / d) + n % d
  {
  }

  lemma Distribute(a: nat, p: nat, q: nat, r: nat)
    ensures a * (p * q + r) == (a * p) * q + a * r
  {
    var t := p * q;
    assert a * (t + r) == a * t + a * r;
    assert a * (p * q) == (a * p) * q;
  }

  lemma DivSmaller(n: nat, p: nat)
    requires p > 0
    ensures n / p <= n
  {
    assert n == p * (n / p) + n % p;
    MulStep(n / p, 0, p);
  }
}
