/** Quotients and remainders of ring positions. */
module Modular {
  lemma {:induction false} MulStep(a: nat, b: nat, d: nat)
    requires d > 0
    ensures a < b ==> a * d + d <= b * d
    decreases b
  {
    if a < b {
      MulStep(a, b - 1, d);
      assert b * d == (b - 1) * d + d;
    }
  }

  lemma Unique(n: nat, d: nat, q: nat, r: nat)
    requires d > 0 && n == q * d + r && r < d
    ensures n / d == q && n % d == r
  {
    MulStep(q, n / d, d);
    MulStep(n / d, q, d);
  }

  lemma OneMore(n: nat, d: nat)
    requires d > 0
    ensures (n + d) % d == n % d && (n + d) / d == n / d + 1
  {
    Unique(n + d, d, n / d + 1, n % d);
  }

  lemma {:induction false} AddMultiple(n: nat, k: nat, d: nat)
    requires d > 0
    ensures (n + k * d) % d == n % d && (n + k * d) / d == n / d + k
    decreases k
  {
    if k > 0 {
      AddMultiple(n, k - 1, d);
      var m := n + (k - 1) * d;
      assert n + k * d == m + d;
      OneMore(m, d);
    }
  }

  /** Numbers less than `d` apart have different remainders. */
  lemma RemaindersDiffer(m: nat, n: nat, d: nat)
    requires d > 0 && m < n < m + d
    ensures m % d != n % d
  {
    MulStep(m / d, n / d, d);
    MulStep(n / d, m / d, d);
  }

  /** A step taken from a remainder is a step taken from the number. */
  lemma RemainderStep(m: nat, n: nat, d: nat)
    requires d > 0
    ensures (m % d + n) % d == (m + n) % d
  {
    assert m + n == (m % d + n) + m / d * d;
    AddMultiple(m % d + n, m / d, d);
  }
}
