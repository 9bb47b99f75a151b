/** A quotient pinned down by its bounds. */
module Arithmetic {
  lemma {:induction false} MulBefore(a: nat, b: nat, d: nat)
    ensures a < b ==> a * d + d <= b * d
  {
    if a + 1 < b {
      MulBefore(a, b - 1, d);
      assert b * d == (b - 1) * d + d;
    }
  }

  lemma QuotientFromBounds(n: nat, d: nat, q: nat)
    requires d >= 1 && q * d <= n < q * d + d
    ensures n / d == q
  {
    var p := n / d;
    assert p * d <= n < p * d + d;
    MulBefore(p, q, d);
    MulBefore(q, p, d);
  }

  /** Fewer than `n` apart, two numbers never share a residue. */
  lemma SameResidue(a: nat, b: nat, n: nat)
    requires n > 0 && a < b < a + n
    ensures a % n != b % n
  {
    MulBefore(a / n, b / n, n);
    MulBefore(b / n, a / n, n);
  }

  lemma ResidueOfSum(q: nat, r: nat, n: nat)
    requires r < n
    ensures (q * n + r) % n == r
  {
    var m := q * n + r;
    if m / n < q { MulBefore(m / n, q, n); }
    if m / n > q { MulBefore(q, m / n, n); }
  }

  /** One wrap-around of an index. */
  lemma Wrap(x: nat, n: nat)
    requires n > 0 && x < 2 * n
    ensures x % n == if x < n then x else x - n
  {
    if x < n { ResidueOfSum(0, x, n); } else { ResidueOfSum(1, x - n, n); }
  }

  /** Reducing modulo a multiple of `n` first changes no residue modulo `n`. */
  lemma ResidueOfResidue(a: nat, k: nat, n: nat)
    requires n > 0 && k > 0
    ensures k * n > 0 && a % (k * n) % n == a % n
  {
    MulBefore(0, k, n);
    var m := k * n;
    Divided(a, m);
    Divided(a % m, n);
    NestedSum(a / m, k, a % m / n, a % m % n, n);
  }

  lemma NestedSum(q: nat, k: nat, s: nat, t: nat, n: nat)
    requires t < n
    ensures (q * (k * n) + (s * n + t)) % n == t
  {
    Factors(q, k, n);
    Gathers(q * k, s, n);
    ResidueOfSum(q * k + s, t, n);
  }

  lemma Divided(a: nat, m: nat)
    requires m > 0
    ensures a == a / m * m + a % m
  {
  }

  lemma Factors(q: nat, k: nat, n: nat)
    ensures q * (k * n) == (q * k) * n
  {
  }

  lemma Gathers(x: nat, y: nat, n: nat)
    ensures x * n + y * n == (x + y) * n
  {
  }
}
