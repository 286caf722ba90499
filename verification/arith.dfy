// Small facts about products and quotients of naturals.
module Arith {

  lemma MulMono(a: nat, b: nat, c: nat)
    requires a <= b
    ensures a * c <= b * c
  {
  }

  lemma DivBounds(n: nat, d: nat)
    requires d > 0
    ensures n / d >= 0
    ensures n / d * d <= n < n / d * d + d
  {
  }

  lemma QuotientUnique(n: nat, d: nat, q: nat)
    requires d > 0 && q * d <= n < q * d + d
    ensures n / d == q
  {
    DivBounds(n, d);
    var r := n / d;
    if r < q {
      MulMono(r + 1, q, d);
    } else if q < r {
      MulMono(q + 1, r, d);
    }
  }

  lemma DivMono(m: nat, n: nat, d: nat)
    requires m <= n && d > 0
    ensures m / d <= n / d
  {
    DivBounds(m, d);
    DivBounds(n, d);
    if m / d > n / d {
      MulMono(n / d + 1, m / d, d);
    }
  }

  lemma DivMulExact(n: nat, d: nat)
    requires d > 0
    ensures n * d / d == n
  {
    QuotientUnique(n * d, d, n);
  }
}
