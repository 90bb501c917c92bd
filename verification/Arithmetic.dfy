/** Products and quotients of naturals. */
module Arithmetic {

  lemma MulMonotone(a: int, b: int, d: nat)
    ensures a <= b ==> a * d <= b * d
  {
    if a <= b { assert (b - a) * d >= 0; }
  }

  lemma MulSwap(a: nat, b: nat, c: nat)
    ensures a * (b * c) == b * (a * c)
  {
  }

  /** A quotient and its remainder are unique. */
  lemma Quotient(x: nat, d: nat, q: nat, r: nat)
    requires d > 0 && x == q * d + r && r < d
    ensures x / d == q && x % d == r
  {
    assert x == (x / d) * d + x % d;
    MulMonotone(x / d + 1, q, d);
    MulMonotone(q + 1, x / d, d);
    assert (x / d + 1) * d == (x / d) * d + d && (q + 1) * d == q * d + d;
  }

  lemma QuotientAtLeast(x: nat, d: nat, k: nat)
    requires d > 0 && x >= k * d
    ensures x / d >= k
  {
    assert x == (x / d) * d + x % d;
    MulMonotone(x / d + 1, k, d);
    assert (x / d + 1) * d == (x / d) * d + d;
  }

  lemma QuotientMonotone(x: nat, y: nat, d: nat)
    requires d > 0 && x <= y
    ensures x / d <= y / d
  {
    assert x == (x / d) * d + x % d;
    QuotientAtLeast(y, d, x / d);
  }
}
