/** Quotients and remainders. */
module Arithmetic {

  lemma Multiple(k: int, d: int)
    requires d > 0
    ensures k >= 1 ==> k * d >= d
    ensures k <= -1 ==> k * d <= -d
  {}

  lemma Remainder(h: nat, d: nat, q: nat, r: nat)
    requires d > 0 && r < d && h == q * d + r
    ensures h % d == r
  {
    var k := h / d - q;
    assert k * d == r - h % d;
    Multiple(k, d);
  }
}
