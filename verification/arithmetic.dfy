/** Products and quotients that the solver needs help with. */
module Arithmetic {
  lemma MulMono(a: int, b: int, c: int)
    requires a <= b && 0 <= c
    ensures a * c <= b * c
  {}

  lemma SmallMultiple(k: int, d: int)
    requires -d < k * d < d
    ensures k == 0
  {
    if k >= 1 {
      MulMono(1, k, d);
    } else if k <= -1 {
      MulMono(k, -1, d);
    }
  }

  lemma DivModOf(q: nat, r: nat, d: nat)
    requires r < d
    ensures (q * d + r) / d == q && (q * d + r) % d == r
  {
    var n := q * d + r;
    var k := n / d;
    assert n == k * d + n % d;
    assert (k - q) * d == k * d - q * d;
    SmallMultiple(k - q, d);
  }
}
