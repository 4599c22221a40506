/** Error numbers, which functions return negated, unsigned 32-bit arithmetic, and a few
  facts about products and quotients. */
module Kernel {
  const ENOENT: int := 2
  const ENOMEM: int := 12
  const EBUSY: int := 16
  const EINVAL: int := 22

  const TWO_TO_THE_32: int := 0x1_0000_0000

  function ToU32(x: int): int { x % TWO_TO_THE_32 }

  // ---- Products and quotients ----------------------------------------------------------

  lemma MulMono(d: nat, a: nat, b: nat)
    requires a <= b
    ensures d * a <= d * b && a * d <= b * d
  {}

  lemma DivAtLeast(x: nat, d: nat, q: nat)
    requires d > 0
    ensures x / d >= q <==> x >= d * q
  {
    var k := x / d;
    assert x == d * k + x % d;
    if k >= q {
      MulMono(d, q, k);
    } else {
      MulMono(d, k + 1, q);
    }
  }

  lemma DivShift(x: nat, d: nat, k: nat)
    requires d > 0
    ensures (x + d * k) / d == x / d + k
  {
    DivAtLeast(x + d * k, d, x / d + k);
    DivAtLeast(x + d * k, d, x / d + k + 1);
    DivAtLeast(x, d, x / d);
    DivAtLeast(x, d, x / d + 1);
    assert d * (x / d + k) == d * (x / d) + d * k;
    assert d * (x / d + k + 1) == d * (x / d + 1) + d * k;
  }

  lemma DivAdds(a: nat, b: nat, d: nat)
    requires d > 0
    ensures a / d + b / d <= (a + b) / d
  {
    var x, y := a / d, b / d;
    DivAtLeast(a, d, x);
    DivAtLeast(b, d, y);
    DivAtLeast(a + b, d, x + y);
    assert d * (x + y) == d * x + d * y;
  }
}
