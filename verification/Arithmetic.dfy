/**
 Widths of the counters and fields the kernel shares, and the few facts about
 products and remainders that the other modules need.
 */
module Arithmetic {

  const U16: nat := 0x1_0000
  const U32: nat := 0x1_0000_0000
  const U64: nat := 0x1_0000_0000_0000_0000

  function Bit(p: bool): nat { if p then 1 else 0 }

  lemma MulMonotone(k: nat, a: nat, b: nat)
    requires a <= b
    ensures k * a <= k * b
  {
  }

  lemma MulStep(d: nat, a: nat, b: nat)
    requires a < b
    ensures d * a + d <= d * b
  {
    MulMonotone(d, a + 1, b);
    assert d * (a + 1) == d * a + d;
  }

  lemma SumMod(a: nat, b: nat, d: nat)
    requires d > 0 && a % d == 0
    ensures (a + b) % d == b % d
  {
    var q := a / d;
    assert a + b == d * (q + b / d) + b % d;
    ModUnique(a + b, d, q + b / d, b % d);
  }

  lemma ModUnique(x: nat, d: nat, q: nat, r: nat)
    requires d > 0 && r < d && x == d * q + r
    ensures x % d == r && x / d == q
  {
    var q' := x / d;
    assert x == d * q' + x % d;
    if q < q' { MulStep(d, q, q'); }
    if q' < q { MulStep(d, q', q); }
  }

  lemma ScaleMod(a: nat, k: nat, d: nat)
    requires d > 0 && a % d == 0
    ensures (a * k) % d == 0
  {
    assert a * k == d * ((a / d) * k) + 0 by {
      assert a == d * (a / d);
    }
    ModUnique(a * k, d, (a / d) * k, 0);
  }

  lemma MultipleMod(a: nat, b: nat, d: nat)
    requires d > 0 && b > 0 && b % d == 0 && a % b == 0
    ensures a % d == 0
  {
    assert a == b * (a / b);
    ScaleMod(b, a / b, d);
  }
}
