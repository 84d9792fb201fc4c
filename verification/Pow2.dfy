/** Powers of two, the word arithmetic that the allocator builds on. */
module Pow2 {

  function P(n: nat): (r: nat)
    ensures r >= 1
  {
    if n == 0 then 1 else 2 * P(n - 1)
  }

  lemma {:induction false} Add(a: nat, b: nat)
    ensures P(a + b) == P(a) * P(b)
  {
    if b > 0 {
      Add(a, b - 1);
      assert P(a + b) == 2 * (P(a) * P(b - 1));
    }
  }

  lemma {:induction false} Mono(a: nat, b: nat)
    requires a <= b
    ensures P(a) <= P(b)
    ensures a < b ==> 2 * P(a) <= P(b)
  {
    if a < b {
      Mono(a, b - 1);
    }
  }

  lemma {:induction false} Exceeds(n: nat)
    ensures n < P(n)
  {
    if n > 0 {
      Exceeds(n - 1);
    }
  }

  lemma Word32()
    ensures P(32) == 0x1_0000_0000
  {
    assert P(8) == 256;
    Add(8, 8);
    Add(16, 16);
  }

  lemma Word64()
    ensures P(64) == 0x1_0000_0000_0000_0000
  {
    Word32();
    Add(32, 32);
  }
}
