/** Bit masks on unsigned words, as arithmetic on natural numbers. */
module BitMask {
  function And(x: nat, m: nat): (r: nat)
    decreases x
  {
    if x == 0 then 0 else (x % 2) * (m % 2) + 2 * And(x / 2, m / 2)
  }

  /** x & ~m */
  function AndNot(x: nat, m: nat): (r: nat)
    decreases x
  {
    if x == 0 then 0 else (x % 2) * (1 - m % 2) + 2 * AndNot(x / 2, m / 2)
  }

  /**
    Clearing the bits of a mask removes exactly the masked part, which is at most the mask, whether
    or not the mask is a block of low bits.
   */
  lemma {:induction false} AndNotSplits(x: nat, m: nat)
    ensures AndNot(x, m) + And(x, m) == x
    ensures And(x, m) <= m
    decreases x
  {
    if x != 0 {
      AndNotSplits(x / 2, m / 2);
      if m % 2 == 0 {
        assert (x % 2) * (m % 2) == 0 && (x % 2) * (1 - m % 2) == x % 2;
      } else {
        assert (x % 2) * (m % 2) == x % 2 && (x % 2) * (1 - m % 2) == 0;
      }
    }
  }
}
