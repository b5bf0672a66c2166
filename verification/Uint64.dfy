/** Unsigned 64-bit arithmetic, which wraps around. */
module Uint64 {

  const TWO_TO_64: nat := 0x1_0000_0000_0000_0000

  function Wrap(n: int): (w: nat)
    ensures w < TWO_TO_64
  {
    n % TWO_TO_64
  }

  lemma WrapAdd(a: int, v: int)
    ensures Wrap(Wrap(a) + v) == Wrap(a + v)
  {
  }

  /** The difference of two wrapped counters is the true one, if that fits. */
  lemma WrappedDifference(a: nat, b: nat)
    requires 0 <= b - a < TWO_TO_64
    ensures Wrap(Wrap(b) - Wrap(a)) == b - a
  {
  }
}
