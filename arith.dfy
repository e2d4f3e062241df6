/** Facts about multiplication that the floor-division proofs rely on. */
module Arith {

  lemma MulMonotone(a: nat, b: int, c: int)
    requires b <= c
    ensures a * b <= a * c
  {
  }

  /** Cancelling a positive factor from a strict inequality. */
  lemma MulCancelLess(a: int, b: int, c: int)
    requires 0 < c && a * c < b * c
    ensures a < b
  {
    if a >= b {
      MulMonotone(c, b, a);
    }
  }
}
