/** Facts about products that the size bounds and the ceiling quotient lean on. */
module Arith {
  /** Adding one more row of `k` to `n - 1` rows. */
  lemma MulStep(n: nat, k: nat)
    requires n > 0
    ensures (n - 1) * k + k == n * k
  {
  }

  /** Multiplication by a natural keeps the order. */
  lemma MulMonotone(a: nat, b: nat, k: nat)
    requires a <= b
    ensures a * k <= b * k && k * a <= k * b
  {
  }

  /** A strict inequality between multiples of a positive number holds between the factors. */
  lemma MulCancelLess(x: int, y: int, d: int)
    requires d > 0 && x * d < y * d
    ensures x < y
  {
    assert (y - x) * d == y * d - x * d;
  }
}
