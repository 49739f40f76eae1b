/** The few facts about products the solver has to be told. */
module Arithmetic {

  function Max(x: real, y: real): real { if x >= y then x else y }

  lemma Product(x: real, y: real)
    requires x >= 0.0 && y >= 0.0
    ensures x * y >= 0.0
  {
  }

  lemma Scale(x: real, y: real, d: real)
    requires d > 0.0
    ensures x <= y ==> x * d <= y * d
  {
    if x <= y {
      Product(y - x, d);
      assert (y - x) * d == y * d - x * d;
    }
  }

  /** Scaling whole numbers of ticks. */
  lemma Times(k: int, n: int, d: real)
    requires d > 0.0
    ensures k <= n ==> k as real * d <= n as real * d
  {
    Scale(k as real, n as real, d);
  }

  lemma OneMore(k: nat, d: real)
    ensures (k + 1) as real * d == k as real * d + d
  {
  }

  lemma Monotone(j: int, k: int, d: int)
    requires d >= 0
    ensures j <= k ==> j * d <= k * d
  {
    if j <= k {
      assert (k - j) * d >= 0;
      assert k * d == j * d + (k - j) * d;
    }
  }
}
