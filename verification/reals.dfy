/** Facts about products of reals that the percentage and split proofs rest on. */
module Reals {

  /** Multiplying by a positive number keeps the sign. */
  lemma PositiveFactorSign(x: real, t: real)
    requires t > 0.0
    ensures x * t >= 0.0 <==> x >= 0.0
    ensures x * t > 0.0 <==> x > 0.0
  {
    if x < 0.0 {
      assert -x > 0.0;
      assert (-x) * t > 0.0;
    }
  }

  /** n copies of a added up. */
  function Repeated(n: nat, a: real): real {
    if n == 0 then 0.0 else a + Repeated(n - 1, a)
  }

  /** Adding n copies of a is multiplying a by n. */
  lemma {:induction false} RepeatedIsProduct(n: nat, a: real)
    ensures Repeated(n, a) == (n as real) * a
  {
    if n > 0 {
      RepeatedIsProduct(n - 1, a);
      assert (n as real) * a == a + ((n - 1) as real) * a;
    }
  }
}
