/** Waits that double with every failure in a row, up to a ceiling. */
module Backoff {
  import opened Powers

  function Doubled(wait: nat, ceiling: nat): nat {
    if 2 * wait < ceiling then 2 * wait else ceiling
  }

  /** The wait after j failures in a row, starting from `first`. */
  function Widened(first: nat, ceiling: nat, j: nat): (wait: nat)
    requires first <= ceiling
    ensures first <= wait <= ceiling
  {
    if j == 0 then first else Doubled(Widened(first, ceiling, j - 1), ceiling)
  }

  lemma {:induction false} DoubleProduct(x: nat, y: nat)
    ensures x * (2 * y) == 2 * (x * y)
  {
  }

  /** In closed form: the first wait times 2^j, or the ceiling if that is less. */
  lemma {:induction false} WidenedIsPower(first: nat, ceiling: nat, j: nat)
    requires 1 <= first <= ceiling
    ensures Widened(first, ceiling, j) == Capped(first * TwoTo(j), ceiling)
  {
    if j > 0 {
      WidenedIsPower(first, ceiling, j - 1);
      DoubleProduct(first, TwoTo(j - 1));
      DoubledIsCapped(first * TwoTo(j - 1), ceiling);
    }
  }

  function Capped(wait: nat, ceiling: nat): nat {
    if wait < ceiling then wait else ceiling
  }

  lemma {:induction false} DoubledIsCapped(wait: nat, ceiling: nat)
    ensures Doubled(Capped(wait, ceiling), ceiling) == Capped(2 * wait, ceiling)
  {
  }
}
