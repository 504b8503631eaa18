/** Request ids: the decimal notation of a counter. */
module Ids {
  import opened Sequences

  function Digit(d: nat): (c: char)
    requires d < 10
  {
    '0' + d as char
  }

  /** The notation without leading zeros that `str` gives. */
  function Decimal(n: nat): (s: string)
    ensures s != []
  {
    if n < 10 then [Digit(n)] else Decimal(n / 10) + [Digit(n % 10)]
  }

  /** The id of the k-th request, counting from zero. */
  function IdOf(k: nat): string {
    Decimal(k + 1)
  }

  /** The number a string of digits stands for. */
  function Number(s: string): nat {
    if s == [] then 0 else 10 * Number(Front(s)) + DigitValue(Last(s))
  }

  function DigitValue(c: char): nat {
    if '0' <= c <= '9' then c as int - '0' as int else 0
  }

  /** The notation of a number stands for it, in digits only, and begins with a zero only if it is zero. */
  lemma {:induction false} DecimalReads(n: nat)
    ensures Number(Decimal(n)) == n
    ensures forall i :: 0 <= i < |Decimal(n)| ==> '0' <= Decimal(n)[i] <= '9'
    ensures Decimal(n)[0] == '0' ==> n == 0
  {
    assert DigitValue(Digit(n % 10)) == n % 10;
    if n >= 10 {
      DecimalReads(n / 10);
      assert Front(Decimal(n)) == Decimal(n / 10);
    } else {
      assert Front(Decimal(n)) == [];
    }
  }

  /** Different counts have different notations. */
  lemma {:induction false} DecimalInjective(a: nat, b: nat)
    requires Decimal(a) == Decimal(b)
    ensures a == b
  {
    DecimalReads(a);
    DecimalReads(b);
  }

  /** Ids are never reused, nor is the greeting's among them. */
  lemma {:induction false} IdsDiffer(j: nat, k: nat)
    ensures IdOf(j) == IdOf(k) ==> j == k
    ensures IdOf(k) != "hello"
  {
    if IdOf(j) == IdOf(k) {
      DecimalInjective(j + 1, k + 1);
    }
    DecimalReads(k + 1);
    assert "hello"[0] == 'h';
  }
}
