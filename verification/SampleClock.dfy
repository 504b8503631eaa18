/**
 * Conversion between sample counts and microseconds.
 *
 * The program computes both directions in double precision and rounds half
 * away from zero; here the quotients are exact rationals, so a conversion is a
 * rounded integer division.
 */
module SampleClock {

  const MICROS_PER_SECOND: nat := 1_000_000

  /** a / b rounded to the nearest integer, halves upwards (a is never negative). */
  function RoundDiv(a: nat, b: nat): nat
    requires b > 0
  {
    DivisionBounds(2 * a + b, 2 * b);
    (2 * a + b) / (2 * b)
  }

  /** The rounded quotient is within half a divisor of a / b, the upper half excluded. */
  lemma {:induction false} RoundDivBounds(a: nat, b: nat)
    requires b > 0
    ensures var r := RoundDiv(a, b); 2 * b * r <= 2 * a + b < 2 * b * r + 2 * b
  {
    DivisionBounds(2 * a + b, 2 * b);
  }

  lemma {:induction false} DivisionBounds(x: nat, d: nat)
    requires d > 0
    ensures x / d >= 0
    ensures d * (x / d) <= x < d * (x / d) + d
  {
    assert x == d * (x / d) + x % d;
  }

  /** Duration of `len` samples, as `finished_run` and `push_run` report it. */
  function Micros(len: nat, rate: nat): nat
    requires rate > 0
  {
    RoundDiv(len * MICROS_PER_SECOND, rate)
  }

  /** Number of samples a duration takes. */
  function Samples(us: nat, rate: nat): nat {
    RoundDiv(us * rate, MICROS_PER_SECOND)
  }

  /** A duration floor in samples, never zero: `min_samples` and `gap_samples`. */
  function AtLeastOneSample(us: int, rate: nat): (n: nat)
    ensures n >= 1
  {
    if us < 0 then 1 else
    var n := Samples(us, rate);
    if n < 1 then 1 else n
  }

  /** The rounded quotient is the only integer within half a divisor of a / b. */
  lemma {:induction false} RoundDivUnique(a: nat, b: nat, r: nat)
    requires b > 0
    requires 2 * b * r <= 2 * a + b < 2 * b * r + 2 * b
    ensures RoundDiv(a, b) == r
  {
    var q := RoundDiv(a, b);
    RoundDivBounds(a, b);
    SpacedMultiples(q, r, 2 * b);
    SpacedMultiples(r, q, 2 * b);
  }

  lemma {:induction false} MulMonotone(x: int, y: int, k: nat)
    requires x <= y
    ensures k * x <= k * y
    ensures x * k <= y * k
  {
  }

  /** Distinct multiples of k are at least k apart. */
  lemma {:induction false} SpacedMultiples(x: nat, y: nat, k: nat)
    ensures x < y ==> k * x + k <= k * y
  {
    if x < y {
      MulMonotone(x + 1, y, k);
      assert k * (x + 1) == k * x + k;
    }
  }

  lemma {:induction false} RoundDivMonotone(a: nat, a': nat, b: nat)
    requires b > 0 && a <= a'
    ensures RoundDiv(a, b) <= RoundDiv(a', b)
  {
    RoundDivBounds(a, b);
    RoundDivBounds(a', b);
    SpacedMultiples(RoundDiv(a', b), RoundDiv(a, b), 2 * b);
  }

  lemma {:induction false} MicrosMonotone(len: nat, len': nat, rate: nat)
    requires rate > 0 && len <= len'
    ensures Micros(len, rate) <= Micros(len', rate)
  {
    RoundDivMonotone(len * MICROS_PER_SECOND, len' * MICROS_PER_SECOND, rate);
  }

  lemma {:induction false} SamplesMonotone(us: nat, us': nat, rate: nat)
    requires us <= us'
    ensures Samples(us, rate) <= Samples(us', rate)
  {
    MulMonotone(us, us', rate);
    RoundDivMonotone(us * rate, us' * rate, MICROS_PER_SECOND);
  }

  /** At one sample per microsecond or more, a duration survives being turned into samples and back. */
  lemma {:induction false} MicrosOfSamples(us: nat, rate: nat)
    requires rate >= MICROS_PER_SECOND
    ensures Micros(Samples(us, rate), rate) == us
  {
    var m, s := MICROS_PER_SECOND, Samples(us, rate);
    var x := us * rate;
    RoundDivBounds(x, m);
    assert 2 * m * s <= 2 * x + m < 2 * m * s + 2 * m;
    var y := s * m;
    assert 2 * m * s == 2 * y;
    assert 2 * rate * us == 2 * x;
    if rate == m {
      assert x == us * m;
      assert s == us;
    }
    RoundDivUnique(y, rate, us);
  }

  /** A floor of n samples is a floor of the microseconds it was computed from. */
  lemma {:induction false} FloorInMicros(us: nat, len: nat, rate: nat)
    requires rate >= MICROS_PER_SECOND
    requires len >= AtLeastOneSample(us, rate)
    ensures Micros(len, rate) >= us
  {
    MicrosOfSamples(us, rate);
    MicrosMonotone(Samples(us, rate), len, rate);
  }

  /** A floor above one sample is a floor of at least one whole microsecond. */
  lemma {:induction false} LongFloorIsPositive(us: int, len: nat, rate: nat)
    requires rate >= MICROS_PER_SECOND
    requires AtLeastOneSample(us, rate) >= 2
    requires len >= AtLeastOneSample(us, rate)
    ensures Micros(len, rate) >= 1
  {
    assert Samples(0, rate) == 0;
    FloorInMicros(us, len, rate);
  }
}
