/**
 * Transmit requests: their air time in saturating 64-bit arithmetic, and what
 * the daemon refuses.
 */
module Wire {
  import opened Wrappers
  import Radio
  import opened SampleClock
  import opened Sequences
  import opened Iq
  import opened Render

  const I64_MAX: int := 0x7FFF_FFFF_FFFF_FFFF
  const I64_MIN: int := -0x8000_0000_0000_0000
  const TWO_TO_64: int := 0x1_0000_0000_0000_0000
  const U32_MAX: nat := 0xFFFF_FFFF

  type I64 = x: int | I64_MIN <= x <= I64_MAX
  type U32 = x: nat | x <= U32_MAX

  const MAX_TIMINGS: nat := 8192
  const MAX_AIR_TIME_US: int := 30_000_000
  const MIN_FREQUENCY: nat := 1_000_000
  const MAX_FREQUENCY: nat := 6_000_000_000

  function Clamp(x: int): I64 {
    if x > I64_MAX then I64_MAX else if x < I64_MIN then I64_MIN else x
  }

  /** Two's complement: what a plain multiplication of two 32-bit numbers leaves in 64 signed bits. */
  function Wrap(product: nat): I64
    requires product < TWO_TO_64
  {
    if product > I64_MAX then product - TWO_TO_64 else product
  }

  /** A transmit request as it comes off the wire. */
  datatype Transmit =
    Transmit(frequency: nat, timings: seq<I64>, repeat: U32, gapUs: U32, txvgaDb: Option<nat>)

  datatype Invalid =
    | Empty
    | ZeroTiming
    | TooManyTimings(count: nat)
    | FrequencyOutOfRange(frequency: nat)
    | AirTimeTooLong(durationUs: int)
    | GainTooHigh(txvgaDb: nat)

  datatype Outcome = Valid | Refused(why: Invalid)

  /** The saturating sum of the saturating magnitudes. */
  function FrameTime(timings: seq<I64>): (total: int)
    ensures 0 <= total <= I64_MAX
  {
    if timings == [] then 0 else Clamp(FrameTime(Front(timings)) + Clamp(Abs(Last(timings))))
  }

  /** The time of all gaps, before it is wrapped. */
  function GapTime(request: Transmit): (us: nat)
    ensures us < TWO_TO_64
  {
    ProductBound(request.repeat, request.gapUs);
    request.repeat * request.gapUs
  }

  lemma {:induction false} ProductBound(x: U32, y: U32)
    ensures x * y < TWO_TO_64
  {
    MulMonotone(x, U32_MAX, y);
    MulMonotone(y, U32_MAX, U32_MAX);
  }

  /** Total air time as the daemon computes it. */
  function AirTime(request: Transmit): I64 {
    Clamp(Clamp(FrameTime(request.timings) * (request.repeat + 1)) + Wrap(GapTime(request)))
  }

  function Validate(request: Transmit): Outcome {
    if request.timings == [] then Refused(Empty)
    else if |request.timings| > MAX_TIMINGS then Refused(TooManyTimings(|request.timings|))
    else if 0 in request.timings then Refused(ZeroTiming)
    else if !(MIN_FREQUENCY <= request.frequency <= MAX_FREQUENCY) then Refused(FrequencyOutOfRange(request.frequency))
    else if request.txvgaDb.Some? && request.txvgaDb.value > Radio.MAX_TX_GAIN then
      Refused(GainTooHigh(request.txvgaDb.value))
    else if AirTime(request) > MAX_AIR_TIME_US then Refused(AirTimeTooLong(AirTime(request)))
    else Valid
  }

  // ----- against unbounded arithmetic -----

  /** How long the request really is on the air. */
  function TrueAirTime(request: Transmit): nat {
    Duration(Transmission(request.timings, request.repeat, request.gapUs))
  }

  /** The time of all frames. */
  function FramesTime(request: Transmit): nat {
    Duration(request.timings) * (request.repeat + 1)
  }

  /** The product of repeats and gap is within 64 bits, so nothing wraps. */
  predicate GapsFit(request: Transmit) {
    GapTime(request) <= I64_MAX
  }

  lemma {:induction false} FrameTimeExact(timings: seq<I64>)
    ensures FrameTime(timings) == Clamp(Duration(timings))
  {
    if timings != [] {
      FrameTimeExact(Front(timings));
    }
  }

  lemma {:induction false} ClampedProduct(d: nat, n: nat)
    requires n >= 1
    ensures Clamp(Clamp(d) * n) == Clamp(d * n)
  {
    if d > I64_MAX {
      MulMonotone(1, n, I64_MAX);
      MulMonotone(1, n, d);
    }
  }

  /** The frames' part of the air time, saturated once. */
  lemma {:induction false} AirTimeIs(request: Transmit)
    ensures AirTime(request) == Clamp(Clamp(FramesTime(request)) + Wrap(GapTime(request)))
  {
    FrameTimeExact(request.timings);
    ClampedProduct(Duration(request.timings), request.repeat + 1);
  }

  lemma {:induction false} TrueAirTimeIs(request: Transmit)
    ensures TrueAirTime(request) == FramesTime(request) + GapTime(request)
  {
    TransmissionDuration(request.timings, request.repeat, request.gapUs);
  }

  /** Both air times of frames and gaps: the reported one saturates, and goes round once if the gaps do not fit. */
  lemma {:induction false} ReportedAgainstTrue(frames: nat, gaps: nat)
    requires gaps < TWO_TO_64
    ensures var reported, truth := Clamp(Clamp(frames) + Wrap(gaps)), frames + gaps;
      && (gaps <= I64_MAX ==> reported == Clamp(truth))
      && (gaps > I64_MAX ==> reported < truth)
      && (reported <= MAX_AIR_TIME_US <==>
            || truth <= MAX_AIR_TIME_US
            || (gaps > I64_MAX && Clamp(frames) + gaps <= TWO_TO_64 + MAX_AIR_TIME_US))
  {
  }

  /** A gap product that does not fit wraps the total back under the limit. */
  predicate SlipsThrough(request: Transmit) {
    !GapsFit(request) && Clamp(FramesTime(request)) + GapTime(request) <= TWO_TO_64 + MAX_AIR_TIME_US
  }

  /** Everything there is to say of the reported air time against the true one. */
  lemma {:induction false} AirTimes(request: Transmit)
    ensures GapsFit(request) ==> AirTime(request) == Clamp(TrueAirTime(request))
    ensures !GapsFit(request) ==> AirTime(request) < TrueAirTime(request)
    ensures AirTime(request) <= MAX_AIR_TIME_US <==>
            TrueAirTime(request) <= MAX_AIR_TIME_US || SlipsThrough(request)
  {
    AirTimeIs(request);
    TrueAirTimeIs(request);
    ReportedAgainstTrue(FramesTime(request), GapTime(request));
  }

  /**
   * Saturating arithmetic is exact up to its ceiling: unless the gap product overflows, the reported
   * air time is the true one, or the ceiling when the true one is beyond it. It holds for every
   * timing list, the most negative timing included.
   */
  lemma {:induction false} AirTimeExact(request: Transmit)
    requires GapsFit(request)
    ensures AirTime(request) == Clamp(TrueAirTime(request))
  {
    AirTimes(request);
  }

  /** The air-time check: right, unless the gap product overflows and wraps the total back under the limit. */
  lemma {:induction false} AirTimeCheck(request: Transmit)
    ensures AirTime(request) <= MAX_AIR_TIME_US <==>
            TrueAirTime(request) <= MAX_AIR_TIME_US || SlipsThrough(request)
  {
    AirTimes(request);
  }

  /**
   * A request on which the check is wrong, so that the condition on the gap product is needed: one
   * microsecond of carrier with the largest repeat count and gap.
   */
  lemma {:induction false} AirTimeWraps()
    ensures var request := Transmit(315_000_000, [1], U32_MAX, U32_MAX, None);
      Validate(request) == Valid && TrueAirTime(request) > MAX_AIR_TIME_US
  {
    var request := Transmit(315_000_000, [1], U32_MAX, U32_MAX, None);
    assert Front(request.timings) == [];
    assert Duration(request.timings) == 1;
    assert FramesTime(request) == U32_MAX + 1;
    TrueAirTimeIs(request);
    AirTimes(request);
  }

  /** A request passes exactly when it is everything the documentation asks of one, or its air time slips through. */
  lemma {:induction false} ValidateExact(request: Transmit)
    ensures Validate(request).Valid? <==>
            && 1 <= |request.timings| <= 8192
            && (forall i :: 0 <= i < |request.timings| ==> request.timings[i] != 0)
            && 1_000_000 <= request.frequency <= 6_000_000_000
            && (request.txvgaDb.Some? ==> request.txvgaDb.value <= 47)
            && (TrueAirTime(request) <= 30_000_000 || SlipsThrough(request))
  {
    AirTimeCheck(request);
  }

  /** What a refusal claims of a request. */
  ghost predicate Claims(request: Transmit, why: Invalid) {
    match why
    case Empty => request.timings == []
    case ZeroTiming => exists i :: 0 <= i < |request.timings| && request.timings[i] == 0
    case TooManyTimings(count) => count == |request.timings| > MAX_TIMINGS
    case FrequencyOutOfRange(f) => f == request.frequency && !(MIN_FREQUENCY <= f <= MAX_FREQUENCY)
    case AirTimeTooLong(us) =>
      && TrueAirTime(request) > MAX_AIR_TIME_US
      && us > MAX_AIR_TIME_US
      && (GapsFit(request) ==> us == Clamp(TrueAirTime(request)))
      && (!GapsFit(request) ==> us < TrueAirTime(request))
    case GainTooHigh(db) => request.txvgaDb == Some(db) && db > Radio.MAX_TX_GAIN
  }

  /** A refusal is never for a reason that does not hold, and the figure in it is the request's own. */
  lemma {:induction false} RefusalIsTrue(request: Transmit)
    requires Validate(request).Refused?
    ensures Claims(request, Validate(request).why)
  {
    AirTimes(request);
    if 0 in request.timings {
      var i :| 0 <= i < |request.timings| && request.timings[i] == 0;
    }
  }

  /** Reasons are looked for in this order. */
  function Place(why: Invalid): nat {
    match why
    case Empty => 0
    case TooManyTimings(_) => 1
    case ZeroTiming => 2
    case FrequencyOutOfRange(_) => 3
    case GainTooHigh(_) => 4
    case AirTimeTooLong(_) => 5
  }

  /** Of all that is wrong with a request, the first in that order is what it is refused for. */
  lemma {:induction false} RefusalIsFirst(request: Transmit, other: Invalid)
    requires Claims(request, other) && !(other.AirTimeTooLong? && SlipsThrough(request))
    ensures Validate(request).Refused? && Place(Validate(request).why) <= Place(other)
  {
    ValidateExact(request);
  }

  /**
   * What is rendered is as long as the request truly is: to within half a sample per timing and gap
   * at any rate, and exactly at a whole number of samples per microsecond. For an accepted request
   * that is what is reported, unless the gap product overflows, when it is more.
   */
  lemma {:induction false} RenderedLength(request: Transmit, rate: nat, level: Byte)
    ensures var samples := |Synthesized(Transmission(request.timings, request.repeat, request.gapUs), rate, level)| / 2;
      var edges := (request.repeat + 1) * |request.timings| + request.repeat;
      && -(MICROS_PER_SECOND * edges)
         <= 2 * (MICROS_PER_SECOND * samples) - 2 * (TrueAirTime(request) * rate)
         <= MICROS_PER_SECOND * edges
      && forall perMicro: nat :: rate == perMicro * MICROS_PER_SECOND ==> samples == TrueAirTime(request) * perMicro
    ensures Validate(request).Valid? ==>
              if GapsFit(request) then AirTime(request) == TrueAirTime(request)
              else AirTime(request) < TrueAirTime(request)
  {
    var sent := Transmission(request.timings, request.repeat, request.gapUs);
    AirTimes(request);
    TransmissionDuration(request.timings, request.repeat, request.gapUs);
    SynthesizedLength(sent, rate, level);
    SampleCountNear(sent, rate);
    forall perMicro: nat | rate == perMicro * MICROS_PER_SECOND
      ensures SampleCount(sent, rate) == TrueAirTime(request) * perMicro
    {
      SampleCountExact(sent, perMicro);
    }
  }
}
