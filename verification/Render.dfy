/**
 * The modulator: timings rendered as baseband, repeated with silence between,
 * and padded to the transfer alignment.
 */
module Render {
  import opened SampleClock
  import opened Sequences
  import opened Iq

  const XFER_ALIGN: nat := 512
  const TRANSFER_SIZE: nat := 32_768

  /** The timing of a silence. */
  function Silence(us: nat): int {
    -(us as int)
  }

  /** One timing: carrier for a mark, silence for a space. */
  function Pulse(t: int, rate: nat, level: Byte): (iq: seq<Byte>)
    ensures |iq| == 2 * Samples(Abs(t), rate)
  {
    Tone(if t > 0 then level else 0, Samples(Abs(t), rate))
  }

  function Synthesized(timings: seq<int>, rate: nat, level: Byte): (iq: seq<Byte>)
    ensures |iq| % 2 == 0
  {
    if timings == [] then [] else Synthesized(Front(timings), rate, level) + Pulse(Last(timings), rate, level)
  }

  /** All that is sent, as one timing list: the frame, then a gap and the frame again `repeat` times. */
  function Transmission(frame: seq<int>, repeat: nat, gapUs: nat): seq<int> {
    if repeat == 0 then frame else Transmission(frame, repeat - 1, gapUs) + [Silence(gapUs)] + frame
  }

  lemma {:induction false} SynthesizedConcat(a: seq<int>, b: seq<int>, rate: nat, level: Byte)
    ensures Synthesized(a + b, rate, level) == Synthesized(a, rate, level) + Synthesized(b, rate, level)
  {
    if b == [] {
      assert a + b == a;
    } else {
      assert Front(a + b) == a + Front(b) && Last(a + b) == Last(b);
      SynthesizedConcat(a, Front(b), rate, level);
      ConcatAssociates(Synthesized(a, rate, level), Synthesized(Front(b), rate, level), Pulse(Last(b), rate, level));
    }
  }

  lemma {:induction false} SynthesizedNext(timings: seq<int>, i: nat, rate: nat, level: Byte)
    requires i < |timings|
    ensures Synthesized(timings[..i + 1], rate, level) ==
            Synthesized(timings[..i], rate, level) + Pulse(timings[i], rate, level)
  {
    assert Front(timings[..i + 1]) == timings[..i] && Last(timings[..i + 1]) == timings[i];
  }

  lemma {:induction false} ToneNext(level: Byte, count: nat)
    ensures Tone(level, count + 1) == Tone(level, count) + [level, 0]
  {
  }

  /** Everything rendered is on I: the carrier's level or silence, and zero for Q throughout. */
  lemma {:induction false} RenderedOnI(timings: seq<int>, rate: nat, level: Byte, k: nat)
    requires 2 * k < |Synthesized(timings, rate, level)|
    ensures var iq := Synthesized(timings, rate, level);
      2 * k + 1 < |iq| && iq[2 * k] in {0, level} && iq[2 * k + 1] == 0
  {
    var before := Synthesized(Front(timings), rate, level);
    if 2 * k < |before| {
      RenderedOnI(Front(timings), rate, level, k);
    } else {
      var j := k - |before| / 2;
      assert 2 * k - |before| == 2 * j;
    }
  }

  method Synthesize(timings: seq<int>, rate: nat, amplitude: int) returns (out: seq<Byte>)
    requires -128 <= amplitude < 128
    ensures out == Synthesized(timings, rate, Level(amplitude))
  {
    out := [];
    for k := 0 to |timings|
      invariant out == Synthesized(timings[..k], rate, Level(amplitude))
    {
      var t := timings[k];
      var count := Samples(Abs(t), rate);
      var i: Byte := if t > 0 then Level(amplitude) else 0;
      ghost var before := out;
      assert before + Tone(i, 0) == before;
      for n := 0 to count
        invariant out == before + Tone(i, n)
      {
        ToneNext(i, n);
        ConcatAssociates(before, Tone(i, n), [i, 0]);
        out := out + [i, 0];
      }
      SynthesizedNext(timings, k, rate, Level(amplitude));
    }
    assert timings[..|timings|] == timings;
  }

  lemma {:induction false} TransmissionNext(timings: seq<int>, n: nat, gapUs: nat, rate: nat, level: Byte)
    ensures Synthesized(Transmission(timings, n + 1, gapUs), rate, level) ==
            Synthesized(Transmission(timings, n, gapUs), rate, level) + Synthesized([Silence(gapUs)], rate, level)
            + Synthesized(timings, rate, level)
  {
    var sent := Transmission(timings, n, gapUs);
    SynthesizedConcat(sent + [Silence(gapUs)], timings, rate, level);
    SynthesizedConcat(sent, [Silence(gapUs)], rate, level);
  }

  /** The buffer is the rendering of the transmission as one timing list. */
  method RenderTransmission(timings: seq<int>, repeat: nat, gapUs: nat, rate: nat, amplitude: int)
    returns (samples: seq<Byte>)
    requires -128 <= amplitude < 128
    ensures samples == Synthesized(Transmission(timings, repeat, gapUs), rate, Level(amplitude))
  {
    ghost var level := Level(amplitude);
    var frame := Synthesize(timings, rate, amplitude);
    var gap := Synthesize([Silence(gapUs)], rate, amplitude);
    samples := [];
    for iteration := 0 to repeat + 1
      invariant iteration == 0 ==> samples == []
      invariant 0 < iteration <= repeat ==>
        samples == Synthesized(Transmission(timings, iteration - 1, gapUs), rate, level) + gap
      invariant iteration == repeat + 1 ==> samples == Synthesized(Transmission(timings, repeat, gapUs), rate, level)
    {
      if iteration == 0 {
        assert samples + frame == frame;
      } else {
        TransmissionNext(timings, iteration - 1, gapUs, rate, level);
      }
      samples := samples + frame;
      assert samples == Synthesized(Transmission(timings, iteration, gapUs), rate, level);
      if iteration < repeat {
        samples := samples + gap;
      }
    }
  }

  /** The buffer with zeros after it, as few as align it. */
  method PadToAlignment(samples: seq<Byte>) returns (padded: seq<Byte>)
    ensures samples <= padded && |padded| % 512 == 0 && |padded| - |samples| < 512
    ensures forall i :: |samples| <= i < |padded| ==> padded[i] == 0
  {
    padded := samples;
    var remainder := |samples| % XFER_ALIGN;
    if remainder != 0 {
      padded := samples + seq(XFER_ALIGN - remainder, _ => 0);
      AlignsUp(|samples|);
    }
  }

  lemma {:induction false} AlignsUp(n: nat)
    requires n % XFER_ALIGN != 0
    ensures (n + (XFER_ALIGN - n % XFER_ALIGN)) % XFER_ALIGN == 0
  {
    assert n + (XFER_ALIGN - n % XFER_ALIGN) == XFER_ALIGN * (n / XFER_ALIGN + 1);
  }

  /** Every transfer of an aligned buffer, the last included, is aligned. */
  lemma {:induction false} ChunksAligned(total: nat, k: nat)
    requires total % XFER_ALIGN == 0 && k * TRANSFER_SIZE < total
    ensures var left := total - k * TRANSFER_SIZE;
      (if left < TRANSFER_SIZE then left else TRANSFER_SIZE) % XFER_ALIGN == 0
  {
    assert k * TRANSFER_SIZE == XFER_ALIGN * (64 * k);
    assert total == XFER_ALIGN * (total / XFER_ALIGN);
    assert total - k * TRANSFER_SIZE == XFER_ALIGN * (total / XFER_ALIGN - 64 * k);
  }

  // ----- how long a transmission is -----

  function SampleCount(timings: seq<int>, rate: nat): nat {
    if timings == [] then 0 else SampleCount(Front(timings), rate) + Samples(Abs(Last(timings)), rate)
  }

  /** How long a timing list lasts, in microseconds. */
  function Duration(timings: seq<int>): nat {
    if timings == [] then 0 else Duration(Front(timings)) + Abs(Last(timings))
  }

  lemma {:induction false} SynthesizedLength(timings: seq<int>, rate: nat, level: Byte)
    ensures |Synthesized(timings, rate, level)| == 2 * SampleCount(timings, rate)
  {
    if timings != [] {
      SynthesizedLength(Front(timings), rate, level);
    }
  }

  lemma {:induction false} DurationConcat(a: seq<int>, b: seq<int>)
    ensures Duration(a + b) == Duration(a) + Duration(b)
  {
    if b == [] {
      assert a + b == a;
    } else {
      assert Front(a + b) == a + Front(b) && Last(a + b) == Last(b);
      DurationConcat(a, Front(b));
    }
  }

  /** A transmission lasts as long as its frames and the gaps between them, and has as many timings. */
  lemma {:induction false} TransmissionDuration(frame: seq<int>, repeat: nat, gapUs: nat)
    ensures Duration(Transmission(frame, repeat, gapUs)) == Duration(frame) * (repeat + 1) + repeat * gapUs
    ensures |Transmission(frame, repeat, gapUs)| == (repeat + 1) * |frame| + repeat
  {
    if repeat > 0 {
      TransmissionDuration(frame, repeat - 1, gapUs);
      var sent, gap: seq<int> := Transmission(frame, repeat - 1, gapUs), [Silence(gapUs)];
      DurationConcat(sent + gap, frame);
      DurationConcat(sent, gap);
      assert Front(gap) == [] && Duration(gap) == gapUs;
      Distribute(Duration(frame), |frame|, repeat, gapUs);
    }
  }

  lemma {:induction false} Distribute(d: nat, n: nat, repeat: nat, gapUs: nat)
    requires repeat >= 1
    ensures d * (repeat + 1) + repeat * gapUs == d * repeat + (repeat - 1) * gapUs + gapUs + d
    ensures (repeat + 1) * n + repeat == repeat * n + (repeat - 1) + 1 + n
  {
  }

  /** Each timing is rendered to within half a sample. */
  lemma {:induction false} SampleCountNear(timings: seq<int>, rate: nat)
    ensures -(MICROS_PER_SECOND * |timings|)
            <= 2 * (MICROS_PER_SECOND * SampleCount(timings, rate)) - 2 * (Duration(timings) * rate)
            <= MICROS_PER_SECOND * |timings|
  {
    if timings != [] {
      SampleCountNear(Front(timings), rate);
      var t := Abs(Last(timings));
      RoundDivBounds(t * rate, MICROS_PER_SECOND);
      assert (Duration(Front(timings)) + t) * rate == Duration(Front(timings)) * rate + t * rate;
    }
  }

  /** At a whole number of samples per microsecond the rendering is exact. */
  lemma {:induction false} SampleCountExact(timings: seq<int>, perMicro: nat)
    ensures SampleCount(timings, perMicro * MICROS_PER_SECOND) == Duration(timings) * perMicro
  {
    if timings != [] {
      SampleCountExact(Front(timings), perMicro);
      var t := Abs(Last(timings));
      ExactSamples(t, perMicro);
      assert (Duration(Front(timings)) + t) * perMicro == Duration(Front(timings)) * perMicro + t * perMicro;
    }
  }

  lemma {:induction false} ExactSamples(t: nat, perMicro: nat)
    ensures Samples(t, perMicro * MICROS_PER_SECOND) == t * perMicro
  {
    var x := t * perMicro;
    assert t * (perMicro * MICROS_PER_SECOND) == x * MICROS_PER_SECOND;
    RoundDivUnique(x * MICROS_PER_SECOND, MICROS_PER_SECOND, x);
  }
}
