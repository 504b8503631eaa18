/** Interleaved 8-bit I/Q samples and their amplitude. */
module Iq {
  import opened Sequences

  type Byte = x: int | 0 <= x < 256

  /** |b| for a byte read as a signed one. */
  function AbsSigned(b: Byte): nat {
    if b < 128 then b else 256 - b
  }

  /** L1 magnitude of an interleaved buffer; a trailing odd byte is dropped. */
  function Envelope(iq: seq<Byte>): (mag: seq<nat>)
    ensures |mag| == |iq| / 2
  {
    seq(|iq| / 2, i requires 0 <= i < |iq| / 2 => MagnitudeAt(iq, i))
  }

  function MagnitudeAt(iq: seq<Byte>, i: nat): nat
    requires i < |iq| / 2
  {
    AbsSigned(iq[2 * i]) + AbsSigned(iq[2 * i + 1])
  }

  lemma {:induction false} EnvelopeConcat(a: seq<Byte>, b: seq<Byte>)
    requires |a| % 2 == 0
    ensures Envelope(a + b) == Envelope(a) + Envelope(b)
  {
    var whole, n := a + b, |a| / 2;
    assert |whole| / 2 == n + |b| / 2;
    forall i | 0 <= i < |whole| / 2 ensures Envelope(whole)[i] == (Envelope(a) + Envelope(b))[i] {
      if i >= n {
        assert 2 * i - |a| == 2 * (i - n);
        assert whole[2 * i] == b[2 * (i - n)] && whole[2 * i + 1] == b[2 * (i - n) + 1];
      }
    }
  }

  // ----- what a magnitude is -----

  function Abs(t: int): nat {
    if t < 0 then -t else t
  }

  /** What an 8-bit converter can report. */
  type Amplitude = x: int | -128 <= x < 128

  /** A signed amplitude as the byte that stands for it. */
  function Level(amplitude: Amplitude): Byte {
    if amplitude >= 0 then amplitude else amplitude + 256
  }

  /** The byte is the amplitude modulo 256, which tells the amplitudes apart. */
  lemma {:induction false} LevelIsTwosComplement(amplitude: Amplitude, b: Byte)
    ensures b == Level(amplitude) <==> (b - amplitude) % 256 == 0
  {
  }

  /** Samples of I and Q as they are interleaved. */
  function Interleaved(samples: seq<(Amplitude, Amplitude)>): (iq: seq<Byte>)
    ensures |iq| == 2 * |samples|
  {
    if samples == [] then []
    else Interleaved(Front(samples)) + [Level(Last(samples).0), Level(Last(samples).1)]
  }

  lemma {:induction false} MagnitudeOfOne(i: Amplitude, q: Amplitude)
    ensures Envelope([Level(i), Level(q)]) == [Abs(i) + Abs(q)]
  {
    var iq := [Level(i), Level(q)];
    assert |iq| / 2 == 1;
  }

  /** The magnitude of every sample is |I| + |Q|, whatever the phase, and never more than 256. */
  lemma {:induction false} EnvelopeIsL1(samples: seq<(Amplitude, Amplitude)>)
    ensures var mag := Envelope(Interleaved(samples));
      && |mag| == |samples|
      && forall k :: 0 <= k < |mag| ==> mag[k] == Abs(samples[k].0) + Abs(samples[k].1) <= 256
  {
    if samples != [] {
      EnvelopeIsL1(Front(samples));
      MagnitudeOfOne(Last(samples).0, Last(samples).1);
      EnvelopeConcat(Interleaved(Front(samples)), [Level(Last(samples).0), Level(Last(samples).1)]);
    }
  }

  /** A trailing odd byte is no sample. */
  lemma {:induction false} OddByteIsDropped(iq: seq<Byte>, odd: Byte)
    requires |iq| % 2 == 0
    ensures Envelope(iq + [odd]) == Envelope(iq)
  {
    EnvelopeConcat(iq, [odd]);
  }

  /** There are no other buffers: every byte stands for an amplitude. */
  lemma {:induction false} EveryBufferIsSamples(iq: seq<Byte>) returns (samples: seq<(Amplitude, Amplitude)>)
    requires |iq| % 2 == 0
    ensures Interleaved(samples) == iq
  {
    if iq == [] {
      samples := [];
    } else {
      var n := |iq|;
      var before := EveryBufferIsSamples(iq[..n - 2]);
      var i: int, q: int := iq[n - 2], iq[n - 1];
      i, q := if i < 128 then i else i - 256, if q < 128 then q else q - 256;
      samples := before + [(i, q)];
      assert Front(samples) == before;
      assert iq == iq[..n - 2] + [iq[n - 2], iq[n - 1]];
    }
  }

  /** `count` samples of constant baseband: the I byte, and zero for Q. */
  function Tone(level: Byte, count: nat): (iq: seq<Byte>)
    ensures |iq| == 2 * count
  {
    seq(2 * count, i requires 0 <= i < 2 * count => if i % 2 == 0 then level else 0)
  }

  lemma {:induction false} ToneEnvelope(level: Byte, count: nat)
    ensures Envelope(Tone(level, count)) == Repeat(AbsSigned(level), count)
  {
  }
}
