/**
 * From the samples of a whole recording to marks and spaces: the offline path.
 *
 * A bit sequence has one entry per sample, true where the magnitude reaches the
 * threshold. `Runs.Slice` is the loop of the program; `Folded` is what it
 * computes, defined on the maximal runs of the bit sequence.
 */
module Runs {
  import opened SampleClock
  import opened Sequences

  /** A mark or a space, by its length in microseconds. */
  datatype Run = Run(on: bool, us: nat)

  /** A maximal run of equal bits, in samples. */
  datatype Raw = Raw(on: bool, len: nat)

  /** What slicing needs to know about time: the glitch floor, and how long a number of samples lasts. */
  datatype Clock = Clock(minSamples: nat, us: nat -> nat)

  /** The clock of a sample rate in Hz and a glitch floor in microseconds. */
  function ClockOf(rate: nat, minUs: nat): (clock: Clock)
    requires rate > 0
    ensures clock.minSamples >= 1
  {
    Clock(AtLeastOneSample(minUs, rate), len => Micros(len, rate))
  }

  /** More samples never last a shorter time. */
  ghost predicate Monotone(clock: Clock) {
    forall len, len' :: len <= len' ==> clock.us(len) <= clock.us(len')
  }

  lemma {:induction false} ClockIsMonotone(rate: nat, minUs: nat)
    requires rate > 0
    ensures Monotone(ClockOf(rate, minUs))
  {
    var clock := ClockOf(rate, minUs);
    forall len: nat, len': nat | len <= len' ensures clock.us(len) <= clock.us(len') {
      MicrosMonotone(len, len', rate);
    }
  }

  // ----- maximal runs -----

  /** Extends a list of maximal runs by one more bit. */
  function AddBit(raws: seq<Raw>, bit: bool): (r: seq<Raw>)
    ensures r != []
  {
    if raws != [] && Last(raws).on == bit then
      Front(raws) + [Raw(bit, Last(raws).len + 1)]
    else
      raws + [Raw(bit, 1)]
  }

  /** The maximal runs of `bits`, continuing the runs in `before`. */
  function RawRunsFrom(before: seq<Raw>, bits: seq<bool>): seq<Raw> {
    if bits == [] then before
    else AddBit(RawRunsFrom(before, Front(bits)), Last(bits))
  }

  function RawRuns(bits: seq<bool>): seq<Raw> {
    RawRunsFrom([], bits)
  }

  ghost predicate AlternatingRaws(raws: seq<Raw>) {
    forall i, j :: 0 <= i < j < |raws| && j == i + 1 ==> raws[i].on != raws[j].on
  }

  ghost predicate NonEmptyRaws(raws: seq<Raw>) {
    forall i :: 0 <= i < |raws| ==> raws[i].len >= 1
  }

  /** The bit sequence a list of runs stands for. */
  function Expand(raws: seq<Raw>): seq<bool> {
    if raws == [] then [] else Expand(Front(raws)) + Repeat(Last(raws).on, Last(raws).len)
  }

  // ----- folding glitches -----

  /** One completed run of `len` samples joins the output. */
  function PushRun(clock: Clock, out: seq<Run>, raw: Raw): (r: seq<Run>)
    ensures r != [] && |out| <= |r| <= |out| + 1
  {
    var us := clock.us(raw.len);
    if out != [] && (raw.len < clock.minSamples || Last(out).on == raw.on) then
      Front(out) + [Run(Last(out).on, Last(out).us + us)]
    else
      out + [Run(raw.on, us)]
  }

  function FoldedFrom(clock: Clock, before: seq<Run>, raws: seq<Raw>): (r: seq<Run>)
    ensures |before| <= |r| && (raws != [] ==> r != [])
  {
    if raws == [] then before
    else PushRun(clock, FoldedFrom(clock, before, Front(raws)), Last(raws))
  }

  /** The runs of a list of maximal runs after glitches are folded and neighbours of one polarity joined. */
  function Folded(clock: Clock, raws: seq<Raw>): seq<Run>
  {
    FoldedFrom(clock, [], raws)
  }

  /** What comes before the last run is out of reach. */
  lemma {:induction false} PushBehind(clock: Clock, before: seq<Run>, out: seq<Run>, raw: Raw)
    requires out != []
    ensures PushRun(clock, before + out, raw) == before + PushRun(clock, out, raw)
  {
    assert Front(before + out) == before + Front(out) && Last(before + out) == Last(out);
  }

  lemma {:induction false} FoldedBehind(clock: Clock, before: seq<Run>, out: seq<Run>, raws: seq<Raw>)
    requires out != []
    ensures FoldedFrom(clock, before + out, raws) == before + FoldedFrom(clock, out, raws)
  {
    if raws != [] {
      FoldedBehind(clock, before, out, Front(raws));
      PushBehind(clock, before, FoldedFrom(clock, out, Front(raws)), Last(raws));
    }
  }

  /** What the offline path makes of a bit sequence. */
  function RunsOf(clock: Clock, bits: seq<bool>): seq<Run>
  {
    Folded(clock, RawRuns(bits))
  }

  function Sliced(mag: seq<nat>, threshold: nat): (bits: seq<bool>)
    ensures |bits| == |mag|
    ensures forall i :: 0 <= i < |mag| ==> bits[i] == (mag[i] >= threshold)
  {
    seq(|mag|, i requires 0 <= i < |mag| => mag[i] >= threshold)
  }

  /** The loop of the offline path: the runs completed, and the one in progress. */
  datatype Slicer = Slicer(out: seq<Run>, on: bool, len: nat) {
    function Next(clock: Clock, bit: bool): Slicer {
      if bit == on then this.(len := len + 1) else Slicer(Completed(clock), bit, 1)
    }

    function Completed(clock: Clock): seq<Run> {
      PushRun(clock, out, Raw(on, len))
    }
  }

  /** Where the loop stands after these bits, having begun with the polarity of the first. */
  function SlicedSoFar(clock: Clock, first: bool, bits: seq<bool>): Slicer {
    if bits == [] then Slicer([], first, 0) else SlicedSoFar(clock, first, Front(bits)).Next(clock, Last(bits))
  }

  lemma {:induction false} SlicedNext(clock: Clock, first: bool, bits: seq<bool>, i: nat)
    requires i < |bits|
    ensures SlicedSoFar(clock, first, bits[..i + 1]) == SlicedSoFar(clock, first, bits[..i]).Next(clock, bits[i])
  {
    assert Front(bits[..i + 1]) == bits[..i] && Last(bits[..i + 1]) == bits[i];
  }

  /** The run in progress is the last maximal run so far, and those completed are the others, folded. */
  lemma {:induction false} SlicedSoFarIs(clock: Clock, bits: seq<bool>)
    requires bits != []
    ensures var s, raws := SlicedSoFar(clock, bits[0], bits), RawRuns(bits);
      raws != [] && Last(raws) == Raw(s.on, s.len) && s.out == Folded(clock, Front(raws))
  {
    var front, bit := Front(bits), Last(bits);
    if front == [] {
      assert RawRuns(front) == [] && RawRuns(bits) == [Raw(bit, 1)];
    } else {
      SlicedSoFarIs(clock, front);
      var raws := RawRuns(front);
      if bit == Last(raws).on {
        assert Front(AddBit(raws, bit)) == Front(raws);
      } else {
        assert Front(AddBit(raws, bit)) == raws;
      }
    }
  }

  lemma {:induction false} SlicedAll(clock: Clock, bits: seq<bool>)
    requires bits != []
    ensures SlicedSoFar(clock, bits[0], bits).Completed(clock) == RunsOf(clock, bits)
  {
    SlicedSoFarIs(clock, bits);
  }

  /** The loop itself. */
  method Slice(clock: Clock, mag: seq<nat>, threshold: nat) returns (out: seq<Run>)
    ensures out == RunsOf(clock, Sliced(mag, threshold))
  {
    out := [];
    ghost var bits := Sliced(mag, threshold);
    if mag == [] {
      return;
    }
    var currentOn := mag[0] >= threshold;
    var len: nat := 0;
    for i := 0 to |mag|
      invariant Slicer(out, currentOn, len) == SlicedSoFar(clock, bits[0], bits[..i])
    {
      SlicedNext(clock, bits[0], bits, i);
      var on := mag[i] >= threshold;
      if on == currentOn {
        len := len + 1;
      } else {
        out := PushRun(clock, out, Raw(currentOn, len));
        currentOn, len := on, 1;
      }
    }
    assert bits[..|mag|] == bits;
    SlicedAll(clock, bits);
    out := PushRun(clock, out, Raw(currentOn, len));
  }

  // ----- maximal runs are the run-length encoding -----

  /** The maximal runs alternate, are never empty, and expand back to the bits they came from. */
  lemma {:induction false} RawRunsEncode(bits: seq<bool>)
    ensures AlternatingRaws(RawRuns(bits)) && NonEmptyRaws(RawRuns(bits))
    ensures Expand(RawRuns(bits)) == bits
    ensures bits != [] ==> RawRuns(bits) != [] && RawRuns(bits)[0].on == bits[0] && Last(RawRuns(bits)).on == Last(bits)
  {
    if bits != [] {
      var front, b := Front(bits), Last(bits);
      RawRunsEncode(front);
      assert bits == front + [b];
      AddBitEncodes(RawRuns(front), b);
    }
  }

  lemma {:induction false} AddBitKeepsPolarity(raws: seq<Raw>, bit: bool)
    ensures |AddBit(raws, bit)| >= |raws|
    ensures forall k :: 0 <= k < |raws| ==> AddBit(raws, bit)[k].on == raws[k].on
  {
    var after := AddBit(raws, bit);
    if raws != [] && Last(raws).on == bit {
      assert after == raws[..|raws| - 1] + [Raw(bit, Last(raws).len + 1)];
    } else {
      assert after == raws + [Raw(bit, 1)];
    }
  }

  lemma {:induction false} AddBitAlternates(raws: seq<Raw>, bit: bool)
    requires AlternatingRaws(raws) && NonEmptyRaws(raws)
    ensures AlternatingRaws(AddBit(raws, bit)) && NonEmptyRaws(AddBit(raws, bit))
  {
    var after := AddBit(raws, bit);
    AddBitKeepsPolarity(raws, bit);
    forall i, j | 0 <= i < j < |after| && j == i + 1 ensures after[i].on != after[j].on {
      if j < |raws| {
        assert raws[i].on != raws[j].on;
      }
    }
  }

  lemma {:induction false} AddBitExpands(raws: seq<Raw>, bit: bool)
    ensures Expand(AddBit(raws, bit)) == Expand(raws) + [bit]
  {
    var after := AddBit(raws, bit);
    if raws != [] && Last(raws).on == bit {
      var len := Last(raws).len;
      assert Front(after) == Front(raws) && Last(after) == Raw(bit, len + 1);
      assert Repeat(bit, len + 1) == Repeat(bit, len) + [bit];
      ConcatAssociates(Expand(Front(raws)), Repeat(bit, len), [bit]);
    } else {
      assert Front(after) == raws && Last(after) == Raw(bit, 1);
      assert Repeat(bit, 1) == [bit];
    }
  }

  lemma {:induction false} AddBitEncodes(raws: seq<Raw>, bit: bool)
    requires AlternatingRaws(raws) && NonEmptyRaws(raws)
    ensures AlternatingRaws(AddBit(raws, bit)) && NonEmptyRaws(AddBit(raws, bit))
    ensures Expand(AddBit(raws, bit)) == Expand(raws) + [bit]
    ensures raws != [] ==> AddBit(raws, bit)[0].on == raws[0].on
  {
    AddBitAlternates(raws, bit);
    AddBitExpands(raws, bit);
    AddBitKeepsPolarity(raws, bit);
  }

  lemma {:induction false} ExpandConcat(a: seq<Raw>, b: seq<Raw>)
    ensures Expand(a + b) == Expand(a) + Expand(b)
  {
    if b == [] {
      assert a + b == a;
    } else {
      assert Front(a + b) == a + Front(b) && Last(a + b) == Last(b);
      ExpandConcat(a, Front(b));
      ConcatAssociates(Expand(a), Expand(Front(b)), Repeat(Last(b).on, Last(b).len));
    }
  }

  lemma {:induction false} RawRunsFromConcat(before: seq<Raw>, a: seq<bool>, b: seq<bool>)
    ensures RawRunsFrom(before, a + b) == RawRunsFrom(RawRunsFrom(before, a), b)
  {
    if b == [] {
      assert a + b == a;
    } else {
      assert Front(a + b) == a + Front(b) && Last(a + b) == Last(b);
      RawRunsFromConcat(before, a, Front(b));
      assert RawRunsFrom(before, a + b) == AddBit(RawRunsFrom(before, a + Front(b)), Last(b));
    }
  }

  lemma {:induction false} RawRunsOfRepeat(before: seq<Raw>, bit: bool, n: nat)
    requires n >= 1
    requires before != [] ==> Last(before).on != bit
    ensures RawRunsFrom(before, Repeat(bit, n)) == before + [Raw(bit, n)]
  {
    var bits := Repeat(bit, n);
    assert Front(bits) == Repeat(bit, n - 1);
    if n == 1 {
      assert Front(bits) == [];
    } else {
      RawRunsOfRepeat(before, bit, n - 1);
      assert Front(before + [Raw(bit, n - 1)]) == before;
    }
  }

  lemma {:induction false} AlternatingRawsFront(raws: seq<Raw>)
    requires raws != [] && AlternatingRaws(raws)
    ensures AlternatingRaws(Front(raws))
    ensures |raws| > 1 ==> Last(Front(raws)).on != Last(raws).on
  {
    var front := Front(raws);
    forall i, j | 0 <= i < j < |front| && j == i + 1 ensures front[i].on != front[j].on {
      assert raws[i].on != raws[j].on;
    }
    if |raws| > 1 {
      assert raws[|raws| - 2].on != raws[|raws| - 1].on;
    }
  }

  lemma {:induction false} OneMoreRun(front: seq<Raw>, r: Raw)
    requires RawRuns(Expand(front)) == front && r.len >= 1 && (front != [] ==> Last(front).on != r.on)
    ensures RawRuns(Expand(front + [r])) == front + [r]
  {
    assert Front(front + [r]) == front;
    RawRunsFromConcat([], Expand(front), Repeat(r.on, r.len));
    RawRunsOfRepeat(front, r.on, r.len);
  }

  /** An alternating list of non-empty runs is the only run-length encoding of its expansion. */
  lemma {:induction false} RawRunsOfExpand(raws: seq<Raw>)
    requires AlternatingRaws(raws) && NonEmptyRaws(raws)
    ensures RawRuns(Expand(raws)) == raws
  {
    if raws != [] {
      var front, r := Front(raws), Last(raws);
      AlternatingRawsFront(raws);
      RawRunsOfExpand(front);
      assert raws == front + [Raw(r.on, r.len)] && raws[|raws| - 1].len >= 1;
      OneMoreRun(front, r);
    }
  }

  // ----- what folding keeps -----

  ghost predicate Alternating(runs: seq<Run>) {
    forall i, j :: 0 <= i < j < |runs| && j == i + 1 ==> runs[i].on != runs[j].on
  }

  /** Every run but the first is at least as long as the glitch floor. */
  ghost predicate AboveFloor(clock: Clock, runs: seq<Run>)
  {
    forall i :: 1 <= i < |runs| ==> runs[i].us >= clock.us(clock.minSamples)
  }

  lemma {:induction false} PushRunKeepsShape(clock: Clock, out: seq<Run>, raw: Raw)
    requires Monotone(clock) && Alternating(out) && AboveFloor(clock, out)
    ensures Alternating(PushRun(clock, out, raw)) && AboveFloor(clock, PushRun(clock, out, raw))
    ensures out != [] ==> PushRun(clock, out, raw)[0].on == out[0].on
  {
    var r := PushRun(clock, out, raw);
    if |r| == |out| {
      forall i, j | 0 <= i < j < |r| && j == i + 1 ensures r[i].on != r[j].on {
        assert out[i].on != out[j].on;
      }
    } else if out != [] {
      forall i, j | 0 <= i < j < |r| && j == i + 1 ensures r[i].on != r[j].on {
        if j < |out| {
          assert out[i].on != out[j].on;
        }
      }
    }
  }

  /** Folding yields alternating runs, none after the first shorter than the glitch floor. */
  lemma {:induction false} FoldedShape(clock: Clock, raws: seq<Raw>)
    requires Monotone(clock)
    ensures Alternating(Folded(clock, raws)) && AboveFloor(clock, Folded(clock, raws))
    ensures raws != [] ==> Folded(clock, raws)[0].on == raws[0].on
  {
    if raws != [] {
      FoldedShape(clock, Front(raws));
      PushRunKeepsShape(clock, Folded(clock, Front(raws)), Last(raws));
    }
  }

  function InMicros(clock: Clock, raws: seq<Raw>): (runs: seq<Run>)
    ensures |runs| == |raws|
  {
    seq(|raws|, i requires 0 <= i < |raws| => Run(raws[i].on, clock.us(raws[i].len)))
  }

  /** The polarity in force after these runs: that of the last one that was no glitch, or of the first. */
  predicate InForceAfter(clock: Clock, raws: seq<Raw>)
    requires raws != []
  {
    if |raws| == 1 || Last(raws).len >= clock.minSamples then Last(raws).on else InForceAfter(clock, Front(raws))
  }

  /** Each maximal run, in microseconds, under the polarity in force at its end. */
  function Relabelled(clock: Clock, raws: seq<Raw>): (runs: seq<Run>)
    ensures |runs| == |raws|
  {
    seq(|raws|, i requires 0 <= i < |raws| => Run(InForceAfter(clock, raws[..i + 1]), clock.us(raws[i].len)))
  }

  /** Neighbours of one polarity are one run. */
  function Merged(runs: seq<Run>): seq<Run> {
    if runs == [] then [] else MergedWith(Merged(Front(runs)), Last(runs))
  }

  function MergedWith(merged: seq<Run>, r: Run): seq<Run> {
    if merged != [] && Last(merged).on == r.on then Front(merged) + [Run(r.on, Last(merged).us + r.us)]
    else merged + [r]
  }

  lemma {:induction false} PushMerges(clock: Clock, out: seq<Run>, raw: Raw, on: bool)
    requires on == if out == [] || raw.len >= clock.minSamples then raw.on else Last(out).on
    ensures PushRun(clock, out, raw) == MergedWith(out, Run(on, clock.us(raw.len)))
    ensures Last(PushRun(clock, out, raw)).on == on
  {
  }

  lemma {:induction false} RelabelledNext(clock: Clock, raws: seq<Raw>)
    requires raws != []
    ensures Relabelled(clock, raws) ==
            Relabelled(clock, Front(raws)) + [Run(InForceAfter(clock, raws), clock.us(Last(raws).len))]
  {
    assert raws[..|raws|] == raws;
    forall i | 0 <= i < |raws| - 1 ensures Relabelled(clock, raws)[i] == Relabelled(clock, Front(raws))[i] {
      assert Front(raws)[..i + 1] == raws[..i + 1];
    }
  }

  lemma {:induction false} MergedNext(runs: seq<Run>, r: Run)
    ensures Merged(runs + [r]) == MergedWith(Merged(runs), r)
  {
    assert Front(runs + [r]) == runs;
  }

  /**
   * What folding means: a glitch counts as the polarity in force when it comes, every other run as
   * its own, and then what is of one polarity is one run.
   */
  lemma {:induction false} FoldingRelabels(clock: Clock, raws: seq<Raw>)
    ensures Folded(clock, raws) == Merged(Relabelled(clock, raws))
    ensures raws != [] ==> Last(Folded(clock, raws)).on == InForceAfter(clock, raws)
  {
    if raws != [] {
      FoldingRelabels(clock, Front(raws));
      RelabelledNext(clock, raws);
      MergedNext(Relabelled(clock, Front(raws)), Run(InForceAfter(clock, raws), clock.us(Last(raws).len)));
      PushMerges(clock, Folded(clock, Front(raws)), Last(raws), InForceAfter(clock, raws));
    }
  }

  /** Runs at or above the glitch floor are left alone; the first has nothing to be folded into. */
  lemma {:induction false} FoldedClean(clock: Clock, raws: seq<Raw>)
    requires AlternatingRaws(raws)
    requires forall i :: 1 <= i < |raws| ==> raws[i].len >= clock.minSamples
    ensures Folded(clock, raws) == InMicros(clock, raws)
  {
    if raws != [] {
      AlternatingRawsFront(raws);
      FoldedClean(clock, Front(raws));
      assert InMicros(clock, raws) == InMicros(clock, Front(raws)) + [Run(Last(raws).on, clock.us(Last(raws).len))];
    }
  }

  function TotalUs(runs: seq<Run>): nat {
    if runs == [] then 0 else TotalUs(Front(runs)) + Last(runs).us
  }

  function RawUs(clock: Clock, raws: seq<Raw>): nat
  {
    if raws == [] then 0 else RawUs(clock, Front(raws)) + clock.us(Last(raws).len)
  }

  function RawSamples(raws: seq<Raw>): nat {
    if raws == [] then 0 else RawSamples(Front(raws)) + Last(raws).len
  }

  /** Folding moves durations between runs but loses none. */
  lemma {:induction false} FoldedConserves(clock: Clock, raws: seq<Raw>)
    ensures TotalUs(Folded(clock, raws)) == RawUs(clock, raws)
  {
    if raws != [] {
      FoldedConserves(clock, Front(raws));
      var out := Folded(clock, Front(raws));
      var r := PushRun(clock, out, Last(raws));
      if |r| == |out| {
        assert Front(r) == Front(out);
      } else {
        assert Front(r) == out;
      }
    }
  }

  /** Each raw run contributes at most half a microsecond of rounding. */
  lemma {:induction false} RawUsNearSamples(rate: nat, minUs: nat, raws: seq<Raw>)
    requires rate > 0
    ensures Within(rate, RawUs(ClockOf(rate, minUs), raws), RawSamples(raws), |raws|)
  {
    if raws != [] {
      RawUsNearSamples(rate, minUs, Front(raws));
      AddRounded(rate, RawUs(ClockOf(rate, minUs), Front(raws)), RawSamples(Front(raws)), |raws| - 1, Last(raws).len);
    } else {
      assert rate * 0 == 0;
    }
  }

  /** `us` microseconds are `samples` samples at this rate, give or take n halves of a microsecond. */
  ghost predicate Within(rate: nat, us: nat, samples: nat, n: nat) {
    -(rate * n) <= 2 * (rate * us) - 2 * (samples * MICROS_PER_SECOND) <= rate * n
  }

  lemma {:induction false} AddRounded(rate: nat, us: nat, samples: nat, n: nat, len: nat)
    requires rate > 0
    requires Within(rate, us, samples, n)
    ensures Within(rate, us + Micros(len, rate), samples + len, n + 1)
  {
    var more := Micros(len, rate);
    RoundDivBounds(len * MICROS_PER_SECOND, rate);
    assert 2 * rate * more == 2 * (rate * more);
    assert rate * (us + more) == rate * us + rate * more;
    assert rate * (n + 1) == rate * n + rate;
  }

  lemma {:induction false} RawSamplesOfExpand(raws: seq<Raw>)
    ensures RawSamples(raws) == |Expand(raws)|
  {
    if raws != [] {
      RawSamplesOfExpand(Front(raws));
    }
  }

  /**
   * The offline runs of any envelope: they alternate from the first sample's polarity,
   * none after the first is under the glitch floor, and together they last as long as the
   * recording to within half a microsecond per maximal run.
   */
  lemma {:induction false} OfflineRuns(rate: nat, minUs: nat, bits: seq<bool>)
    requires rate > 0
    ensures var runs := RunsOf(ClockOf(rate, minUs), bits);
      && Alternating(runs) && AboveFloor(ClockOf(rate, minUs), runs)
      && (bits != [] ==> runs != [] && runs[0].on == bits[0])
      && Within(rate, TotalUs(runs), |bits|, |RawRuns(bits)|)
  {
    var clock, raws := ClockOf(rate, minUs), RawRuns(bits);
    ClockIsMonotone(rate, minUs);
    RawRunsEncode(bits);
    FoldedShape(clock, raws);
    FoldedConserves(clock, raws);
    RawUsNearSamples(rate, minUs, raws);
    RawSamplesOfExpand(raws);
  }
}
