/**
 * Transmit, then receive: what the modulator renders, the demodulator cuts back
 * into the frames that were sent.
 */
module RoundTrip {
  import opened SampleClock
  import opened Runs
  import opened Sequences
  import opened Bursts
  import opened Pieces
  import opened Iq
  import opened Detector
  import opened Refinement
  import opened Render

  /** A frame: alternates from a mark, every timing visible to a receiver with this glitch floor. */
  ghost predicate IsFrame(frame: seq<int>, minUs: nat) {
    && frame != []
    && forall i :: 0 <= i < |frame| ==> IsFrameTiming(i, frame[i], minUs)
  }

  ghost predicate IsFrameTiming(i: nat, t: int, minUs: nat) {
    (t > 0 <==> i % 2 == 0) && Abs(t) >= 1 && Abs(t) >= minUs
  }

  /** What can be seen of a frame: up to its last mark. */
  function Visible(frame: seq<int>): seq<int>
    requires frame != []
  {
    if |frame| % 2 == 1 then frame else Front(frame)
  }

  /** The receiver can tell such frames from each other and from noise, if they have edges enough to be kept. */
  ghost predicate Receivable(frame: seq<int>, gapUs: nat, cfg: Config) {
    && cfg.Valid() && cfg.rate >= MICROS_PER_SECOND
    && IsFrame(frame, cfg.minUs)
    && 1 <= cfg.minEdges
    && gapUs >= cfg.gapUs >= 1 && gapUs >= cfg.minUs
    && forall i :: 0 <= i < |Visible(frame)| ==> -frame[i] < cfg.gapUs
  }

  // ----- the bits on the air -----

  /** The maximal run one timing becomes. */
  function RawOf(t: int, rate: nat): Raw {
    Raw(t > 0, Samples(Abs(t), rate))
  }

  function RawsOf(timings: seq<int>, rate: nat): (raws: seq<Raw>)
    ensures |raws| == |timings|
  {
    seq(|timings|, i requires 0 <= i < |timings| => RawOf(timings[i], rate))
  }

  lemma {:induction false} SlicedConcat(a: seq<nat>, b: seq<nat>, threshold: nat)
    ensures Sliced(a + b, threshold) == Sliced(a, threshold) + Sliced(b, threshold)
  {
  }

  lemma {:induction false} SlicedRepeat(mag: nat, count: nat, threshold: nat)
    ensures Sliced(Repeat(mag, count), threshold) == Repeat(mag >= threshold, count)
  {
  }

  /** On the air a timing list is the runs it lists, at any threshold between silence and carrier. */
  lemma {:induction false} SynthesizedBits(timings: seq<int>, rate: nat, level: Byte, threshold: nat)
    requires 0 < threshold <= AbsSigned(level)
    ensures Sliced(Envelope(Synthesized(timings, rate, level)), threshold) == Expand(RawsOf(timings, rate))
  {
    if timings != [] {
      var front, t := Front(timings), Last(timings);
      SynthesizedBits(front, rate, level, threshold);
      EnvelopeConcat(Synthesized(front, rate, level), Pulse(t, rate, level));
      ToneEnvelope(if t > 0 then level else 0, Samples(Abs(t), rate));
      SlicedConcat(Envelope(Synthesized(front, rate, level)), Envelope(Pulse(t, rate, level)), threshold);
      SlicedRepeat(AbsSigned(if t > 0 then level else 0), Samples(Abs(t), rate), threshold);
      assert Front(RawsOf(timings, rate)) == RawsOf(front, rate);
    }
  }

  // ----- periodic lists -----

  /** A core, then a separator and the core again `repeat` times. */
  function Periodic<T>(core: seq<T>, gap: T, repeat: nat): (r: seq<T>)
    ensures core != [] ==> r != [] && Last(r) == Last(core)
  {
    if repeat == 0 then core else Periodic(core, gap, repeat - 1) + [gap] + core
  }

  /** The samples of silence between two visible frames: the invisible trailing space, and the gap. */
  function GapRaw(frame: seq<int>, gapUs: nat, rate: nat): Raw
    requires frame != []
  {
    Raw(false, TailSamples(frame, rate) + Samples(gapUs, rate))
  }

  function TailSamples(frame: seq<int>, rate: nat): nat
    requires frame != []
  {
    if |frame| % 2 == 1 then 0 else Samples(Abs(Last(frame)), rate)
  }

  lemma {:induction false} ExpandSpace(n: nat)
    ensures Expand([Raw(false, n)]) == Repeat(false, n)
  {
    assert Front([Raw(false, n)]) == [];
  }

  /** On the air these timings are these runs, and then so much silence. */
  ghost predicate Airs(timings: seq<int>, rate: nat, raws: seq<Raw>, tail: nat) {
    Expand(RawsOf(timings, rate)) == Expand(raws) + Repeat(false, tail)
  }

  /** A frame's bits are its visible part and its trailing space. */
  lemma {:induction false} FrameBits(frame: seq<int>, rate: nat, minUs: nat)
    requires IsFrame(frame, minUs)
    ensures Airs(frame, rate, RawsOf(Visible(frame), rate), TailSamples(frame, rate))
  {
    if |frame| % 2 == 0 {
      assert IsFrameTiming(|frame| - 1, Last(frame), minUs);
      assert Front(RawsOf(frame, rate)) == RawsOf(Front(frame), rate);
    }
  }

  /** The trailing space of every frame but the last merges with the gap after it. */
  lemma {:induction false} TransmissionBits(frame: seq<int>, repeat: nat, gapUs: nat, rate: nat, minUs: nat)
    requires IsFrame(frame, minUs)
    ensures Airs(Transmission(frame, repeat, gapUs), rate,
                 Periodic(RawsOf(Visible(frame), rate), GapRaw(frame, gapUs, rate), repeat), TailSamples(frame, rate))
  {
    FrameBits(frame, rate, minUs);
    PeriodicBits(frame, repeat, gapUs, rate, RawsOf(Visible(frame), rate), TailSamples(frame, rate));
  }

  lemma {:induction false} PeriodicBits(
    frame: seq<int>, repeat: nat, gapUs: nat, rate: nat, core: seq<Raw>, tail: nat)
    requires Airs(frame, rate, core, tail)
    ensures Airs(Transmission(frame, repeat, gapUs), rate,
                 Periodic(core, Raw(false, tail + Samples(gapUs, rate)), repeat), tail)
  {
    if repeat > 0 {
      PeriodicBits(frame, repeat - 1, gapUs, rate, core, tail);
      OneMoreFrame(Transmission(frame, repeat - 1, gapUs), frame, gapUs, rate,
                   Periodic(core, Raw(false, tail + Samples(gapUs, rate)), repeat - 1), core, tail);
    }
  }

  lemma {:induction false} OneMoreFrame(
    sent: seq<int>, frame: seq<int>, gapUs: nat, rate: nat, before: seq<Raw>, core: seq<Raw>, tail: nat)
    requires Airs(sent, rate, before, tail) && Airs(frame, rate, core, tail)
    ensures Airs(sent + [Silence(gapUs)] + frame, rate, before + [Raw(false, tail + Samples(gapUs, rate))] + core, tail)
  {
    SentBits(sent, gapUs, frame, rate);
    OneMoreCore(before, core, tail, Samples(gapUs, rate), RawsOf(sent, rate), RawsOf(frame, rate),
                RawsOf(sent + [Silence(gapUs)] + frame, rate));
  }

  lemma {:induction false} OneMoreCore(
    before: seq<Raw>, core: seq<Raw>, tail: nat, n: nat, sent: seq<Raw>, frame: seq<Raw>, whole: seq<Raw>)
    requires Expand(whole) == Expand(sent) + Repeat(false, n) + Expand(frame)
    requires Expand(sent) == Expand(before) + Repeat(false, tail) && Expand(frame) == Expand(core) + Repeat(false, tail)
    ensures Expand(whole) == Expand(before + [Raw(false, tail + n)] + core) + Repeat(false, tail)
  {
    SeparatedBits(before, tail + n, core);
    RepeatConcat(false, tail, n);
    MergeMiddle(Expand(before), Repeat(false, tail), Repeat(false, n), Expand(core),
                Expand(sent), Repeat(false, tail + n), Expand(frame));
  }

  lemma {:induction false} SentBits(sent: seq<int>, gapUs: nat, frame: seq<int>, rate: nat)
    ensures Expand(RawsOf(sent + [Silence(gapUs)] + frame, rate)) ==
            Expand(RawsOf(sent, rate)) + Repeat(false, Samples(gapUs, rate)) + Expand(RawsOf(frame, rate))
  {
    var n := Samples(gapUs, rate);
    assert RawsOf(sent + [Silence(gapUs)] + frame, rate) == RawsOf(sent, rate) + [Raw(false, n)] + RawsOf(frame, rate);
    SeparatedBits(RawsOf(sent, rate), n, RawsOf(frame, rate));
  }

  lemma {:induction false} SeparatedBits(a: seq<Raw>, n: nat, b: seq<Raw>)
    ensures Expand(a + [Raw(false, n)] + b) == Expand(a) + Repeat(false, n) + Expand(b)
  {
    ExpandConcat(a + [Raw(false, n)], b);
    ExpandConcat(a, [Raw(false, n)]);
    ExpandSpace(n);
  }

  lemma {:induction false} MergeMiddle<T>(
    a: seq<T>, b: seq<T>, c: seq<T>, d: seq<T>, ab: seq<T>, bc: seq<T>, db: seq<T>)
    requires ab == a + b && bc == b + c && db == d + b
    ensures ab + c + db == a + bc + d + b
  {
  }

  // ----- folding and splitting a periodic list -----

  lemma {:induction false} InMicrosConcat(clock: Clock, a: seq<Raw>, b: seq<Raw>)
    ensures InMicros(clock, a + b) == InMicros(clock, a) + InMicros(clock, b)
  {
  }

  lemma {:induction false} InMicrosPeriodic(clock: Clock, core: seq<Raw>, gap: Raw, repeat: nat)
    ensures InMicros(clock, Periodic(core, gap, repeat)) ==
            Periodic(InMicros(clock, core), Run(gap.on, clock.us(gap.len)), repeat)
  {
    if repeat > 0 {
      InMicrosPeriodic(clock, core, gap, repeat - 1);
    }
  }

  /** What is left of a frame that overflows the buffer: its last edges. Any other is left whole. */
  function Surviving(frame: seq<int>): seq<int> {
    frame[|frame| - HeldOf(|frame|)..]
  }

  lemma {:induction false} ShortFramesSurvive(frame: seq<int>)
    requires |frame| <= MAX_BURST_EDGES
    ensures Surviving(frame) == frame && SpilledOf(|frame|) == 0
  {
    HeldAll(|frame|);
  }

  lemma {:induction false} SurvivingEdges(frame: seq<int>)
    ensures var n := |frame|;
      && |Surviving(frame)| == (if n % 4098 == 4097 then 0 else n % 4098)
      && Surviving(frame) == frame[n - |Surviving(frame)|..]
      && SpilledOf(n) == (n + 1) / 4098
  {
    CycleInClosedForm(|frame|);
  }

  /** n copies of what survives of a frame if it has the minimum of edges, and otherwise none. */
  function Received(limits: Limits, frame: seq<int>, n: nat): seq<seq<int>> {
    if |Surviving(frame)| >= limits.minEdges then Repeat(Surviving(frame), n) else []
  }

  /** All that comes of one frame, the overflows included. */
  function OneReceived(limits: Limits, frame: seq<int>): Fed {
    Fed(Acc([], SpilledOf(|frame|)), if |Surviving(frame)| >= limits.minEdges then [Surviving(frame)] else [])
  }

  /** All that comes of n frames, one after the other. */
  function AllReceived(one: Fed, n: nat): Fed {
    if n == 0 then Fed(EMPTY, []) else Shifted(AllReceived(one, n - 1), one)
  }

  lemma {:induction false} AllReceivedAre(limits: Limits, frame: seq<int>, n: nat)
    ensures AllReceived(OneReceived(limits, frame), n).bursts == Received(limits, frame, n)
  {
    if n >= 1 {
      AllReceivedAre(limits, frame, n - 1);
      assert Repeat(Surviving(frame), n - 1) + [Surviving(frame)] == Repeat(Surviving(frame), n);
    }
  }

  /** Each copy overflows as often as one. */
  lemma {:induction false} AllOverflow(one: Fed, n: nat)
    ensures AllReceived(one, n).acc.overflows == n * one.acc.overflows
  {
    if n >= 1 {
      AllOverflow(one, n - 1);
      NextMultiple(n, one.acc.overflows);
    }
  }

  lemma {:induction false} NextMultiple(n: nat, o: nat)
    requires n >= 1
    ensures n * o == (n - 1) * o + o
  {
  }

  lemma {:induction false} TimingsFrom(runs: seq<Run>, k: nat)
    requires k <= |runs|
    ensures Timings(runs[k..]) == Timings(runs)[k..]
  {
  }

  lemma {:induction false} OutcomeIs(limits: Limits, core: seq<Run>, h: nat, o: nat, frame: seq<int>)
    requires h <= |core| && frame == Timings(core)
    ensures Outcome(limits, core, h, o) ==
            Fed(Acc([], o), if h >= limits.minEdges then [frame[|frame| - h..]] else [])
  {
    TimingsFrom(core, |core| - h);
  }

  lemma {:induction false} CoreSplit(limits: Limits, core: seq<Run>)
    requires limits.minEdges >= 1 && Piece(limits, core) && |core| % 2 == 1
    ensures Split(limits, core) == OneReceived(limits, Timings(core))
  {
    PieceSplit(limits, core);
    OutcomeIs(limits, core, HeldOf(|core|), SpilledOf(|core|), Timings(core));
  }

  lemma {:induction false} PeriodicSplit(limits: Limits, core: seq<Run>, gap: Run, repeat: nat)
    requires IsGap(limits, gap)
    ensures Split(limits, Periodic(core, gap, repeat)) == AllReceived(Split(limits, core), repeat + 1)
  {
    var one := Split(limits, core);
    if repeat == 0 {
      assert [] + one.bursts == one.bursts;
      assert AllReceived(one, 1) == Shifted(AllReceived(one, 0), one);
    } else {
      PeriodicSplit(limits, core, gap, repeat - 1);
      SplitAtGap(limits, Periodic(core, gap, repeat - 1), gap, core);
    }
  }

  /** The buffer at the end of the last core has room for a space. */
  lemma {:induction false} PeriodicHolds(limits: Limits, core: seq<Run>, gap: Run, repeat: nat)
    requires Piece(limits, core) && |core| % 2 == 1 && IsGap(limits, gap)
    ensures |Feed(limits, Periodic(core, gap, repeat)).acc.current| < MAX_BURST_EDGES
  {
    PieceFed(limits, core);
    HeldIsOdd(|core|);
    if repeat > 0 {
      FedAfterGap(limits, Periodic(core, gap, repeat - 1), gap, core);
    }
  }

  lemma {:induction false} TrailedSplit(limits: Limits, runs: seq<Run>, space: Run)
    requires limits.minEdges >= 1 && !space.on && space.us >= 1
    requires |Feed(limits, runs).acc.current| < MAX_BURST_EDGES
    ensures Split(limits, runs + [space]) == Split(limits, runs)
  {
    assert Front(runs + [space]) == runs;
    if IsGap(limits, space) {
      ClosedTwice(limits, Feed(limits, runs));
    } else {
      TrailingSpaceVanishes(limits, Feed(limits, runs), space);
    }
  }

  /** Identical cores between gaps, then perhaps one more space: what survives of each core comes out. */
  lemma {:induction false} SplitPeriodic(limits: Limits, core: seq<Run>, gap: Run, repeat: nat, tail: seq<Run>)
    requires limits.minEdges >= 1 && Piece(limits, core) && |core| % 2 == 1 && IsGap(limits, gap)
    requires tail == [] || (|tail| == 1 && !tail[0].on && tail[0].us >= 1)
    ensures Split(limits, Periodic(core, gap, repeat) + tail) ==
            AllReceived(OneReceived(limits, Timings(core)), repeat + 1)
  {
    PeriodicSplit(limits, core, gap, repeat);
    CoreSplit(limits, core);
    PeriodicHolds(limits, core, gap, repeat);
    TailSplit(limits, Periodic(core, gap, repeat), tail);
  }

  lemma {:induction false} TailSplit(limits: Limits, runs: seq<Run>, tail: seq<Run>)
    requires limits.minEdges >= 1 && |Feed(limits, runs).acc.current| < MAX_BURST_EDGES
    requires tail == [] || (|tail| == 1 && !tail[0].on && tail[0].us >= 1)
    ensures Split(limits, runs + tail) == Split(limits, runs)
  {
    if tail == [] {
      assert runs + tail == runs;
    } else {
      assert tail == [tail[0]];
      TrailedSplit(limits, runs, tail[0]);
    }
  }

  // ----- the round trip -----

  lemma {:induction false} TimingMeasured(t: int, rate: nat, minUs: nat)
    requires rate >= MICROS_PER_SECOND && Abs(t) >= 1 && Abs(t) >= minUs
    ensures Samples(Abs(t), rate) >= AtLeastOneSample(minUs, rate)
    ensures Micros(Samples(Abs(t), rate), rate) == Abs(t)
  {
    MicrosOfSamples(Abs(t), rate);
    SamplesMonotone(minUs, Abs(t), rate);
    RoundDivUnique(0, rate, 0);
  }

  /** Position i of a visible frame, as measured. */
  ghost predicate MeasuredAs(sl: Slicing, raw: Raw, i: nat, t: int) {
    && raw.on == (i % 2 == 0) == (t > 0)
    && raw.len >= sl.clock.minSamples
    && sl.clock.us(raw.len) == Abs(t) >= 1
    && -t < sl.limits.gapUs
  }

  lemma {:induction false} VisibleMeasured(frame: seq<int>, cfg: Config, gapUs: nat, i: nat)
    requires Receivable(frame, gapUs, cfg) && i < |Visible(frame)|
    ensures MeasuredAs(SlicingOf(cfg), RawsOf(Visible(frame), cfg.rate)[i], i, Visible(frame)[i])
  {
    assert IsFrameTiming(i, frame[i], cfg.minUs);
    assert -frame[i] < cfg.gapUs;
    TimingMeasured(frame[i], cfg.rate, cfg.minUs);
  }

  /** The visible part of a frame as the receiver measures it. */
  lemma {:induction false} VisibleRuns(frame: seq<int>, cfg: Config, gapUs: nat)
    requires Receivable(frame, gapUs, cfg)
    ensures MeasuredFrame(SlicingOf(cfg), RawsOf(Visible(frame), cfg.rate), Visible(frame))
  {
    forall i | 0 <= i < |Visible(frame)|
      ensures MeasuredAs(SlicingOf(cfg), RawsOf(Visible(frame), cfg.rate)[i], i, Visible(frame)[i])
    {
      VisibleMeasured(frame, cfg, gapUs, i);
    }
  }

  ghost predicate MeasuredFrame(sl: Slicing, core: seq<Raw>, seen: seq<int>) {
    && |core| == |seen| && |seen| % 2 == 1
    && forall i :: 0 <= i < |core| ==> MeasuredAs(sl, core[i], i, seen[i])
  }

  lemma {:induction false} MeasuredIsCore(sl: Slicing, core: seq<Raw>, seen: seq<int>)
    requires MeasuredFrame(sl, core, seen)
    ensures AlternatingRaws(core) && core[0].on && Last(core).on
    ensures forall i :: 0 <= i < |core| ==> core[i].len >= sl.clock.minSamples
    ensures Piece(sl.limits, InMicros(sl.clock, core)) && |core| % 2 == 1
    ensures Timings(InMicros(sl.clock, core)) == seen
  {
    var runs := InMicros(sl.clock, core);
    forall i, j | 0 <= i < j < |core| && j == i + 1 ensures core[i].on != core[j].on {
      assert MeasuredAs(sl, core[i], i, seen[i]) && MeasuredAs(sl, core[j], j, seen[j]);
    }
    assert MeasuredAs(sl, core[0], 0, seen[0]);
    assert MeasuredAs(sl, core[|core| - 1], |core| - 1, seen[|core| - 1]);
    forall i | 0 <= i < |core|
      ensures core[i].len >= sl.clock.minSamples && Signed(runs[i]) == seen[i]
      ensures runs[i].us >= 1 && !IsGap(sl.limits, runs[i])
    {
      assert MeasuredAs(sl, core[i], i, seen[i]);
    }
    assert Timings(runs) == seen;
    assert runs[..|runs|] == runs;
    PrefixIsPiece(sl.limits, runs, |runs|);
  }

  lemma {:induction false} PeriodicRaws(core: seq<Raw>, gap: Raw, repeat: nat, floor: nat)
    requires AlternatingRaws(core) && core != [] && core[0].on && Last(core).on && !gap.on
    requires gap.len >= floor && forall i :: 0 <= i < |core| ==> core[i].len >= floor
    ensures var raws := Periodic(core, gap, repeat);
      AlternatingRaws(raws) && forall i :: 0 <= i < |raws| ==> raws[i].len >= floor
  {
    if repeat > 0 {
      var before := Periodic(core, gap, repeat - 1);
      PeriodicRaws(core, gap, repeat - 1, floor);
      AlternatingJoin(before, [gap]);
      AlternatingJoin(before + [gap], core);
    }
  }

  lemma {:induction false} AlternatingJoin(a: seq<Raw>, b: seq<Raw>)
    requires AlternatingRaws(a) && AlternatingRaws(b)
    requires a != [] && b != [] ==> Last(a).on != b[0].on
    ensures AlternatingRaws(a + b)
  {
    var whole := a + b;
    forall i, j | 0 <= i < j < |whole| && j == i + 1 ensures whole[i].on != whole[j].on {
      if j < |a| {
        assert a[i].on != a[j].on;
      } else if i >= |a| {
        assert b[i - |a|].on != b[j - |a|].on;
      }
    }
  }

  /** The bits a receiver sees of a transmission followed by `quiet` samples of silence. */
  function Heard(
    frame: seq<int>, repeat: nat, gapUs: nat, rate: nat, level: Byte, threshold: nat, quiet: nat): seq<bool>
  {
    Sliced(Envelope(Synthesized(Transmission(frame, repeat, gapUs), rate, level)), threshold) + Repeat(false, quiet)
  }

  /** What is heard, as maximal runs: the visible frames, the gaps, and the silence at the end if any. */
  function HeardRaws(frame: seq<int>, repeat: nat, gapUs: nat, rate: nat, quiet: nat): seq<Raw>
    requires frame != []
  {
    var end := TailSamples(frame, rate) + quiet;
    Periodic(RawsOf(Visible(frame), rate), GapRaw(frame, gapUs, rate), repeat)
    + (if end == 0 then [] else [Raw(false, end)])
  }

  lemma {:induction false} GapMeasured(frame: seq<int>, gapUs: nat, cfg: Config)
    requires Receivable(frame, gapUs, cfg)
    ensures var sl, gap := SlicingOf(cfg), GapRaw(frame, gapUs, cfg.rate);
      gap.len >= sl.clock.minSamples && sl.clock.us(gap.len) >= gapUs
  {
    TimingMeasured(gapUs, cfg.rate, cfg.minUs);
    MicrosMonotone(Samples(gapUs, cfg.rate), GapRaw(frame, gapUs, cfg.rate).len, cfg.rate);
  }

  /** Silence after a transmission that is neither a glitch nor rounded away. */
  ghost predicate Audible(sl: Slicing, quiet: nat) {
    quiet == 0 || (quiet >= sl.clock.minSamples && sl.clock.us(quiet) >= 1)
  }

  lemma {:induction false} TailMeasured(frame: seq<int>, gapUs: nat, cfg: Config, quiet: nat)
    requires Receivable(frame, gapUs, cfg) && Audible(SlicingOf(cfg), quiet)
    ensures Audible(SlicingOf(cfg), TailSamples(frame, cfg.rate) + quiet)
  {
    if |frame| % 2 == 0 {
      assert IsFrameTiming(|frame| - 1, Last(frame), cfg.minUs);
      TimingMeasured(Last(frame), cfg.rate, cfg.minUs);
      MicrosMonotone(TailSamples(frame, cfg.rate), TailSamples(frame, cfg.rate) + quiet, cfg.rate);
    }
  }

  lemma {:induction false} HeardExpands(
    frame: seq<int>, repeat: nat, gapUs: nat, rate: nat, minUs: nat, level: Byte, threshold: nat, quiet: nat)
    requires IsFrame(frame, minUs) && 0 < threshold <= AbsSigned(level)
    ensures Heard(frame, repeat, gapUs, rate, level, threshold, quiet) ==
            Expand(HeardRaws(frame, repeat, gapUs, rate, quiet))
  {
    var frames := Periodic(RawsOf(Visible(frame), rate), GapRaw(frame, gapUs, rate), repeat);
    var tail := TailSamples(frame, rate);
    SynthesizedBits(Transmission(frame, repeat, gapUs), rate, level, threshold);
    TransmissionBits(frame, repeat, gapUs, rate, minUs);
    ConcatAssociates(Expand(frames), Repeat(false, tail), Repeat(false, quiet));
    RepeatConcat(false, tail, quiet);
    TrailingExpands(frames, tail + quiet);
  }

  lemma {:induction false} TrailingExpands(raws: seq<Raw>, end: nat)
    ensures Expand(raws) + Repeat(false, end) == Expand(raws + (if end == 0 then [] else [Raw(false, end)]))
  {
    if end == 0 {
      assert raws + [] == raws;
      assert Expand(raws) + Repeat(false, 0) == Expand(raws);
    } else {
      ExpandConcat(raws, [Raw(false, end)]);
      ExpandSpace(end);
    }
  }

  /** What is heard is made of alternating runs above the glitch floor. */
  lemma {:induction false} HeardShape(frame: seq<int>, repeat: nat, gapUs: nat, cfg: Config, quiet: nat)
    requires Receivable(frame, gapUs, cfg) && Audible(SlicingOf(cfg), quiet)
    ensures var raws, floor := HeardRaws(frame, repeat, gapUs, cfg.rate, quiet), SlicingOf(cfg).clock.minSamples;
      AlternatingRaws(raws) && forall i :: 0 <= i < |raws| ==> raws[i].len >= floor
  {
    var rate, sl := cfg.rate, SlicingOf(cfg);
    var core, gap := RawsOf(Visible(frame), rate), GapRaw(frame, gapUs, rate);
    var end := TailSamples(frame, rate) + quiet;
    VisibleRuns(frame, cfg, gapUs);
    MeasuredIsCore(sl, core, Visible(frame));
    GapMeasured(frame, gapUs, cfg);
    TailMeasured(frame, gapUs, cfg, quiet);
    PeriodicRaws(core, gap, repeat, sl.clock.minSamples);
    if end > 0 {
      AlternatingJoin(Periodic(core, gap, repeat), [Raw(false, end)]);
    }
  }

  lemma {:induction false} FoldsPeriodic(clock: Clock, core: seq<Raw>, gap: nat, repeat: nat, end: nat, raws: seq<Raw>)
    requires raws == Periodic(core, Raw(false, gap), repeat) + (if end == 0 then [] else [Raw(false, end)])
    requires AlternatingRaws(raws) && forall i :: 0 <= i < |raws| ==> raws[i].len >= clock.minSamples
    ensures Folded(clock, raws) ==
            Periodic(InMicros(clock, core), Run(false, clock.us(gap)), repeat)
            + (if end == 0 then [] else [Run(false, clock.us(end))])
  {
    var frames, last := Periodic(core, Raw(false, gap), repeat), if end == 0 then [] else [Raw(false, end)];
    FoldedClean(clock, raws);
    InMicrosPeriodic(clock, core, Raw(false, gap), repeat);
    InMicrosConcat(clock, frames, last);
    assert InMicros(clock, last) == if end == 0 then [] else [Run(false, clock.us(end))];
  }

  /**
   * The law the modulator and demodulator exist for: a frame sent `repeat` + 1 times is received
   * `repeat` + 1 times, exactly, but for a trailing space, which cannot be told from the silence
   * after it, if what is left has the minimum of edges, and otherwise not at all. It holds at every
   * rate, amplitude, threshold and silence within the stated limits.
   */
  lemma {:induction false} TransmitReceive(
    frame: seq<int>, repeat: nat, gapUs: nat, cfg: Config, level: Byte, threshold: nat, quiet: nat)
    requires Receivable(frame, gapUs, cfg) && Audible(SlicingOf(cfg), quiet)
    requires 0 < threshold <= AbsSigned(level)
    ensures var sl, bits := SlicingOf(cfg), Heard(frame, repeat, gapUs, cfg.rate, level, threshold, quiet);
      var received := Split(sl.limits, RunsOf(sl.clock, bits));
      && received == AllReceived(OneReceived(sl.limits, Visible(frame)), repeat + 1)
      && received.bursts == Received(sl.limits, Visible(frame), repeat + 1)
  {
    var core, gap := RawsOf(Visible(frame), cfg.rate), GapRaw(frame, gapUs, cfg.rate).len;
    var end, raws := TailSamples(frame, cfg.rate) + quiet, HeardRaws(frame, repeat, gapUs, cfg.rate, quiet);
    var bits := Heard(frame, repeat, gapUs, cfg.rate, level, threshold, quiet);
    BitsHeard(frame, repeat, gapUs, cfg, level, threshold, quiet, core, gap, end, raws, bits);
    RunsReceived(SlicingOf(cfg), Visible(frame), core, gap, repeat, end, raws, bits);
    AllReceivedAre(SlicingOf(cfg).limits, Visible(frame), repeat + 1);
  }

  /** The bits heard are the measured frames with the gaps between them, and perhaps a space. */
  ghost predicate HeardAs(
    sl: Slicing, seen: seq<int>, core: seq<Raw>, gap: nat, repeat: nat, end: nat, raws: seq<Raw>, bits: seq<bool>)
  {
    RawRuns(bits) == raws && Shaped(sl, core, gap, repeat, end, raws) && Parts(sl, seen, core, gap, end)
  }

  ghost predicate Shaped(sl: Slicing, core: seq<Raw>, gap: nat, repeat: nat, end: nat, raws: seq<Raw>) {
    && raws == Periodic(core, Raw(false, gap), repeat) + (if end == 0 then [] else [Raw(false, end)])
    && AlternatingRaws(raws) && forall i :: 0 <= i < |raws| ==> raws[i].len >= sl.clock.minSamples
  }

  ghost predicate Parts(sl: Slicing, seen: seq<int>, core: seq<Raw>, gap: nat, end: nat) {
    && sl.limits.minEdges >= 1 && MeasuredFrame(sl, core, seen)
    && sl.clock.us(gap) >= 1 && sl.clock.us(gap) >= sl.limits.gapUs && (end > 0 ==> sl.clock.us(end) >= 1)
  }

  lemma {:induction false} BitsHeard(
    frame: seq<int>, repeat: nat, gapUs: nat, cfg: Config, level: Byte, threshold: nat, quiet: nat,
    core: seq<Raw>, gap: nat, end: nat, raws: seq<Raw>, bits: seq<bool>)
    requires Receivable(frame, gapUs, cfg) && Audible(SlicingOf(cfg), quiet)
    requires 0 < threshold <= AbsSigned(level)
    requires core == RawsOf(Visible(frame), cfg.rate) && gap == GapRaw(frame, gapUs, cfg.rate).len
    requires end == TailSamples(frame, cfg.rate) + quiet && raws == HeardRaws(frame, repeat, gapUs, cfg.rate, quiet)
    requires bits == Heard(frame, repeat, gapUs, cfg.rate, level, threshold, quiet)
    ensures HeardAs(SlicingOf(cfg), Visible(frame), core, gap, repeat, end, raws, bits)
  {
    HeardRuns(frame, repeat, gapUs, cfg, level, threshold, quiet);
    HeardParts(frame, gapUs, cfg, quiet);
    HeardShaped(frame, repeat, gapUs, cfg, quiet, core, gap, end, raws);
  }

  lemma {:induction false} HeardShaped(
    frame: seq<int>, repeat: nat, gapUs: nat, cfg: Config, quiet: nat,
    core: seq<Raw>, gap: nat, end: nat, raws: seq<Raw>)
    requires Receivable(frame, gapUs, cfg) && Audible(SlicingOf(cfg), quiet)
    requires core == RawsOf(Visible(frame), cfg.rate) && gap == GapRaw(frame, gapUs, cfg.rate).len
    requires end == TailSamples(frame, cfg.rate) + quiet && raws == HeardRaws(frame, repeat, gapUs, cfg.rate, quiet)
    ensures Shaped(SlicingOf(cfg), core, gap, repeat, end, raws)
  {
    HeardShape(frame, repeat, gapUs, cfg, quiet);
  }

  /** Such bits are received as what survives of each frame. */
  lemma {:induction false} RunsReceived(
    sl: Slicing, seen: seq<int>, core: seq<Raw>, gap: nat, repeat: nat, end: nat, raws: seq<Raw>, bits: seq<bool>)
    requires HeardAs(sl, seen, core, gap, repeat, end, raws, bits)
    ensures Split(sl.limits, RunsOf(sl.clock, bits)) == AllReceived(OneReceived(sl.limits, seen), repeat + 1)
  {
    FoldsPeriodic(sl.clock, core, gap, repeat, end, raws);
    MeasuredSplits(sl, core, seen, sl.clock.us(gap), repeat, end);
  }

  lemma {:induction false} HeardParts(frame: seq<int>, gapUs: nat, cfg: Config, quiet: nat)
    requires Receivable(frame, gapUs, cfg) && Audible(SlicingOf(cfg), quiet)
    ensures Parts(SlicingOf(cfg), Visible(frame), RawsOf(Visible(frame), cfg.rate),
                  GapRaw(frame, gapUs, cfg.rate).len, TailSamples(frame, cfg.rate) + quiet)
  {
    VisibleRuns(frame, cfg, gapUs);
    GapMeasured(frame, gapUs, cfg);
    TailMeasured(frame, gapUs, cfg, quiet);
  }

  lemma {:induction false} HeardRuns(
    frame: seq<int>, repeat: nat, gapUs: nat, cfg: Config, level: Byte, threshold: nat, quiet: nat)
    requires Receivable(frame, gapUs, cfg) && Audible(SlicingOf(cfg), quiet)
    requires 0 < threshold <= AbsSigned(level)
    ensures RawRuns(Heard(frame, repeat, gapUs, cfg.rate, level, threshold, quiet)) ==
            HeardRaws(frame, repeat, gapUs, cfg.rate, quiet)
  {
    HeardExpands(frame, repeat, gapUs, cfg.rate, cfg.minUs, level, threshold, quiet);
    HeardShape(frame, repeat, gapUs, cfg, quiet);
    RawRunsOfExpand(HeardRaws(frame, repeat, gapUs, cfg.rate, quiet));
  }

  /** Frames as measured, between gaps as measured, perhaps with a space after them. */
  lemma {:induction false} MeasuredSplits(
    sl: Slicing, core: seq<Raw>, seen: seq<int>, gapUs: nat, repeat: nat, end: nat)
    requires sl.limits.minEdges >= 1 && MeasuredFrame(sl, core, seen)
    requires gapUs >= 1 && gapUs >= sl.limits.gapUs && (end > 0 ==> sl.clock.us(end) >= 1)
    ensures Split(sl.limits, Periodic(InMicros(sl.clock, core), Run(false, gapUs), repeat)
                             + (if end == 0 then [] else [Run(false, sl.clock.us(end))]))
            == AllReceived(OneReceived(sl.limits, seen), repeat + 1)
  {
    MeasuredIsCore(sl, core, seen);
    SplitPeriodic(sl.limits, InMicros(sl.clock, core), Run(false, gapUs), repeat,
                  if end == 0 then [] else [Run(false, sl.clock.us(end))]);
  }

  /** A frame that ends with a space and has just the minimum of edges is never received. */
  lemma {:induction false} TrailingSpaceCosts(
    frame: seq<int>, repeat: nat, gapUs: nat, cfg: Config, level: Byte, threshold: nat, quiet: nat)
    requires Receivable(frame, gapUs, cfg) && Audible(SlicingOf(cfg), quiet)
    requires 0 < threshold <= AbsSigned(level)
    requires |frame| % 2 == 0 && |frame| == cfg.minEdges
    ensures var sl := SlicingOf(cfg);
      Split(sl.limits, RunsOf(sl.clock, Heard(frame, repeat, gapUs, cfg.rate, level, threshold, quiet))).bursts == []
  {
    TransmitReceive(frame, repeat, gapUs, cfg, level, threshold, quiet);
  }

  /** What is heard begins with a mark above the glitch floor and ends with a gap. */
  lemma {:induction false} HeardWhole(
    frame: seq<int>, repeat: nat, gapUs: nat, cfg: Config, level: Byte, threshold: nat, quiet: nat)
    requires Receivable(frame, gapUs, cfg) && Usable(cfg) && quiet >= SlicingOf(cfg).gapSamples
    requires 0 < threshold <= AbsSigned(level)
    ensures Audible(SlicingOf(cfg), quiet)
    ensures var bits := Heard(frame, repeat, gapUs, cfg.rate, level, threshold, quiet);
      BeginsCleanly(SlicingOf(cfg).clock, bits) && EndsSilent(bits, SlicingOf(cfg).gapSamples)
  {
    FloorInMicros(cfg.gapUs, quiet, cfg.rate);
    HeardRuns(frame, repeat, gapUs, cfg, level, threshold, quiet);
    HeardShape(frame, repeat, gapUs, cfg, quiet);
    RawRunsEncode(Heard(frame, repeat, gapUs, cfg.rate, level, threshold, quiet));
  }

  /** The same frames reach a live detector, as soon as the silence after them has lasted the gap. */
  lemma {:induction false} TransmitReceiveLive(
    frame: seq<int>, repeat: nat, gapUs: nat, cfg: Config, level: Byte, threshold: nat, quiet: nat,
    samples: seq<Sample>)
    requires Receivable(frame, gapUs, cfg) && Usable(cfg)
    requires 0 < threshold <= AbsSigned(level)
    requires quiet >= SlicingOf(cfg).gapSamples
    requires OnBits(samples) == Heard(frame, repeat, gapUs, cfg.rate, level, threshold, quiet)
    ensures FramesOf(StreamAll(SlicingOf(cfg), samples).bursts) ==
            Received(SlicingOf(cfg).limits, Visible(frame), repeat + 1)
    ensures StreamAll(SlicingOf(cfg), samples).acc.overflows ==
            AllReceived(OneReceived(SlicingOf(cfg).limits, Visible(frame)), repeat + 1).acc.overflows
  {
    HeardWhole(frame, repeat, gapUs, cfg, level, threshold, quiet);
    TransmitReceive(frame, repeat, gapUs, cfg, level, threshold, quiet);
    StreamingIsOffline(cfg, samples);
  }
}
