/**
 * The streaming detector refines the offline splitter.
 *
 * Streaming closes a burst eagerly, pushes a half-finished lookahead run early
 * and starts from an empty space; the offline path sees the whole recording.
 * Yet they cut the same bursts. The proof is a simulation over single samples:
 * the lookahead run is the offline list's last run (`InStep`), or a silence has
 * already closed the burst (`Flushed`), or that silence is over and its run is
 * the lookahead on both sides, of possibly different length (`Parted`).
 */
module Refinement {
  import opened Wrappers
  import opened SampleClock
  import opened Runs
  import opened Sequences
  import opened Bursts
  import opened Detector

  /** What the simulation needs of the durations. */
  ghost predicate Sound(sl: Slicing) {
    && 1 <= sl.clock.minSamples <= sl.gapSamples
    && sl.limits.minEdges >= 1
    && Monotone(sl.clock)
    && sl.clock.us(sl.gapSamples) >= sl.limits.gapUs
    && (sl.clock.minSamples >= 2 ==> sl.clock.us(sl.clock.minSamples) >= 1)
  }

  /** Any configuration at 1 MHz or more whose glitch floor is below its gap. */
  ghost predicate Usable(cfg: Config) {
    && cfg.Valid() && cfg.rate >= MICROS_PER_SECOND
    && cfg.gapUs >= 1 && cfg.minEdges >= 1
    && SlicingOf(cfg).clock.minSamples <= SlicingOf(cfg).gapSamples
  }

  lemma {:induction false} UsableIsSound(cfg: Config)
    requires Usable(cfg)
    ensures Sound(SlicingOf(cfg))
  {
    var sl := SlicingOf(cfg);
    ClockIsMonotone(cfg.rate, cfg.minUs);
    FloorInMicros(cfg.gapUs, sl.gapSamples, cfg.rate);
    if sl.clock.minSamples >= 2 {
      LongFloorIsPositive(cfg.minUs, sl.clock.minSamples, cfg.rate);
    }
  }

  // ----- what has been emitted -----

  function FramesOf(bursts: seq<Burst>): seq<seq<int>> {
    if bursts == [] then [] else FramesOf(Front(bursts)) + [Last(bursts).timings]
  }

  function Emitted(s: Stream): Fed {
    Fed(s.acc, FramesOf(s.bursts))
  }

  lemma {:induction false} TookEmits(s: Stream, step: (Acc, Option<seq<int>>))
    ensures Emitted(s.Took(step)) == Emitted(s).Took(step)
  {
    if step.1.Some? {
      assert Front(s.bursts + [Burst(step.1.value, s.peak)]) == s.bursts;
    }
  }

  // ----- the simulation -----

  /** What the offline accumulator has been fed while `out` may still change at its end. */
  function Settled(sl: Slicing, out: seq<Run>): Fed {
    if out == [] then Fed(EMPTY, []) else Feed(sl.limits, Front(out))
  }

  ghost predicate InStep(sl: Slicing, s: Stream, out: seq<Run>) {
    && s.pending == (if out == [] then None else Some(Last(out)))
    && Emitted(s) == Settled(sl, out)
  }

  ghost predicate Flushed(sl: Slicing, s: Stream, out: seq<Run>) {
    && s.pending.None?
    && Emitted(s) == Feed(sl.limits, out).Closed(sl.limits)
  }

  ghost predicate Parted(sl: Slicing, s: Stream, out: seq<Run>) {
    && out != [] && IsGap(sl.limits, Last(out))
    && s.pending.Some? && IsGap(sl.limits, s.pending.value)
    && Emitted(s) == Settled(sl, out).Closed(sl.limits)
  }

  predicate LongSilence(sl: Slicing, raw: Raw) {
    !raw.on && raw.len >= sl.gapSamples
  }

  /** `raws` are the maximal runs so far, the last of them still growing. */
  ghost predicate Simulates(sl: Slicing, s: Stream, raws: seq<Raw>)
    requires raws != []
  {
    var current, out := Last(raws), Folded(sl.clock, Front(raws));
    && s.on == current.on && s.len == current.len
    && if LongSilence(sl, current) then Flushed(sl, s, out) else InStep(sl, s, out) || Parted(sl, s, out)
  }

  lemma {:induction false} ClosedTwice(limits: Limits, fed: Fed)
    requires limits.minEdges >= 1
    ensures fed.Closed(limits).Closed(limits) == fed.Closed(limits)
  {
  }

  /** A lookahead run of its own is emitted as the offline path would have it. */
  lemma {:induction false} InStepEmits(sl: Slicing, s: Stream, out: seq<Run>)
    requires InStep(sl, s, out)
    ensures InStep(sl, EmitRun(sl, s), PushRun(sl.clock, out, Raw(s.on, s.len)))
  {
    var longer := PushRun(sl.clock, out, Raw(s.on, s.len));
    if out != [] {
      if |longer| == |out| {
        assert Front(longer) == Front(out);
      } else {
        assert Front(longer) == out;
        TookEmits(s.(pending := Some(Run(s.on, sl.clock.us(s.len)))), AccPush(sl.limits, s.acc, Last(out)));
      }
    }
  }

  lemma {:induction false} PartedEmits(sl: Slicing, s: Stream, out: seq<Run>)
    requires sl.limits.minEdges >= 1
    requires Parted(sl, s, out)
    ensures var longer := PushRun(sl.clock, out, Raw(s.on, s.len));
      Parted(sl, EmitRun(sl, s), longer) || InStep(sl, EmitRun(sl, s), longer)
  {
    var longer := PushRun(sl.clock, out, Raw(s.on, s.len));
    if |longer| == |out| {
      assert Front(longer) == Front(out);
    } else {
      assert Front(longer) == out;
      TookEmits(s.(pending := Some(Run(s.on, sl.clock.us(s.len)))), AccPush(sl.limits, s.acc, s.pending.value));
      ClosedTwice(sl.limits, Settled(sl, out));
    }
  }

  /** Closing a burst eagerly does what the offline path will do once the silence is over. */
  lemma {:induction false} ClosingFlushes(sl: Slicing, s: Stream, out: seq<Run>)
    requires sl.limits.minEdges >= 1
    requires InStep(sl, s, out) || Parted(sl, s, out)
    ensures Flushed(sl, CloseBurst(sl, s), out)
    ensures CloseBurst(sl, s).on == s.on && CloseBurst(sl, s).len == s.len
  {
    if s.pending.None? {
      TookEmits(s, AccFinish(sl.limits, s.acc));
    } else {
      var unpended := s.(pending := None);
      var pushed := unpended.Took(AccPush(sl.limits, s.acc, s.pending.value));
      TookEmits(unpended, AccPush(sl.limits, s.acc, s.pending.value));
      TookEmits(pushed, AccFinish(sl.limits, pushed.acc));
      ClosedTwice(sl.limits, Settled(sl, out));
    }
  }

  /** The buffer holds an odd number of edges exactly after a mark. */
  lemma {:induction false} BufferParity(limits: Limits, runs: seq<Run>)
    requires Alternating(runs)
    ensures var current := Feed(limits, runs).acc.current;
      |current| <= MAX_BURST_EDGES && (current != [] ==> (Last(runs).on <==> |current| % 2 == 1))
  {
    if runs != [] {
      AlternatingFront(runs);
      BufferParity(limits, Front(runs));
    }
  }

  /** A space that is no gap leaves no trace if the burst ends with it. */
  lemma {:induction false} TrailingSpaceVanishes(limits: Limits, fed: Fed, space: Run)
    requires !space.on && !IsGap(limits, space)
    requires fed.acc.current != [] ==> |fed.acc.current| < MAX_BURST_EDGES && space.us >= 1
    ensures fed.Pushed(limits, space).Closed(limits) == fed.Closed(limits)
  {
    var current := fed.acc.current;
    if current != [] {
      assert Front(current + [Signed(space)]) == current;
    }
  }

  /** Maximal runs as the stream sees them: only the space it starts from may be empty. */
  ghost predicate StreamRaws(raws: seq<Raw>) {
    && raws != []
    && AlternatingRaws(raws)
    && forall i :: 1 <= i < |raws| ==> raws[i].len >= 1
  }

  lemma {:induction false} FoldedLast(clock: Clock, raws: seq<Raw>)
    requires raws != []
    ensures Folded(clock, raws) == PushRun(clock, Folded(clock, Front(raws)), Last(raws))
    ensures |raws| == 1 ==> Folded(clock, Front(raws)) == []
  {
  }

  /** If folding left the other polarity last, it folded a glitch of at least one sample. */
  lemma {:induction false} FoldedGlitch(sl: Slicing, raws: seq<Raw>)
    requires StreamRaws(raws)
    requires Last(Folded(sl.clock, raws)).on != Last(raws).on
    ensures sl.clock.minSamples >= 2
  {
    FoldedLast(sl.clock, raws);
    assert |raws| > 1 ==> raws[|raws| - 1].len >= 1;
  }

  /** When a long silence follows, an unfinished space before it makes no difference. */
  lemma {:induction false} SpaceBeforeSilence(sl: Slicing, done: seq<Raw>)
    requires Sound(sl) && StreamRaws(done) && Last(done).on
    ensures var out := Folded(sl.clock, done);
      !Last(out).on ==> Settled(sl, out).Closed(sl.limits) == Feed(sl.limits, out).Closed(sl.limits)
  {
    var out := Folded(sl.clock, done);
    if !Last(out).on {
      FoldedShape(sl.clock, done);
      AlternatingFront(out);
      BufferParity(sl.limits, Front(out));
      FoldedGlitch(sl, done);
      if |out| > 1 {
        assert out[|out| - 1].us >= sl.clock.us(sl.clock.minSamples);
      }
      if IsGap(sl.limits, Last(out)) {
        ClosedTwice(sl.limits, Settled(sl, out));
      } else {
        TrailingSpaceVanishes(sl.limits, Settled(sl, out), Last(out));
      }
    }
  }

  /** After a flush, a silence emitted becomes the lookahead run. */
  lemma {:induction false} SilenceEmits(sl: Slicing, s: Stream, out: seq<Run>)
    requires !s.on && s.len >= sl.clock.minSamples && sl.clock.us(s.len) >= sl.limits.gapUs
    requires Flushed(sl, s, out)
    requires out != [] && !Last(out).on ==> Settled(sl, out).Closed(sl.limits) == Feed(sl.limits, out).Closed(sl.limits)
    ensures Parted(sl, EmitRun(sl, s), PushRun(sl.clock, out, Raw(s.on, s.len)))
  {
    var longer := PushRun(sl.clock, out, Raw(s.on, s.len));
    if out != [] && !Last(out).on {
      assert Front(longer) == Front(out);
    } else {
      assert Front(longer) == out;
    }
  }

  lemma {:induction false} FlushedEmits(sl: Slicing, s: Stream, raws: seq<Raw>)
    requires Sound(sl) && StreamRaws(raws)
    requires LongSilence(sl, Last(raws)) && s.on == Last(raws).on && s.len == Last(raws).len
    requires Flushed(sl, s, Folded(sl.clock, Front(raws)))
    ensures Parted(sl, EmitRun(sl, s), Folded(sl.clock, raws))
  {
    var out := Folded(sl.clock, Front(raws));
    FoldedLast(sl.clock, raws);
    assert sl.clock.us(s.len) >= sl.clock.us(sl.gapSamples);
    if |raws| > 1 {
      FrontOfStream(raws);
      SpaceBeforeSilence(sl, Front(raws));
    }
    assert Last(raws) == Raw(s.on, s.len);
    SilenceEmits(sl, s, out);
  }

  lemma {:induction false} FrontOfStream(raws: seq<Raw>)
    requires StreamRaws(raws) && |raws| > 1
    ensures StreamRaws(Front(raws)) && Last(Front(raws)).on != Last(raws).on
  {
    var front := Front(raws);
    forall i, j | 0 <= i < j < |front| && j == i + 1 ensures front[i].on != front[j].on {
      assert raws[i].on != raws[j].on;
    }
    assert raws[|raws| - 2].on != raws[|raws| - 1].on;
  }

  lemma {:induction false} AddBitToStream(raws: seq<Raw>, bit: bool)
    requires StreamRaws(raws)
    ensures StreamRaws(AddBit(raws, bit))
  {
    var after := AddBit(raws, bit);
    forall i, j | 0 <= i < j < |after| && j == i + 1 ensures after[i].on != after[j].on {
      if j < |raws| {
        assert raws[i].on != raws[j].on && after[i].on == raws[i].on && after[j].on == raws[j].on;
      }
    }
  }

  /** The silence test at the end of a step. */
  lemma {:induction false} CloseCheck(sl: Slicing, s: Stream, raws: seq<Raw>)
    requires sl.limits.minEdges >= 1 && raws != []
    requires s.on == Last(raws).on && s.len == Last(raws).len
    requires InStep(sl, s, Folded(sl.clock, Front(raws))) || Parted(sl, s, Folded(sl.clock, Front(raws)))
    requires !s.on ==> s.len <= sl.gapSamples
    ensures Simulates(sl, if !s.on && s.len == sl.gapSamples then CloseBurst(sl, s) else s, raws)
  {
    var out := Folded(sl.clock, Front(raws));
    if !s.on && s.len == sl.gapSamples {
      ClosingFlushes(sl, s, out);
      assert LongSilence(sl, Last(raws)) && Flushed(sl, CloseBurst(sl, s), out);
    } else {
      assert !LongSilence(sl, Last(raws));
    }
  }

  /** The polarity does not change: the run in progress grows. */
  lemma {:induction false} GrowingSimulates(sl: Slicing, s: Stream, raws: seq<Raw>, sample: Sample)
    requires Sound(sl) && raws != [] && Simulates(sl, s, raws) && sample.on == s.on
    ensures Simulates(sl, StreamStep(sl, s, sample), AddBit(raws, sample.on))
  {
    var after := AddBit(raws, sample.on);
    assert Front(after) == Front(raws);
    if !LongSilence(sl, Last(raws)) {
      CloseCheck(sl, Peaked(s.(len := s.len + 1), sample), after);
    }
  }

  /** The polarity changes: the run in progress is emitted and a new one begins. */
  lemma {:induction false} FlippingSimulates(sl: Slicing, s: Stream, raws: seq<Raw>, sample: Sample)
    requires Sound(sl) && StreamRaws(raws) && Simulates(sl, s, raws) && sample.on != s.on
    ensures Simulates(sl, StreamStep(sl, s, sample), AddBit(raws, sample.on))
  {
    var after := AddBit(raws, sample.on);
    assert after == raws + [Raw(sample.on, 1)] && Front(after) == raws;
    FlipEmits(sl, s, raws);
    var peaked := Peaked(EmitRun(sl, s).(on := sample.on, len := 1), sample);
    assert peaked == Peaked(Counted(sl, s, sample), sample);
    CloseCheck(sl, peaked, after);
  }

  lemma {:induction false} FlipEmits(sl: Slicing, s: Stream, raws: seq<Raw>)
    requires Sound(sl) && StreamRaws(raws) && Simulates(sl, s, raws)
    ensures var emitted := EmitRun(sl, s);
      InStep(sl, emitted, Folded(sl.clock, raws)) || Parted(sl, emitted, Folded(sl.clock, raws))
  {
    var out := Folded(sl.clock, Front(raws));
    FoldedLast(sl.clock, raws);
    assert Last(raws) == Raw(s.on, s.len);
    if LongSilence(sl, Last(raws)) {
      FlushedEmits(sl, s, raws);
    } else if InStep(sl, s, out) {
      InStepEmits(sl, s, out);
    } else {
      PartedEmits(sl, s, out);
    }
  }

  lemma {:induction false} StepSimulates(sl: Slicing, s: Stream, raws: seq<Raw>, sample: Sample)
    requires Sound(sl) && StreamRaws(raws) && Simulates(sl, s, raws)
    ensures Simulates(sl, StreamStep(sl, s, sample), AddBit(raws, sample.on))
  {
    if sample.on == s.on {
      GrowingSimulates(sl, s, raws, sample);
    } else {
      FlippingSimulates(sl, s, raws, sample);
    }
  }

  function OnBits(samples: seq<Sample>): (bits: seq<bool>)
    ensures |bits| == |samples|
  {
    seq(|samples|, i requires 0 <= i < |samples| => samples[i].on)
  }

  /** The maximal runs of a stream, continuing the empty space a detector starts from. */
  function StreamRuns(bits: seq<bool>): seq<Raw> {
    RawRunsFrom([Raw(false, 0)], bits)
  }

  lemma {:induction false} StreamSimulates(sl: Slicing, samples: seq<Sample>)
    requires Sound(sl)
    ensures StreamRaws(StreamRuns(OnBits(samples)))
    ensures Simulates(sl, StreamAll(sl, samples), StreamRuns(OnBits(samples)))
  {
    if samples != [] {
      StreamSimulates(sl, Front(samples));
      assert Front(OnBits(samples)) == OnBits(Front(samples));
      AddBitToStream(StreamRuns(OnBits(Front(samples))), Last(samples).on);
      StepSimulates(sl, StreamAll(sl, Front(samples)), StreamRuns(OnBits(Front(samples))), Last(samples));
    } else {
      assert Folded(sl.clock, Front([Raw(false, 0)])) == [];
    }
  }

  // ----- streaming against the offline path -----

  lemma {:induction false} PushesExtend(limits: Limits, fed: Fed, run: Run)
    ensures fed.bursts <= fed.Pushed(limits, run).bursts
    ensures fed.bursts <= fed.Closed(limits).bursts
  {
  }

  /** Emitting a run only adds bursts. */
  lemma {:induction false} EmitRunExtends(sl: Slicing, s: Stream)
    ensures FramesOf(s.bursts) <= FramesOf(EmitRun(sl, s).bursts)
  {
    if s.pending.Some? {
      TookEmits(s.(pending := Some(Run(s.on, sl.clock.us(s.len)))), AccPush(sl.limits, s.acc, s.pending.value));
      PushesExtend(sl.limits, Emitted(s), s.pending.value);
    }
  }

  /**
   * At every moment the frames streamed so far are the first frames of the offline split of what was
   * heard so far, and once a silence has lasted the gap they are all of them.
   */
  lemma {:induction false} StreamedIsPrefix(sl: Slicing, s: Stream, raws: seq<Raw>)
    requires Sound(sl) && StreamRaws(raws) && Simulates(sl, s, raws)
    ensures var offline := Split(sl.limits, Folded(sl.clock, raws));
      && FramesOf(s.bursts) <= offline.bursts
      && (LongSilence(sl, Last(raws)) ==> Emitted(s) == offline)
  {
    var out, longer := Folded(sl.clock, Front(raws)), Folded(sl.clock, raws);
    EmitRunExtends(sl, s);
    PushesExtend(sl.limits, Settled(sl, longer), Last(longer));
    PushesExtend(sl.limits, Feed(sl.limits, longer), Last(longer));
    if LongSilence(sl, Last(raws)) {
      FlushedEmits(sl, s, raws);
      ClosedTwice(sl.limits, Settled(sl, longer));
    } else if InStep(sl, s, out) {
      InStepEmits(sl, s, out);
    } else {
      PartedEmits(sl, s, out);
    }
  }

  /** The bits with a leading glitch silenced: a first mark shorter than the floor becomes space. */
  function Unglitched(clock: Clock, bits: seq<bool>): (r: seq<bool>)
    ensures |r| == |bits|
    ensures (bits == [] || !bits[0] || RawRuns(bits)[0].len >= clock.minSamples) ==> r == bits
  {
    RawRunsEncode(bits);
    if bits == [] || !bits[0] || RawRuns(bits)[0].len >= clock.minSamples then bits
    else seq(|bits|, i requires 0 <= i < |bits| => bits[i] && i >= RawRuns(bits)[0].len)
  }

  lemma {:induction false} StreamRunsAre(bits: seq<bool>)
    requires bits != []
    ensures StreamRuns(bits) == if bits[0] then [Raw(false, 0)] + RawRuns(bits) else RawRuns(bits)
  {
    var front := Front(bits);
    if front != [] {
      StreamRunsAre(front);
      RawRunsEncode(front);
      AddBitAfter(Raw(false, 0), RawRuns(front), Last(bits));
    } else {
      assert RawRuns(front) == [] && StreamRuns(front) == [Raw(false, 0)];
    }
  }

  lemma {:induction false} AddBitAfter(raw: Raw, raws: seq<Raw>, bit: bool)
    requires raws != []
    ensures AddBit([raw] + raws, bit) == [raw] + AddBit(raws, bit)
  {
    assert Last([raw] + raws) == Last(raws);
    assert Front([raw] + raws) == [raw] + Front(raws);
  }

  lemma {:induction false} FoldedOne(clock: Clock, before: seq<Run>, raw: Raw)
    ensures FoldedFrom(clock, before, [raw]) == PushRun(clock, before, raw)
    ensures Folded(clock, [raw]) == [Run(raw.on, clock.us(raw.len))]
  {
    assert Front([raw]) == [];
    assert PushRun(clock, [], raw) == [Run(raw.on, clock.us(raw.len))];
    assert FoldedFrom(clock, [], [raw]) == PushRun(clock, [], raw);
  }

  lemma {:induction false} FoldedFromConcat(clock: Clock, before: seq<Run>, a: seq<Raw>, b: seq<Raw>)
    ensures FoldedFrom(clock, before, a + b) == FoldedFrom(clock, FoldedFrom(clock, before, a), b)
  {
    if b == [] {
      assert a + b == a;
    } else {
      assert Front(a + b) == a + Front(b) && Last(a + b) == Last(b);
      FoldedFromConcat(clock, before, a, Front(b));
    }
  }

  /** Two run lists that differ at most in how long their first space is. */
  ghost predicate SameTail(a: seq<Run>, b: seq<Run>) {
    a != [] && b != [] && !a[0].on && !b[0].on && a[1..] == b[1..]
  }

  lemma {:induction false} FoldedSameTail(clock: Clock, a: seq<Run>, b: seq<Run>, raws: seq<Raw>)
    requires SameTail(a, b)
    ensures SameTail(FoldedFrom(clock, a, raws), FoldedFrom(clock, b, raws))
  {
    if raws != [] {
      FoldedSameTail(clock, a, b, Front(raws));
      PushSameTail(clock, FoldedFrom(clock, a, Front(raws)), FoldedFrom(clock, b, Front(raws)), Last(raws));
    }
  }

  lemma {:induction false} PushSameTail(clock: Clock, a: seq<Run>, b: seq<Run>, raw: Raw)
    requires SameTail(a, b)
    ensures SameTail(PushRun(clock, a, raw), PushRun(clock, b, raw))
  {
    assert a == [a[0]] + a[1..] && b == [b[0]] + b[1..];
    if |a| > 1 {
      assert Last(a) == Last(a[1..]) == Last(b);
    }
    var a', b' := PushRun(clock, a, raw), PushRun(clock, b, raw);
    assert a'[1..] == b'[1..];
  }

  lemma {:induction false} LeadingSpaceIgnored(limits: Limits, space: Run, rest: seq<Run>)
    requires limits.minEdges >= 1 && !space.on
    ensures Feed(limits, [space] + rest) == Feed(limits, rest)
  {
    if rest == [] {
      assert [space] + rest == [space] && Front([space]) == [];
    } else {
      assert Front([space] + rest) == [space] + Front(rest) && Last([space] + rest) == Last(rest);
      LeadingSpaceIgnored(limits, space, Front(rest));
    }
  }

  lemma {:induction false} SameTailSplits(limits: Limits, a: seq<Run>, b: seq<Run>)
    requires limits.minEdges >= 1 && SameTail(a, b)
    ensures Split(limits, a) == Split(limits, b)
  {
    assert a == [a[0]] + a[1..] && b == [b[0]] + b[1..];
    LeadingSpaceIgnored(limits, a[0], a[1..]);
    LeadingSpaceIgnored(limits, b[0], b[1..]);
  }

  lemma {:induction false} SpaceThenMark(clock: Clock, space: Run, raws: seq<Raw>)
    requires raws != [] && !space.on && raws[0].on && raws[0].len >= clock.minSamples
    ensures FoldedFrom(clock, [space], raws) == [space] + Folded(clock, raws)
  {
    if |raws| == 1 {
      assert raws == [raws[0]];
      FoldedOne(clock, [space], raws[0]);
    } else {
      SpaceThenMark(clock, space, Front(raws));
      PushBehind(clock, [space], Folded(clock, Front(raws)), Last(raws));
    }
  }

  lemma {:induction false} ExpandCons(raw: Raw, raws: seq<Raw>)
    ensures Expand([raw] + raws) == Repeat(raw.on, raw.len) + Expand(raws)
  {
    ExpandConcat([raw], raws);
    assert Front([raw]) == [];
    assert Expand([raw]) == Repeat(raw.on, raw.len);
  }

  /** Silencing a leading glitch joins it to the space that follows. */
  lemma {:induction false} UnglitchedRuns(clock: Clock, bits: seq<bool>)
    requires bits != [] && bits[0] && RawRuns(bits)[0].len < clock.minSamples
    ensures RawRuns(Unglitched(clock, bits)) == Joined(RawRuns(bits))
  {
    var raws := RawRuns(bits);
    RawRunsEncode(bits);
    JoinedExpands(raws);
    var g, quiet := raws[0].len, Unglitched(clock, bits);
    assert bits[..g] == Repeat(true, g);
    assert quiet == Repeat(false, g) + bits[g..];
    assert raws[0].on && (|raws| > 1 ==> raws[0].on != raws[1].on);
    JoinedAlternates(raws);
    RawRunsOfExpand(Joined(raws));
  }

  /** A list of maximal runs with its first mark turned into space. */
  function Joined(raws: seq<Raw>): seq<Raw>
    requires raws != []
  {
    if |raws| == 1 then [Raw(false, raws[0].len)] else [Raw(false, raws[0].len + raws[1].len)] + raws[2..]
  }

  lemma {:induction false} JoinedExpands(raws: seq<Raw>)
    requires raws != [] && raws[0].on && (|raws| > 1 ==> !raws[1].on)
    ensures var g, bits := raws[0].len, Expand(raws);
      && g <= |bits| && bits[..g] == Repeat(true, g)
      && Expand(Joined(raws)) == Repeat(false, g) + bits[g..]
  {
    FirstMark(raws[0], raws[1..], raws);
    JoinedIsSpaceFirst(raws);
  }

  lemma {:induction false} JoinedIsSpaceFirst(raws: seq<Raw>)
    requires raws != [] && (|raws| > 1 ==> !raws[1].on)
    ensures Expand(Joined(raws)) == Repeat(false, raws[0].len) + Expand(raws[1..])
  {
    if |raws| == 1 {
      ExpandCons(Raw(false, raws[0].len), []);
      assert [Raw(false, raws[0].len)] + [] == Joined(raws);
    } else {
      JoinedSpace(raws[0].len, raws[1].len, raws[2..]);
      assert raws[1..] == [Raw(false, raws[1].len)] + raws[2..];
    }
  }

  lemma {:induction false} FirstMark(mark: Raw, rest: seq<Raw>, raws: seq<Raw>)
    requires mark.on && raws == [mark] + rest
    ensures var g, bits := mark.len, Expand(raws);
      g <= |bits| && bits[..g] == Repeat(true, g) && bits[g..] == Expand(rest)
  {
    ExpandCons(mark, rest);
    CutConcat(Repeat(true, mark.len), Expand(rest));
  }

  lemma {:induction false} CutConcat<T>(a: seq<T>, b: seq<T>)
    ensures (a + b)[..|a|] == a && (a + b)[|a|..] == b
  {
  }

  lemma {:induction false} JoinedSpace(g: nat, l: nat, rest: seq<Raw>)
    ensures Expand([Raw(false, g + l)] + rest) == Repeat(false, g) + Expand([Raw(false, l)] + rest)
  {
    ExpandCons(Raw(false, l), rest);
    ExpandCons(Raw(false, g + l), rest);
    RepeatConcat(false, g, l);
    ConcatAssociates(Repeat(false, g), Repeat(false, l), Expand(rest));
  }

  lemma {:induction false} JoinedAlternates(raws: seq<Raw>)
    requires raws != [] && AlternatingRaws(raws) && NonEmptyRaws(raws) && (|raws| > 1 ==> !raws[1].on)
    ensures AlternatingRaws(Joined(raws)) && NonEmptyRaws(Joined(raws))
  {
    var joined := Joined(raws);
    forall i, j | 0 <= i < j < |joined| && j == i + 1 ensures joined[i].on != joined[j].on {
      assert raws[i + 1].on != raws[j + 1].on;
    }
  }

  /** Starting from an empty space is the offline path with a leading glitch silenced. */
  lemma {:induction false} StreamRunsSplit(sl: Slicing, bits: seq<bool>)
    requires sl.limits.minEdges >= 1 && sl.clock.minSamples >= 1
    ensures Split(sl.limits, Folded(sl.clock, StreamRuns(bits))) ==
            Split(sl.limits, RunsOf(sl.clock, Unglitched(sl.clock, bits)))
  {
    if bits == [] {
      EmptyStart(sl);
    } else {
      StreamRunsAre(bits);
      if bits[0] {
        ZeroStart(sl.clock, RawRuns(bits));
        MarkStart(sl, bits);
      }
    }
  }

  lemma {:induction false} ZeroStart(clock: Clock, raws: seq<Raw>)
    ensures Folded(clock, [Raw(false, 0)] + raws) == FoldedFrom(clock, [Run(false, clock.us(0))], raws)
  {
    FoldedFromConcat(clock, [], [Raw(false, 0)], raws);
    FoldedOne(clock, [], Raw(false, 0));
  }

  lemma {:induction false} EmptyStart(sl: Slicing)
    requires sl.limits.minEdges >= 1
    ensures Split(sl.limits, Folded(sl.clock, [Raw(false, 0)])) == Split(sl.limits, [])
  {
    var space := Run(false, sl.clock.us(0));
    FoldedOne(sl.clock, [], Raw(false, 0));
    LeadingSpaceIgnored(sl.limits, space, []);
    assert [space] + [] == [space];
  }

  lemma {:induction false} MarkStart(sl: Slicing, bits: seq<bool>)
    requires sl.limits.minEdges >= 1 && bits != [] && bits[0]
    ensures Split(sl.limits, FoldedFrom(sl.clock, [Run(false, sl.clock.us(0))], RawRuns(bits))) ==
            Split(sl.limits, RunsOf(sl.clock, Unglitched(sl.clock, bits)))
  {
    var raws, space := RawRuns(bits), Run(false, sl.clock.us(0));
    RawRunsEncode(bits);
    if raws[0].len >= sl.clock.minSamples {
      SpaceThenMark(sl.clock, space, raws);
      LeadingSpaceIgnored(sl.limits, space, Folded(sl.clock, raws));
    } else {
      UnglitchedRuns(sl.clock, bits);
      assert |raws| > 1 ==> raws[0].on != raws[1].on;
      GlitchFolds(sl, space, raws);
    }
  }

  lemma {:induction false} GlitchFolds(sl: Slicing, space: Run, raws: seq<Raw>)
    requires sl.limits.minEdges >= 1 && !space.on
    requires raws != [] && raws[0].len < sl.clock.minSamples && (|raws| > 1 ==> !raws[1].on)
    ensures Split(sl.limits, FoldedFrom(sl.clock, [space], raws)) == Split(sl.limits, Folded(sl.clock, Joined(raws)))
  {
    var joined := Joined(raws);
    var n := if |raws| == 1 then 1 else 2;
    assert raws == raws[..n] + raws[n..] && joined == [joined[0]] + raws[n..];
    GlitchJoinsSpace(sl.clock, space, raws, n);
    SameHead(sl, space, raws[..n], joined[0], raws[n..]);
  }

  lemma {:induction false} SameHead(sl: Slicing, space: Run, head: seq<Raw>, first: Raw, rest: seq<Raw>)
    requires sl.limits.minEdges >= 1 && !first.on
    requires var out := FoldedFrom(sl.clock, [space], head); |out| == 1 && !out[0].on
    ensures Split(sl.limits, FoldedFrom(sl.clock, [space], head + rest)) ==
            Split(sl.limits, Folded(sl.clock, [first] + rest))
  {
    var a, b := FoldedFrom(sl.clock, [space], head), [Run(false, sl.clock.us(first.len))];
    FoldedFromConcat(sl.clock, [space], head, rest);
    FoldedFromConcat(sl.clock, [], [first], rest);
    FoldedOne(sl.clock, [], first);
    assert a[1..] == b[1..];
    FoldedSameTail(sl.clock, a, b, rest);
    SameTailSplits(sl.limits, FoldedFrom(sl.clock, a, rest), FoldedFrom(sl.clock, b, rest));
  }

  lemma {:induction false} GlitchJoinsSpace(clock: Clock, space: Run, raws: seq<Raw>, n: nat)
    requires !space.on && raws != [] && raws[0].len < clock.minSamples
    requires n == if |raws| == 1 then 1 else 2
    requires |raws| > 1 ==> !raws[1].on
    ensures var out := FoldedFrom(clock, [space], raws[..n]); |out| == 1 && !out[0].on
  {
    FoldedOne(clock, [space], raws[0]);
    assert Front([space]) == [];
    if n == 1 {
      assert raws[..1] == [raws[0]];
    } else {
      assert raws[..2] == [raws[0]] + [raws[1]];
      FoldedFromConcat(clock, [space], [raws[0]], [raws[1]]);
      var first := Run(false, space.us + clock.us(raws[0].len));
      FoldedOne(clock, [first], raws[1]);
      assert Front([first]) == [];
    }
  }

  ghost predicate EndsSilent(bits: seq<bool>, n: nat) {
    n <= |bits| && forall i :: |bits| - n <= i < |bits| ==> !bits[i]
  }

  lemma {:induction false} EndsSilentRun(before: seq<Raw>, bits: seq<bool>, n: nat)
    requires n >= 1 && EndsSilent(bits, n)
    ensures var raws := RawRunsFrom(before, bits); raws != [] && !Last(raws).on && Last(raws).len >= n
  {
    if n > 1 {
      EndsSilentRun(before, Front(bits), n - 1);
    }
  }

  /** The offline list of a recording that ends with a gap of silence ends with a gap. */
  lemma {:induction false} EndsWithGap(sl: Slicing, raws: seq<Raw>)
    requires Sound(sl) && raws != [] && LongSilence(sl, Last(raws))
    ensures Folded(sl.clock, raws) != [] && IsGap(sl.limits, Last(Folded(sl.clock, raws)))
  {
    var out := Folded(sl.clock, Front(raws));
    assert sl.clock.us(Last(raws).len) >= sl.clock.us(sl.gapSamples);
    assert Folded(sl.clock, raws) == PushRun(sl.clock, out, Last(raws));
  }

  /**
   * The law the program states in its comments: the streaming detector folds and splits exactly as
   * the offline path does. Whatever bits it is driven with, by a fixed threshold or a moving one,
   * its frames are always a prefix of the offline frames; when the input ends with a gap of silence
   * they are the same frames, and as many bursts have overflowed. The one difference is a leading
   * mark below the glitch floor, which the offline path keeps and the stream, starting from a
   * space, silences.
   */
  lemma {:induction false} StreamingRefinesOffline(cfg: Config, samples: seq<Sample>)
    requires Usable(cfg)
    ensures var sl := SlicingOf(cfg);
      var bits := OnBits(samples);
      var offline := Split(sl.limits, RunsOf(sl.clock, Unglitched(sl.clock, bits)));
      var streamed := StreamAll(sl, samples);
      && FramesOf(streamed.bursts) <= offline.bursts
      && (EndsSilent(bits, sl.gapSamples) ==>
            FramesOf(streamed.bursts) == offline.bursts && streamed.acc.overflows == offline.acc.overflows)
  {
    var sl, bits := SlicingOf(cfg), OnBits(samples);
    UsableIsSound(cfg);
    StreamSimulates(sl, samples);
    StreamedIsPrefix(sl, StreamAll(sl, samples), StreamRuns(bits));
    StreamRunsSplit(sl, bits);
    if EndsSilent(bits, sl.gapSamples) {
      EndsSilentRun([Raw(false, 0)], bits, sl.gapSamples);
    }
  }

  /** The recording does not open with a mark too short to be more than a glitch. */
  predicate BeginsCleanly(clock: Clock, bits: seq<bool>) {
    RawRunsEncode(bits);
    bits == [] || !bits[0] || RawRuns(bits)[0].len >= clock.minSamples
  }

  /** On a recording that begins below the threshold or with a proper mark, and ends with a gap, they agree outright. */
  lemma {:induction false} StreamingIsOffline(cfg: Config, samples: seq<Sample>)
    requires Usable(cfg)
    requires BeginsCleanly(SlicingOf(cfg).clock, OnBits(samples))
    requires EndsSilent(OnBits(samples), SlicingOf(cfg).gapSamples)
    ensures var sl := SlicingOf(cfg);
      var offline, streamed := Split(sl.limits, RunsOf(sl.clock, OnBits(samples))), StreamAll(sl, samples);
      FramesOf(streamed.bursts) == offline.bursts && streamed.acc.overflows == offline.acc.overflows
  {
    StreamingRefinesOffline(cfg, samples);
  }

  lemma {:induction false} GlitchThenSilence(cfg: Config, glitch: nat, quiet: nat)
    requires Usable(cfg)
    requires 1 <= glitch < SlicingOf(cfg).clock.minSamples && quiet >= SlicingOf(cfg).gapSamples
    ensures var sl := SlicingOf(cfg);
      var raws := [Raw(true, glitch), Raw(false, quiet)];
      && Folded(sl.clock, raws) == [Run(true, sl.clock.us(glitch)), Run(false, sl.clock.us(quiet))]
      && Folded(sl.clock, Joined(raws)) == [Run(false, sl.clock.us(glitch + quiet))]
      && IsGap(sl.limits, Run(false, sl.clock.us(quiet)))
  {
    UsableIsSound(cfg);
    var sl, raws := SlicingOf(cfg), [Raw(true, glitch), Raw(false, quiet)];
    assert sl.clock.us(sl.gapSamples) <= sl.clock.us(quiet);
    assert Front(raws) == [raws[0]] && Last(raws) == raws[1];
    FoldedOne(sl.clock, [], raws[0]);
    FoldedOne(sl.clock, [], Raw(false, glitch + quiet));
    assert Joined(raws) == [Raw(false, glitch + quiet)];
  }

  lemma {:induction false} MarkThenGap(limits: Limits, mark: Run, gap: Run)
    requires limits.minEdges >= 1 && mark.on && IsGap(limits, gap)
    ensures Split(limits, [mark, gap]).bursts == if limits.minEdges == 1 then [[mark.us as int]] else []
    ensures Split(limits, [gap]).bursts == []
  {
    var runs := [mark, gap];
    assert Front(runs) == [mark] && Last(runs) == gap;
    assert Front([mark]) == [] && Front([gap]) == [];
    assert Feed(limits, [mark]).acc.current == [mark.us as int];
  }

  lemma {:induction false} SilentEnd(raws: seq<Raw>, n: nat)
    requires raws != [] && !Last(raws).on && n <= Last(raws).len
    ensures EndsSilent(Expand(raws), n)
  {
    assert Expand(raws) == Expand(Front(raws)) + Repeat(false, Last(raws).len);
  }

  lemma {:induction false} GlitchRuns(clock: Clock, bits: seq<bool>, glitch: nat, quiet: nat)
    requires 1 <= glitch < clock.minSamples && quiet >= 1
    requires bits == Expand([Raw(true, glitch), Raw(false, quiet)])
    ensures RawRuns(bits) == [Raw(true, glitch), Raw(false, quiet)]
    ensures RawRuns(Unglitched(clock, bits)) == Joined([Raw(true, glitch), Raw(false, quiet)])
  {
    var raws := [Raw(true, glitch), Raw(false, quiet)];
    RawRunsOfExpand(raws);
    FirstMark(raws[0], raws[1..], raws);
    assert bits[0] == bits[..glitch][0];
    UnglitchedRuns(clock, bits);
  }

  /**
   * Without a clean beginning they need not agree: for every configuration that keeps frames of a
   * single mark, the offline path takes a lone glitch at the very start of a silent recording for a
   * frame, and the stream does not.
   */
  lemma {:induction false} LeadingGlitchParts(cfg: Config, samples: seq<Sample>, glitch: nat, quiet: nat)
    requires Usable(cfg)
    requires 1 <= glitch < SlicingOf(cfg).clock.minSamples && quiet >= SlicingOf(cfg).gapSamples
    requires OnBits(samples) == Expand([Raw(true, glitch), Raw(false, quiet)])
    ensures var sl := SlicingOf(cfg);
      && Split(sl.limits, RunsOf(sl.clock, OnBits(samples))).bursts ==
         (if cfg.minEdges == 1 then [[sl.clock.us(glitch) as int]] else [])
      && FramesOf(StreamAll(sl, samples).bursts) == []
  {
    var sl := SlicingOf(cfg);
    var mark, gap := Run(true, sl.clock.us(glitch)), Run(false, sl.clock.us(quiet));
    GlitchRuns(sl.clock, OnBits(samples), glitch, quiet);
    GlitchThenSilence(cfg, glitch, quiet);
    MarkThenGap(sl.limits, mark, gap);
    GlitchStreams(cfg, samples, glitch, quiet);
  }

  lemma {:induction false} GlitchStreams(cfg: Config, samples: seq<Sample>, glitch: nat, quiet: nat)
    requires Usable(cfg)
    requires 1 <= glitch < SlicingOf(cfg).clock.minSamples && quiet >= SlicingOf(cfg).gapSamples
    requires OnBits(samples) == Expand([Raw(true, glitch), Raw(false, quiet)])
    ensures FramesOf(StreamAll(SlicingOf(cfg), samples).bursts) == []
  {
    var sl := SlicingOf(cfg);
    GlitchRuns(sl.clock, OnBits(samples), glitch, quiet);
    SilentEnd([Raw(true, glitch), Raw(false, quiet)], sl.gapSamples);
    GlitchThenSilence(cfg, glitch, quiet);
    UsableIsSound(cfg);
    assert sl.clock.us(sl.gapSamples) <= sl.clock.us(glitch + quiet);
    MarkThenGap(sl.limits, Run(true, 0), Run(false, sl.clock.us(glitch + quiet)));
    StreamingRefinesOffline(cfg, samples);
  }
}
