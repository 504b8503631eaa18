/**
 * From the antenna of one radio to the frames of another: the threshold a
 * receiver measures on a transmission, and a live receiver that has heard other
 * things before.
 */
module Reception {
  import opened SampleClock
  import opened Sequences
  import opened Runs
  import opened Bursts
  import opened Pieces
  import opened Histogram
  import opened Iq
  import opened Detector
  import opened Refinement
  import opened Adaptation
  import opened Render
  import opened RoundTrip

  // ----- the threshold measured on a transmission -----

  /** Silence and one level of carrier. */
  predicate TwoLevels(mags: seq<nat>, carrier: nat) {
    forall i :: 0 <= i < |mags| ==> mags[i] == 0 || mags[i] == carrier
  }

  lemma {:induction false} SynthesizedLevels(timings: seq<int>, rate: nat, level: Byte)
    ensures TwoLevels(Envelope(Synthesized(timings, rate, level)), AbsSigned(level))
  {
    if timings != [] {
      SynthesizedLevels(Front(timings), rate, level);
      EnvelopeConcat(Synthesized(Front(timings), rate, level), Pulse(Last(timings), rate, level));
      ToneEnvelope(if Last(timings) > 0 then level else 0, Samples(Abs(Last(timings)), rate));
    }
  }

  lemma {:induction false} CountOfLevels(mags: seq<nat>, carrier: nat, v: nat)
    requires TwoLevels(mags, carrier) && 0 < carrier < MAG_LEVELS
    ensures CountLe(mags, v) == if v >= carrier then |mags| else CountLe(mags, 0)
  {
    if mags != [] {
      CountOfLevels(Front(mags), carrier, v);
      assert mags[|mags| - 1] == 0 || mags[|mags| - 1] == carrier;
    }
  }

  /** A quantile of two levels is silence exactly when silence covers it. */
  lemma {:induction false} QuantileOfLevels(mags: seq<nat>, carrier: nat, p: Ratio)
    requires mags != [] && TwoLevels(mags, carrier) && 0 < carrier < MAG_LEVELS && p.Valid() && 0 < p.num <= p.den
    ensures Quantile(mags, p) == if CountLe(mags, 0) >= Target(|mags|, p) then 0 else carrier
  {
    TargetInRange(|mags|, p);
    QuantileIsOrderStatistic(mags, p, 0);
    QuantileIsOrderStatistic(mags, p, carrier);
    QuantileIsOrderStatistic(mags, p, carrier - 1);
    CountOfLevels(mags, carrier, carrier);
    CountOfLevels(mags, carrier, carrier - 1);
  }

  lemma {:induction false} HalfIsLess(mags: seq<nat>)
    ensures Target(|mags|, MEDIAN) <= Target(|mags|, SIGNAL)
  {
    TargetMonotone(|mags|, MEDIAN, SIGNAL);
  }

  /** Enough of the recording is carrier, or the fraction of it is enough, for a threshold above silence. */
  predicate Heeded(mags: seq<nat>, carrier: nat, frac: Ratio) {
    || CountLe(mags, 0) < Target(|mags|, MEDIAN)
    || (CountLe(mags, 0) < Target(|mags|, SIGNAL) && 2 * (carrier * frac.num) >= frac.den)
  }

  lemma {:induction false} RoundsToSomething(num: nat, den: nat)
    requires den > 0
    ensures RoundDiv(num, den) >= 1 <==> 2 * num >= den
  {
    RoundDivBounds(num, den);
    if RoundDiv(num, den) >= 1 {
      MulMonotone(1, RoundDiv(num, den), 2 * den);
    } else {
      assert 2 * den * RoundDiv(num, den) == 0;
    }
  }

  lemma {:induction false} LevelsOfLevels(mags: seq<nat>, carrier: nat, frac: Ratio)
    requires mags != [] && TwoLevels(mags, carrier) && 0 < carrier < MAG_LEVELS
    requires frac.Valid() && frac.num <= frac.den
    ensures LevelsOf(mags, frac).threshold ==
            if CountLe(mags, 0) < Target(|mags|, MEDIAN) then carrier
            else if CountLe(mags, 0) < Target(|mags|, SIGNAL) then RoundDiv(carrier * frac.num, frac.den)
            else 0
  {
    QuantileOfLevels(mags, carrier, MEDIAN);
    QuantileOfLevels(mags, carrier, SIGNAL);
    HalfIsLess(mags);
    ScaledByFraction(carrier, frac);
    RoundsToSomething(0, frac.den);
    assert 0 * frac.num == 0;
  }

  /**
   * The two-pass path's threshold on a recording of one carrier is between silence and the carrier
   * exactly when the recording holds carrier for half of the time, or for a thousandth of it and the
   * fraction of the carrier is not rounded away.
   */
  lemma {:induction false} MeasuredThreshold(mags: seq<nat>, carrier: nat, frac: Ratio)
    requires mags != [] && TwoLevels(mags, carrier) && 0 < carrier < MAG_LEVELS
    requires frac.Valid() && frac.num <= frac.den
    ensures 0 < LevelsOf(mags, frac).threshold <= carrier <==> Heeded(mags, carrier, frac)
  {
    LevelsOfLevels(mags, carrier, frac);
    FractionOfCarrier(carrier, frac);
  }

  lemma {:induction false} FractionOfCarrier(carrier: nat, frac: Ratio)
    requires frac.Valid() && frac.num <= frac.den
    ensures var level := RoundDiv(carrier * frac.num, frac.den);
      level <= carrier && (level >= 1 <==> 2 * (carrier * frac.num) >= frac.den)
  {
    ScaledByFraction(carrier, frac);
    RoundsToSomething(carrier * frac.num, frac.den);
  }

  /** What a receiver hears of a transmission followed by silence. */
  function OnAir(frame: seq<int>, repeat: nat, gapUs: nat, rate: nat, level: Byte, quiet: nat): seq<nat> {
    Envelope(Synthesized(Transmission(frame, repeat, gapUs), rate, level)) + Repeat(0, quiet)
  }

  lemma {:induction false} OnAirSliced(
    frame: seq<int>, repeat: nat, gapUs: nat, rate: nat, level: Byte, quiet: nat, threshold: nat)
    requires threshold > 0
    ensures Sliced(OnAir(frame, repeat, gapUs, rate, level, quiet), threshold) ==
            Heard(frame, repeat, gapUs, rate, level, threshold, quiet)
    ensures TwoLevels(OnAir(frame, repeat, gapUs, rate, level, quiet), AbsSigned(level))
  {
    var sent := Envelope(Synthesized(Transmission(frame, repeat, gapUs), rate, level));
    SlicedConcat(sent, Repeat(0, quiet), threshold);
    SlicedRepeat(0, quiet, threshold);
    SynthesizedLevels(Transmission(frame, repeat, gapUs), rate, level);
  }

  /**
   * The whole of the two-pass path: measure the threshold on the recording of a transmission, slice,
   * fold and split at it, and the frames are those that were sent.
   */
  lemma {:induction false} TransmitMeasureReceive(
    frame: seq<int>, repeat: nat, gapUs: nat, cfg: Config, level: Byte, quiet: nat, frac: Ratio)
    requires Receivable(frame, gapUs, cfg) && Audible(SlicingOf(cfg), quiet)
    requires AbsSigned(level) > 0 && frac.Valid() && frac.num <= frac.den
    requires var mags := OnAir(frame, repeat, gapUs, cfg.rate, level, quiet);
      mags != [] && Heeded(mags, AbsSigned(level), frac)
    ensures var sl, mags := SlicingOf(cfg), OnAir(frame, repeat, gapUs, cfg.rate, level, quiet);
      Split(sl.limits, RunsOf(sl.clock, Sliced(mags, LevelsOf(mags, frac).threshold))) ==
      AllReceived(OneReceived(sl.limits, Visible(frame)), repeat + 1)
  {
    var mags := OnAir(frame, repeat, gapUs, cfg.rate, level, quiet);
    OnAirSliced(frame, repeat, gapUs, cfg.rate, level, quiet, 1);
    MeasuredThreshold(mags, AbsSigned(level), frac);
    var threshold := LevelsOf(mags, frac).threshold;
    OnAirSliced(frame, repeat, gapUs, cfg.rate, level, quiet, threshold);
    TransmitReceive(frame, repeat, gapUs, cfg, level, threshold, quiet);
  }

  // ----- what was heard before a gap does not matter after it -----

  lemma {:induction false} AddBitBehind(before: seq<Raw>, raws: seq<Raw>, bit: bool)
    requires raws != []
    ensures AddBit(before + raws, bit) == before + AddBit(raws, bit)
  {
    assert Last(before + raws) == Last(raws) && Front(before + raws) == before + Front(raws);
  }

  lemma {:induction false} RawRunsBehind(before: seq<Raw>, bits: seq<bool>)
    requires bits != [] && before != [] && Last(before).on != bits[0]
    ensures RawRuns(bits) != [] && RawRunsFrom(before, bits) == before + RawRuns(bits)
  {
    var front := Front(bits);
    if front == [] {
      assert RawRunsFrom(before, front) == before && RawRuns(front) == [];
      assert AddBit(before, bits[0]) == before + [Raw(bits[0], 1)];
    } else {
      RawRunsBehind(before, front);
      AddBitBehind(before, RawRuns(front), Last(bits));
    }
  }

  /** A mark that is no glitch starts afresh after a space. */
  lemma {:induction false} FoldedAfresh(clock: Clock, out: seq<Run>, raws: seq<Raw>)
    requires out != [] && raws != [] && Last(out).on != raws[0].on && raws[0].len >= clock.minSamples
    ensures FoldedFrom(clock, out, raws) == out + Folded(clock, raws)
  {
    var proper, rest := Run(raws[0].on, clock.us(raws[0].len)), raws[1..];
    assert raws == [raws[0]] + rest;
    FoldedFromConcat(clock, out, [raws[0]], rest);
    FoldedFromConcat(clock, [], [raws[0]], rest);
    FoldedOne(clock, out, raws[0]);
    FoldedOne(clock, [], raws[0]);
    FoldedBehind(clock, out, [proper], rest);
  }

  lemma {:induction false} SplitAfterGap(limits: Limits, a: seq<Run>, b: seq<Run>)
    requires limits.minEdges >= 1 && a != [] && IsGap(limits, Last(a))
    ensures Split(limits, a + b) == Shifted(Split(limits, a), Split(limits, b))
  {
    assert a + b == Front(a) + [Last(a)] + b;
    assert a == Front(a) + [Last(a)] + [];
    SplitAtGap(limits, Front(a), Last(a), b);
    SplitAtGap(limits, Front(a), Last(a), []);
    assert Split(limits, []) == Fed(EMPTY, []);
    assert Split(limits, Front(a)).bursts + [] == Split(limits, Front(a)).bursts;
  }

  /** A recording that begins with a proper mark, after another that ended with a gap. */
  ghost predicate FreshStart(sl: Slicing, before: seq<bool>, bits: seq<bool>) {
    && EndsSilent(before, sl.gapSamples) && bits != [] && bits[0]
    && BeginsCleanly(sl.clock, bits) && EndsSilent(bits, sl.gapSamples)
  }

  lemma {:induction false} StreamRunsAfter(sl: Slicing, before: seq<bool>, bits: seq<bool>)
    requires Sound(sl) && FreshStart(sl, before, bits)
    ensures Split(sl.limits, Folded(sl.clock, StreamRuns(before + bits))) ==
            Shifted(Split(sl.limits, Folded(sl.clock, StreamRuns(before))), Split(sl.limits, RunsOf(sl.clock, bits)))
  {
    var earlier, later := StreamRuns(before), RawRuns(bits);
    EndsSilentRun([Raw(false, 0)], before, sl.gapSamples);
    RawRunsEncode(bits);
    RawRunsFromConcat([Raw(false, 0)], before, bits);
    RawRunsBehind(earlier, bits);
    EndsWithGap(sl, earlier);
    FoldedFromConcat(sl.clock, [], earlier, later);
    FoldedAfresh(sl.clock, Folded(sl.clock, earlier), later);
    SplitAfterGap(sl.limits, Folded(sl.clock, earlier), RunsOf(sl.clock, bits));
  }

  lemma {:induction false} StreamedInFull(sl: Slicing, samples: seq<Sample>)
    requires Sound(sl) && EndsSilent(OnBits(samples), sl.gapSamples)
    ensures Emitted(StreamAll(sl, samples)) == Split(sl.limits, Folded(sl.clock, StreamRuns(OnBits(samples))))
  {
    StreamSimulates(sl, samples);
    EndsSilentRun([Raw(false, 0)], OnBits(samples), sl.gapSamples);
    StreamedIsPrefix(sl, StreamAll(sl, samples), StreamRuns(OnBits(samples)));
  }

  /**
   * Reception has no memory beyond a gap: whatever the stream held before a silence, what comes
   * after it is received as the offline path would receive it on its own.
   */
  lemma {:induction false} ReceivedAfterAnything(cfg: Config, before: seq<Sample>, samples: seq<Sample>)
    requires Usable(cfg) && FreshStart(SlicingOf(cfg), OnBits(before), OnBits(samples))
    ensures var sl := SlicingOf(cfg);
      var offline := Split(sl.limits, RunsOf(sl.clock, OnBits(samples)));
      Emitted(StreamAll(sl, before + samples)) == Shifted(Emitted(StreamAll(sl, before)), offline)
  {
    var sl, whole := SlicingOf(cfg), before + samples;
    UsableIsSound(cfg);
    assert OnBits(whole) == OnBits(before) + OnBits(samples);
    EndsStillSilent(OnBits(before), OnBits(samples), sl.gapSamples);
    StreamedInFull(sl, before);
    StreamedInFull(sl, whole);
    StreamRunsAfter(sl, OnBits(before), OnBits(samples));
  }

  lemma {:induction false} EndsStillSilent(before: seq<bool>, bits: seq<bool>, n: nat)
    requires EndsSilent(bits, n)
    ensures EndsSilent(before + bits, n)
  {
  }

  // ----- a live receiver, adapting as it goes -----

  /** The threshold in force after a stream, as a function of the stream; zero while there is none. */
  function LiveThreshold(setup: Setup): seq<nat> -> nat
    requires setup.Valid()
  {
    (mags: seq<nat>) => if setup.Window() <= |mags| then ThresholdAfter(setup, mags) else 0
  }

  /** The slicing of a live stream, as a function of the stream. */
  function LiveSlicer(setup: Setup): seq<nat> -> seq<Sample>
    requires setup.Valid()
  {
    (mags: seq<nat>) => SlicedLive(setup, mags)
  }

  /** At every sample sent, the threshold in force is no higher than the carrier. */
  predicate StaysBelow(levels: seq<nat> -> nat, before: seq<nat>, sent: seq<nat>, carrier: nat) {
    sent == [] || (StaysBelow(levels, before, Front(sent), carrier) && levels(before + Front(sent)) <= carrier)
  }

  /** The next sample is sliced at the level in force, which is never zero. */
  predicate SlicedAtLevel(live: seq<nat> -> seq<Sample>, levels: seq<nat> -> nat, mags: seq<nat>, mag: nat) {
    levels(mags) >= 1 && live(mags + [mag]) == live(mags) + [Sample(mag >= levels(mags), mag)]
  }

  ghost predicate SlicesAt(live: seq<nat> -> seq<Sample>, levels: seq<nat> -> nat, window: nat) {
    forall mags: seq<nat>, mag: nat :: |mags| >= window ==> SlicedAtLevel(live, levels, mags, mag)
  }

  lemma {:induction false} LiveSampleAt(setup: Setup, mags: seq<nat>, mag: nat)
    requires setup.Valid() && setup.Window() <= |mags|
    ensures ThresholdAfter(setup, mags) >= 1
    ensures SlicedLive(setup, mags + [mag]) ==
            SlicedLive(setup, mags) + [Sample(mag >= ThresholdAfter(setup, mags), mag)]
  {
    var k := FullWindows(setup, |mags|);
    WindowFits(k, setup.Window());
    ThresholdAboveMedian(setup, WindowBefore(setup, mags, k));
    assert Front(mags + [mag]) == mags && Last(mags + [mag]) == mag;
  }

  lemma {:induction false} LiveSlicesAt(setup: Setup)
    requires setup.Valid()
    ensures SlicesAt(LiveSlicer(setup), LiveThreshold(setup), setup.Window())
  {
    var live, levels := LiveSlicer(setup), LiveThreshold(setup);
    forall mags: seq<nat>, mag: nat | |mags| >= setup.Window() ensures SlicedAtLevel(live, levels, mags, mag) {
      LiveSampleAt(setup, mags, mag);
    }
  }

  lemma {:induction false} OnwardNext(earlier: seq<Sample>, rest: seq<Sample>, sample: Sample)
    requires earlier <= rest
    ensures var all, n := rest + [sample], |earlier|;
      earlier <= all && OnBits(all[n..]) == OnBits(rest[n..]) + [sample.on]
  {
    assert (rest + [sample])[|earlier|..] == rest[|earlier|..] + [sample];
  }

  /** As if each sample sent were compared with the carrier itself. */
  predicate ToldApart(live: seq<nat> -> seq<Sample>, before: seq<nat>, sent: seq<nat>, carrier: nat) {
    sent == [] ||
    (&& ToldApart(live, before, Front(sent), carrier)
     && live(before + sent) == live(before + Front(sent)) + [Sample(Last(sent) >= carrier, Last(sent))])
  }

  lemma {:induction false} SlicedOnward(live: seq<nat> -> seq<Sample>, before: seq<nat>, sent: seq<nat>, carrier: nat)
    requires ToldApart(live, before, sent, carrier)
    ensures live(before) <= live(before + sent)
    ensures OnBits(live(before + sent)[|live(before)|..]) == Sliced(sent, carrier)
  {
    if sent == [] {
      assert before + sent == before;
    } else {
      var front, mag := Front(sent), Last(sent);
      SlicedOnward(live, before, front, carrier);
      OnwardNext(live(before), live(before + front), Sample(mag >= carrier, mag));
      assert Sliced(sent, carrier) == Sliced(front, carrier) + [mag >= carrier];
    }
  }

  lemma {:induction false} TellsNext(
    live: seq<nat> -> seq<Sample>, before: seq<nat>, sent: seq<nat>, carrier: nat, level: nat)
    requires sent != [] && ToldApart(live, before, Front(sent), carrier)
    requires 1 <= level <= carrier && (Last(sent) == 0 || Last(sent) == carrier)
    requires live(before + sent) == live(before + Front(sent)) + [Sample(Last(sent) >= level, Last(sent))]
    ensures ToldApart(live, before, sent, carrier)
  {
  }

  /** Silence and carrier are told apart at every threshold between them alike. */
  lemma {:induction false} TellsApart(
    live: seq<nat> -> seq<Sample>, levels: seq<nat> -> nat, before: seq<nat>, sent: seq<nat>, carrier: nat)
    requires SlicesAt(live, levels, |before|)
    requires carrier > 0 && TwoLevels(sent, carrier) && StaysBelow(levels, before, sent, carrier)
    ensures ToldApart(live, before, sent, carrier)
  {
    if sent != [] {
      var front, mag := Front(sent), Last(sent);
      assert mag == sent[|sent| - 1];
      assert before + sent == before + front + [mag];
      TellsApart(live, levels, before, front, carrier);
      assert SlicedAtLevel(live, levels, before + front, mag);
      TellsNext(live, before, sent, carrier, levels(before + front));
    }
  }

  /** What is heard of a transmission opens with a proper mark and ends with the silence after it. */
  lemma {:induction false} HeardStarts(
    frame: seq<int>, repeat: nat, gapUs: nat, cfg: Config, level: Byte, threshold: nat, quiet: nat)
    requires Receivable(frame, gapUs, cfg) && Usable(cfg)
    requires 0 < threshold <= AbsSigned(level) && quiet >= SlicingOf(cfg).gapSamples
    ensures var sl, heard := SlicingOf(cfg), Heard(frame, repeat, gapUs, cfg.rate, level, threshold, quiet);
      heard != [] && heard[0] && BeginsCleanly(sl.clock, heard) && EndsSilent(heard, sl.gapSamples)
  {
    var sl, raws := SlicingOf(cfg), HeardRaws(frame, repeat, gapUs, cfg.rate, quiet);
    QuietIsAudible(cfg, quiet);
    HeardShape(frame, repeat, gapUs, cfg, quiet);
    HeardRuns(frame, repeat, gapUs, cfg, level, threshold, quiet);
    HeardOpens(frame, repeat, gapUs, cfg, quiet);
    ProperStart(sl, raws, Heard(frame, repeat, gapUs, cfg.rate, level, threshold, quiet));
    assert EndsSilent(Repeat(false, quiet), sl.gapSamples);
  }

  lemma {:induction false} ProperStart(sl: Slicing, raws: seq<Raw>, bits: seq<bool>)
    requires RawRuns(bits) == raws && raws != [] && raws[0].on && raws[0].len >= sl.clock.minSamples
    ensures bits != [] && bits[0] && BeginsCleanly(sl.clock, bits)
  {
    RawRunsEncode(bits);
  }

  lemma {:induction false} HeardOpens(frame: seq<int>, repeat: nat, gapUs: nat, cfg: Config, quiet: nat)
    requires Receivable(frame, gapUs, cfg)
    ensures var raws := HeardRaws(frame, repeat, gapUs, cfg.rate, quiet); raws != [] && raws[0].on
  {
    var core := RawsOf(Visible(frame), cfg.rate);
    VisibleRuns(frame, cfg, gapUs);
    MeasuredIsCore(SlicingOf(cfg), core, Visible(frame));
    PeriodicStarts(core, GapRaw(frame, gapUs, cfg.rate), repeat);
  }

  lemma {:induction false} PeriodicStarts(core: seq<Raw>, gap: Raw, repeat: nat)
    requires core != []
    ensures Periodic(core, gap, repeat) != [] && Periodic(core, gap, repeat)[0] == core[0]
  {
    if repeat > 0 {
      PeriodicStarts(core, gap, repeat - 1);
    }
  }

  lemma {:induction false} ShiftedEmits(s: Stream, earlier: Stream, offline: Fed)
    requires Emitted(s) == Shifted(Emitted(earlier), offline)
    ensures FramesOf(s.bursts) == FramesOf(earlier.bursts) + offline.bursts
  {
  }

  /** The stream after anything, or after nothing. */
  lemma {:induction false} StreamReceives(
    cfg: Config, earlier: seq<Sample>, later: seq<Sample>,
    frame: seq<int>, repeat: nat, gapUs: nat, level: Byte, quiet: nat)
    requires Receivable(frame, gapUs, cfg) && Usable(cfg)
    requires AbsSigned(level) > 0 && quiet >= SlicingOf(cfg).gapSamples
    requires earlier == [] || EndsSilent(OnBits(earlier), SlicingOf(cfg).gapSamples)
    requires OnBits(later) == Heard(frame, repeat, gapUs, cfg.rate, level, AbsSigned(level), quiet)
    ensures var sl := SlicingOf(cfg);
      FramesOf(StreamAll(sl, earlier + later).bursts) ==
      FramesOf(StreamAll(sl, earlier).bursts) + Received(sl.limits, Visible(frame), repeat + 1)
  {
    var sl := SlicingOf(cfg);
    HeardStarts(frame, repeat, gapUs, cfg, level, AbsSigned(level), quiet);
    QuietIsAudible(cfg, quiet);
    TransmitReceive(frame, repeat, gapUs, cfg, level, AbsSigned(level), quiet);
    if earlier == [] {
      assert earlier + later == later;
      StreamingIsOffline(cfg, later);
    } else {
      ReceivedAfterAnything(cfg, earlier, later);
      ShiftedEmits(StreamAll(sl, earlier + later), StreamAll(sl, earlier),
                   Split(sl.limits, RunsOf(sl.clock, OnBits(later))));
    }
  }

  lemma {:induction false} QuietIsAudible(cfg: Config, quiet: nat)
    requires Usable(cfg) && quiet >= SlicingOf(cfg).gapSamples
    ensures Audible(SlicingOf(cfg), quiet)
  {
    FloorInMicros(cfg.gapUs, quiet, cfg.rate);
  }

  lemma {:induction false} SlicerReceives(
    live: seq<nat> -> seq<Sample>, before: seq<nat>,
    frame: seq<int>, repeat: nat, gapUs: nat, cfg: Config, level: Byte, quiet: nat)
    requires Receivable(frame, gapUs, cfg) && Usable(cfg)
    requires AbsSigned(level) > 0 && quiet >= SlicingOf(cfg).gapSamples
    requires live(before) == [] || EndsSilent(OnBits(live(before)), SlicingOf(cfg).gapSamples)
    requires ToldApart(live, before, OnAir(frame, repeat, gapUs, cfg.rate, level, quiet), AbsSigned(level))
    ensures var sl, sent := SlicingOf(cfg), OnAir(frame, repeat, gapUs, cfg.rate, level, quiet);
      FramesOf(StreamAll(sl, live(before + sent)).bursts) ==
      FramesOf(StreamAll(sl, live(before)).bursts) + Received(sl.limits, Visible(frame), repeat + 1)
  {
    var sent := OnAir(frame, repeat, gapUs, cfg.rate, level, quiet);
    OnAirSliced(frame, repeat, gapUs, cfg.rate, level, quiet, AbsSigned(level));
    SlicedOnward(live, before, sent, AbsSigned(level));
    var earlier, all := live(before), live(before + sent);
    assert all == earlier + all[|earlier|..];
    StreamReceives(cfg, earlier, all[|earlier|..], frame, repeat, gapUs, level, quiet);
  }

  /**
   * A live receiver that adapts as it goes. Whatever it has heard since its first window, once a gap
   * of silence has gone by it receives what is sent, frame by frame, as long as the threshold, which
   * may move at any sample, stays at or below the carrier.
   */
  lemma {:induction false} TransmitReceiveAdapting(
    before: seq<nat>, frame: seq<int>, repeat: nat, gapUs: nat, cfg: Config, level: Byte, quiet: nat)
    requires Receivable(frame, gapUs, cfg) && Usable(cfg)
    requires AbsSigned(level) > 0 && quiet >= SlicingOf(cfg).gapSamples
    requires SetupOf(cfg).Window() <= |before|
    requires
      || |before| == SetupOf(cfg).Window()
      || EndsSilent(OnBits(SlicedLive(SetupOf(cfg), before)), SlicingOf(cfg).gapSamples)
    requires StaysBelow(LiveThreshold(SetupOf(cfg)), before,
                        OnAir(frame, repeat, gapUs, cfg.rate, level, quiet), AbsSigned(level))
    ensures var setup, sent := SetupOf(cfg), OnAir(frame, repeat, gapUs, cfg.rate, level, quiet);
      FramesOf(DetectorRun(setup, NEW, before + sent).stream.bursts) ==
      FramesOf(DetectorRun(setup, NEW, before).stream.bursts)
      + Received(setup.slicing.limits, Visible(frame), repeat + 1)
  {
    var setup, sent := SetupOf(cfg), OnAir(frame, repeat, gapUs, cfg.rate, level, quiet);
    OnAirSliced(frame, repeat, gapUs, cfg.rate, level, quiet, AbsSigned(level));
    LiveSlicesAt(setup);
    TellsApart(LiveSlicer(setup), LiveThreshold(setup), before, sent, AbsSigned(level));
    SlicerReceives(LiveSlicer(setup), before, frame, repeat, gapUs, cfg, level, quiet);
    ArmedStream(setup, before);
    ArmedStream(setup, before + sent);
  }

  lemma {:induction false} ArmedStream(setup: Setup, mags: seq<nat>)
    requires setup.Valid() && setup.Window() <= |mags|
    ensures DetectorRun(setup, NEW, mags).stream == StreamAll(setup.slicing, SlicedLive(setup, mags))
  {
    DetectorState(setup, mags);
  }
}
