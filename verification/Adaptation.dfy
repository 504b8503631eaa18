/**
 * What the live detector does over a whole stream: how its threshold follows
 * the band, that it then slices exactly as the offline path would, and that
 * the sizes of the transfers do not matter.
 */
module Adaptation {
  import opened Wrappers
  import opened SampleClock
  import opened Runs
  import opened Sequences
  import opened Bursts
  import opened Pieces
  import opened Histogram
  import opened Iq
  import opened Detector
  import opened Refinement

  // ----- the threshold in force -----

  /** The k-th full window of a stream, counting from one. */
  function WindowBefore(setup: Setup, mags: seq<nat>, k: nat): seq<nat>
    requires k >= 1 && k * setup.Window() <= |mags|
  {
    WindowFits(k, setup.Window());
    mags[(k - 1) * setup.Window()..k * setup.Window()]
  }

  lemma {:induction false} WindowFits(k: nat, w: nat)
    requires k >= 1
    ensures 0 <= (k - 1) * w <= k * w == (k - 1) * w + w
  {
  }

  /** The number of full windows in n samples. */
  function FullWindows(setup: Setup, n: nat): (k: nat)
    ensures k * setup.Window() <= n < k * setup.Window() + setup.Window()
    ensures n >= setup.Window() ==> k >= 1
  {
    DivisionBounds(n, setup.Window());
    n / setup.Window()
  }

  /** The threshold in force after these samples: the one measured on the last full window. */
  function ThresholdAfter(setup: Setup, mags: seq<nat>): nat
    requires setup.Valid() && setup.Window() <= |mags|
  {
    ThresholdOf(setup, WindowBefore(setup, mags, FullWindows(setup, |mags|)))
  }

  /**
   * The stream after slicing, each sample at the threshold in force when it arrived; the first
   * window is spent on learning the band.
   */
  function SlicedLive(setup: Setup, mags: seq<nat>): (samples: seq<Sample>)
    requires setup.Valid()
    ensures |samples| == if |mags| < setup.Window() then 0 else |mags| - setup.Window()
  {
    if |mags| <= setup.Window() then []
    else SlicedLive(setup, Front(mags)) + [Sample(Last(mags) >= ThresholdAfter(setup, Front(mags)), Last(mags))]
  }

  /** The quotient of the next number, by the multiples it lies between. */
  lemma {:induction false} NextQuotient(n: nat, w: nat, k: nat, k': nat)
    requires k * w <= n < k * w + w && k' * w <= n + 1 < k' * w + w
    ensures k' == if n + 1 == k * w + w then k + 1 else k
  {
    WindowFits(k + 1, w);
    SpacedMultiples(k, k', w);
    SpacedMultiples(k', k, w);
    SpacedMultiples(k + 1, k', w);
  }

  lemma {:induction false} FullWindowsNext(setup: Setup, n: nat)
    ensures var k, w := FullWindows(setup, n), setup.Window();
      FullWindows(setup, n + 1) == if n + 1 == k * w + w then k + 1 else k
  {
    NextQuotient(n, setup.Window(), FullWindows(setup, n), FullWindows(setup, n + 1));
  }

  lemma {:induction false} WindowOfPrefix(setup: Setup, mags: seq<nat>, more: seq<nat>, k: nat)
    requires k >= 1 && k * setup.Window() <= |mags|
    ensures WindowBefore(setup, mags + more, k) == WindowBefore(setup, mags, k)
  {
    WindowFits(k, setup.Window());
  }

  /** The samples since the last full window. */
  function WindowSoFar(setup: Setup, mags: seq<nat>): seq<nat> {
    mags[FullWindows(setup, |mags|) * setup.Window()..]
  }

  /** What the detector has become after n samples, in terms of the samples alone. */
  function Expected(setup: Setup, mags: seq<nat>): State
    requires setup.Valid()
  {
    State(
      WindowSoFar(setup, mags),
      if |mags| < setup.Window() then None else Some(ThresholdAfter(setup, mags)),
      StreamAll(setup.slicing, SlicedLive(setup, mags))
    )
  }

  /**
   * The state of a detector at any moment: it holds the samples of the window in progress, its
   * threshold is the one measured on the last full window (none during the first), and its slicer
   * has seen every later sample on its side of the threshold then in force.
   */
  lemma {:induction false} DetectorState(setup: Setup, mags: seq<nat>)
    requires setup.Valid()
    ensures DetectorRun(setup, NEW, mags) == Expected(setup, mags)
  {
    if mags == [] {
      assert FullWindows(setup, 0) * setup.Window() == 0;
    } else {
      DetectorState(setup, Front(mags));
      assert mags == Front(mags) + [Last(mags)];
      ExpectedNext(setup, Front(mags), Last(mags));
    }
  }

  lemma {:induction false} ExpectedNext(setup: Setup, mags: seq<nat>, mag: nat)
    requires setup.Valid()
    ensures DetectorStep(setup, Expected(setup, mags), mag) == Expected(setup, mags + [mag])
  {
    StreamGrows(setup, mags, mag);
    WindowNext(setup, mags, mag);
  }

  /** The window half of a step. */
  lemma {:induction false} WindowNext(setup: Setup, mags: seq<nat>, mag: nat)
    requires setup.Valid()
    ensures var window, longer := WindowSoFar(setup, mags) + [mag], mags + [mag];
      if |window| >= setup.windowSamples then
        WindowSoFar(setup, longer) == [] && |longer| >= setup.Window()
        && WindowBefore(setup, longer, FullWindows(setup, |longer|)) == window
      else
        && WindowSoFar(setup, longer) == window && (|longer| >= setup.Window() <==> |mags| >= setup.Window())
        && (|mags| >= setup.Window() ==>
              WindowBefore(setup, longer, FullWindows(setup, |longer|)) ==
              WindowBefore(setup, mags, FullWindows(setup, |mags|)))
  {
    var w, n, k := setup.Window(), |mags|, FullWindows(setup, |mags|);
    FullWindowsNext(setup, n);
    WindowFits(k + 1, w);
    WindowGrows(mags, mag, k * w);
    if n + 1 == k * w + w {
      assert WindowBefore(setup, mags + [mag], k + 1) == mags[k * w..] + [mag];
    } else if n >= w {
      WindowOfPrefix(setup, mags, [mag], k);
    }
  }

  lemma {:induction false} WindowGrows(mags: seq<nat>, mag: nat, from: nat)
    requires from <= |mags|
    ensures (mags + [mag])[from..] == mags[from..] + [mag]
  {
  }

  /** The slicing half of a step. */
  lemma {:induction false} StreamGrows(setup: Setup, mags: seq<nat>, mag: nat)
    requires setup.Valid()
    ensures StreamAll(setup.slicing, SlicedLive(setup, mags + [mag])) ==
            if |mags| < setup.Window() then IDLE
            else StreamStep(setup.slicing, StreamAll(setup.slicing, SlicedLive(setup, mags)),
                            Sample(mag >= ThresholdAfter(setup, mags), mag))
  {
    assert Front(mags + [mag]) == mags;
    if |mags| >= setup.Window() {
      var sample := Sample(mag >= ThresholdAfter(setup, mags), mag);
      assert Front(SlicedLive(setup, mags) + [sample]) == SlicedLive(setup, mags);
    }
  }

  /** The detector arms after exactly one window and has emitted nothing by then. */
  lemma {:induction false} ArmsAfterOneWindow(setup: Setup, mags: seq<nat>)
    requires setup.Valid()
    ensures DetectorRun(setup, NEW, mags).threshold.None? <==> |mags| < setup.Window()
    ensures |mags| <= setup.Window() ==> DetectorRun(setup, NEW, mags).stream == IDLE
  {
    DetectorState(setup, mags);
  }

  /** The deviations of the noise are this many above the median, 0.674 of one being the way to the quartile. */
  predicate AreDeviations(deviations: nat, sigmas: Ratio, floor: nat, quartile: nat) {
    floor <= quartile && Nearest(deviations, (quartile - floor) * 1000 * sigmas.num, 674 * sigmas.den)
  }

  lemma {:induction false} RobustFloorIs(setup: Setup, floor: nat, quartile: nat, deviations: nat)
    requires setup.Valid() && AreDeviations(deviations, setup.sigmas, floor, quartile)
    ensures RobustFloor(setup, floor, quartile) == Raised(floor, deviations)
  {
    RaisedExactly(floor, deviations, (quartile - floor) * 1000 * setup.sigmas.num, 674 * setup.sigmas.den);
  }

  lemma {:induction false} SlicedLevelIs(setup: Setup, floor: nat, signal: nat, rise: nat)
    requires setup.Valid() && IsPartOf(rise, setup.fraction, floor, signal)
    ensures SlicedLevel(setup, floor, signal) == Raised(floor, rise)
  {
    RaisedExactly(floor, rise, (signal - floor) * setup.fraction.num, setup.fraction.den);
  }

  /**
   * The threshold a window yields, from its counts alone: with the floor, quartile and signal that
   * half, three quarters and 99.9% of it are at or below, the highest of one, the level the rounded
   * fraction of the way from floor to signal, and the floor raised by the rounded deviations.
   */
  lemma {:induction false} ThresholdExactly(
    setup: Setup, window: seq<nat>, floor: nat, quartile: nat, signal: nat, rise: nat, deviations: nat)
    requires setup.Valid() && window != []
    requires IsQuantile(window, Ratio(1, 2), floor) && IsQuantile(window, Ratio(3, 4), quartile)
    requires IsQuantile(window, Ratio(999, 1000), signal)
    requires IsPartOf(rise, setup.fraction, floor, signal)
    requires AreDeviations(deviations, setup.sigmas, floor, quartile)
    ensures var level, sliced, robust := ThresholdOf(setup, window), Raised(floor, rise), Raised(floor, deviations);
      level >= 1 && level >= sliced && level >= robust && level in {1, sliced, robust}
  {
    QuantileExactly(window, MEDIAN, floor);
    QuantileExactly(window, QUARTILE, quartile);
    QuantileExactly(window, SIGNAL, signal);
    RobustFloorIs(setup, floor, quartile, deviations);
    SlicedLevelIs(setup, floor, signal, rise);
  }

  /**
   * The live threshold is never below the offline one of the same window, and is that one exactly
   * where it is at least one and at least the median raised by the deviations.
   */
  lemma {:induction false} OfflineThresholdWins(
    setup: Setup, window: seq<nat>, floor: nat, quartile: nat, deviations: nat)
    requires setup.Valid() && window != []
    requires IsQuantile(window, Ratio(1, 2), floor) && IsQuantile(window, Ratio(3, 4), quartile)
    requires AreDeviations(deviations, setup.sigmas, floor, quartile)
    ensures var level, offline := ThresholdOf(setup, window), LevelsOf(window, setup.fraction).threshold;
      && level >= offline
      && (level == offline <==> offline >= 1 && offline >= Raised(floor, deviations))
  {
    QuantileExactly(window, MEDIAN, floor);
    QuantileExactly(window, QUARTILE, quartile);
    RobustFloorIs(setup, floor, quartile, deviations);
  }

  /** A threshold never takes silence for carrier, and never sits below the window's median. */
  lemma {:induction false} ThresholdAboveMedian(setup: Setup, window: seq<nat>)
    requires setup.Valid() && window != []
    ensures ThresholdOf(setup, window) >= 1
    ensures ThresholdOf(setup, window) >= Quantile(window, MEDIAN)
  {
    TargetInRange(|window|, MEDIAN);
    FirstCoveringIsLeast(window, Target(|window|, MEDIAN), 0);
  }

  /**
   * While three quarters of a window are at most n, a burst in the rest cannot raise the robust
   * floor over n plus the configured number of deviations, whatever it looks like.
   */
  lemma {:induction false} RobustFloorBounded(setup: Setup, window: seq<nat>, n: nat)
    requires setup.Valid() && n < MAG_LEVELS
    requires CountLe(window, n) >= Target(|window|, QUARTILE)
    ensures RobustFloor(setup, Quantile(window, MEDIAN), Quantile(window, QUARTILE))
            <= n + RoundDiv(n * 1000 * setup.sigmas.num, 674 * setup.sigmas.den)
  {
    var floor, quartile := Quantile(window, MEDIAN), Quantile(window, QUARTILE);
    QuantileRobust(window, QUARTILE, n);
    QuantileMonotone(window, MEDIAN, QUARTILE);
    var spread, most := Excess(quartile, floor) * 1000 * setup.sigmas.num, n * 1000 * setup.sigmas.num;
    MulMonotone(Excess(quartile, floor) * 1000, n * 1000, setup.sigmas.num);
    RaiseBounded(floor, n, spread, most, 674 * setup.sigmas.den);
  }

  lemma {:induction false} RaiseBounded(base: nat, n: nat, num: nat, num': nat, den: nat)
    requires base <= n && num <= num' && den > 0
    ensures SaturatingRaise(base, num, den) <= n + RoundDiv(num', den)
  {
    RoundDivMonotone(num, num', den);
  }

  /**
   * The live receiver against the offline path: sliced at whatever thresholds were in force, its
   * frames are the first frames of the offline split of the same bits, and all of them once a
   * silence has lasted the gap.
   */
  lemma {:induction false} LiveRefinesOffline(cfg: Config, mags: seq<nat>)
    requires Usable(cfg)
    ensures var setup := SetupOf(cfg);
      var bits := OnBits(SlicedLive(setup, mags));
      var offline := Split(setup.slicing.limits, RunsOf(setup.slicing.clock, Unglitched(setup.slicing.clock, bits)));
      var live := DetectorRun(setup, NEW, mags).stream;
      && FramesOf(live.bursts) <= offline.bursts
      && (EndsSilent(bits, setup.slicing.gapSamples) ==>
            FramesOf(live.bursts) == offline.bursts && live.acc.overflows == offline.acc.overflows)
  {
    DetectorState(SetupOf(cfg), mags);
    StreamingRefinesOffline(cfg, SlicedLive(SetupOf(cfg), mags));
  }

  // ----- chunking -----

  /** A stream with other bursts already in its list. */
  function After(before: seq<Burst>, s: Stream): Stream {
    s.(bursts := before + s.bursts)
  }

  lemma {:induction false} TookAfter(before: seq<Burst>, s: Stream, step: (Acc, Option<seq<int>>))
    ensures After(before, s).Took(step) == After(before, s.Took(step))
  {
    if step.1.Some? {
      ConcatAssociates(before, s.bursts, [Burst(step.1.value, s.peak)]);
    }
  }

  /** Bursts already handed out do not influence what follows. */
  lemma {:induction false} StepAfter(sl: Slicing, before: seq<Burst>, s: Stream, sample: Sample)
    ensures StreamStep(sl, After(before, s), sample) == After(before, StreamStep(sl, s, sample))
  {
    EmitAfter(sl, before, s);
    var counted := if sample.on == s.on then s.(len := s.len + 1) else EmitRun(sl, s).(on := sample.on, len := 1);
    CloseAfter(sl, before, Peaked(counted, sample));
  }

  lemma {:induction false} EmitAfter(sl: Slicing, before: seq<Burst>, s: Stream)
    ensures EmitRun(sl, After(before, s)) == After(before, EmitRun(sl, s))
  {
    if s.pending.Some? {
      TookAfter(before, s.(pending := Some(Run(s.on, sl.clock.us(s.len)))), AccPush(sl.limits, s.acc, s.pending.value));
    }
  }

  lemma {:induction false} CloseAfter(sl: Slicing, before: seq<Burst>, s: Stream)
    ensures CloseBurst(sl, After(before, s)) == After(before, CloseBurst(sl, s))
  {
    var unpended := s.(pending := None);
    if s.pending.Some? {
      var step := AccPush(sl.limits, s.acc, s.pending.value);
      TookAfter(before, unpended, step);
      TookAfter(before, unpended.Took(step), AccFinish(sl.limits, unpended.Took(step).acc));
    } else {
      TookAfter(before, s, AccFinish(sl.limits, s.acc));
    }
  }

  function StateAfter(before: seq<Burst>, d: State): State {
    d.(stream := After(before, d.stream))
  }

  lemma {:induction false} RunAfter(setup: Setup, before: seq<Burst>, d: State, mags: seq<nat>)
    requires setup.Valid()
    ensures DetectorRun(setup, StateAfter(before, d), mags) == StateAfter(before, DetectorRun(setup, d, mags))
  {
    if mags != [] {
      RunAfter(setup, before, d, Front(mags));
      var prior := DetectorRun(setup, d, Front(mags));
      if prior.threshold.Some? {
        StepAfter(setup.slicing, before, prior.stream, Sample(Last(mags) >= prior.threshold.value, Last(mags)));
      }
    }
  }

  lemma {:induction false} RunConcat(setup: Setup, d: State, a: seq<nat>, b: seq<nat>)
    requires setup.Valid()
    ensures DetectorRun(setup, d, a + b) == DetectorRun(setup, DetectorRun(setup, d, a), b)
  {
    if b == [] {
      assert a + b == a;
    } else {
      assert Front(a + b) == a + Front(b) && Last(a + b) == Last(b);
      RunConcat(setup, d, a, Front(b));
    }
  }

  /** What one call of the detector's `Push` does: the state it leaves, its bursts in that state's list. */
  function Pushed(setup: Setup, d: State, iq: seq<Byte>): State
    requires setup.Valid()
  {
    DetectorRun(setup, d.(stream := d.stream.(bursts := [])), Envelope(iq))
  }

  /** Transfer after transfer, with the bursts of all calls in one list. */
  function PushedAll(setup: Setup, d: State, chunks: seq<seq<Byte>>): State
    requires setup.Valid()
  {
    if chunks == [] then d
    else
      var before := PushedAll(setup, d, Front(chunks));
      StateAfter(before.stream.bursts, Pushed(setup, before, Last(chunks)))
  }

  function Flatten(chunks: seq<seq<Byte>>): seq<Byte> {
    if chunks == [] then [] else Flatten(Front(chunks)) + Last(chunks)
  }

  ghost predicate WholeSamples(chunks: seq<seq<Byte>>) {
    forall k :: 0 <= k < |chunks| ==> |chunks[k]| % 2 == 0
  }

  /**
   * Transfer boundaries are invisible: any division of a byte stream into transfers of whole
   * samples yields the same bursts with the same peaks, and leaves the same detector, as the stream
   * in one piece, thresholds that move in mid-transfer included.
   */
  lemma {:induction false} ChunkingInvisible(setup: Setup, d: State, chunks: seq<seq<Byte>>)
    requires setup.Valid() && WholeSamples(chunks) && d.stream.bursts == []
    ensures PushedAll(setup, d, chunks) == Pushed(setup, d, Flatten(chunks))
    ensures |Flatten(chunks)| % 2 == 0
  {
    assert d.(stream := d.stream.(bursts := [])) == d;
    if chunks != [] {
      var front, chunk := Front(chunks), Last(chunks);
      ChunkingInvisible(setup, d, front);
      var before := PushedAll(setup, d, front);
      var fresh' := before.(stream := before.stream.(bursts := []));
      EnvelopeConcat(Flatten(front), chunk);
      RunConcat(setup, d, Envelope(Flatten(front)), Envelope(chunk));
      RunAfter(setup, before.stream.bursts, fresh', Envelope(chunk));
      assert before.stream.bursts + [] == before.stream.bursts;
    }
  }

  // ----- peaks -----

  function Higher(a: nat, b: nat): nat {
    if a > b then a else b
  }

  /** The loudest carrier sample, or zero. */
  function Loudest(samples: seq<Sample>): nat {
    if samples == [] then 0
    else Higher(Loudest(Front(samples)), if Last(samples).on then Last(samples).mag else 0)
  }

  function HighestPeak(bursts: seq<Burst>): nat {
    if bursts == [] then 0 else Higher(HighestPeak(Front(bursts)), Last(bursts).peak)
  }

  function LoudestSeen(s: Stream): nat {
    Higher(HighestPeak(s.bursts), s.peak)
  }

  lemma {:induction false} TookKeepsPeak(s: Stream, step: (Acc, Option<seq<int>>))
    ensures LoudestSeen(s.Took(step)) == LoudestSeen(s)
  {
    if step.1.Some? {
      assert Front(s.bursts + [Burst(step.1.value, s.peak)]) == s.bursts;
    }
  }

  lemma {:induction false} ClosingKeepsPeak(sl: Slicing, s: Stream)
    ensures LoudestSeen(CloseBurst(sl, s)) == LoudestSeen(s)
  {
    if s.pending.Some? {
      TookKeepsPeak(s.(pending := None), AccPush(sl.limits, s.acc, s.pending.value));
    }
    var pushed := match s.pending
      case None => s
      case Some(run) => s.(pending := None).Took(AccPush(sl.limits, s.acc, run));
    TookKeepsPeak(pushed, AccFinish(sl.limits, pushed.acc));
  }

  lemma {:induction false} EmittingKeepsPeak(sl: Slicing, s: Stream)
    ensures LoudestSeen(EmitRun(sl, s)) == LoudestSeen(s)
  {
    if s.pending.Some? {
      TookKeepsPeak(s.(pending := Some(Run(s.on, sl.clock.us(s.len)))), AccPush(sl.limits, s.acc, s.pending.value));
    }
  }

  lemma {:induction false} PeakRises(s: Stream, sample: Sample)
    ensures LoudestSeen(Peaked(s, sample)) == Higher(LoudestSeen(s), if sample.on then sample.mag else 0)
  {
  }

  lemma {:induction false} CheckKeepsPeak(sl: Slicing, s: Stream, sample: Sample)
    ensures var peaked := Peaked(s, sample);
      LoudestSeen(if !peaked.on && peaked.len == sl.gapSamples then CloseBurst(sl, peaked) else peaked) ==
      Higher(LoudestSeen(s), if sample.on then sample.mag else 0)
  {
    PeakRises(s, sample);
    ClosingKeepsPeak(sl, Peaked(s, sample));
  }

  lemma {:induction false} StepKeepsPeak(sl: Slicing, s: Stream, sample: Sample)
    ensures LoudestSeen(StreamStep(sl, s, sample)) == Higher(LoudestSeen(s), if sample.on then sample.mag else 0)
  {
    if sample.on == s.on {
      CheckKeepsPeak(sl, s.(len := s.len + 1), sample);
    } else {
      EmittingKeepsPeak(sl, s);
      CheckKeepsPeak(sl, EmitRun(sl, s).(on := sample.on, len := 1), sample);
    }
  }

  /**
   * No carrier sample is louder than every peak reported or still held, and no peak is louder than
   * every sample: peaks may move from a burst to the next one emitted, but none is lost.
   */
  lemma {:induction false} PeaksConserved(sl: Slicing, samples: seq<Sample>)
    ensures LoudestSeen(StreamAll(sl, samples)) == Loudest(samples)
  {
    if samples != [] {
      PeaksConserved(sl, Front(samples));
      StepKeepsPeak(sl, StreamAll(sl, Front(samples)), Last(samples));
    }
  }

  /** The cuts with those of the bursts that have been added since there were n. */
  function CutAt(cuts: seq<nat>, t: nat, s: Stream, n: nat): seq<nat> {
    cuts + Repeat(t, Excess(|s.bursts|, n))
  }

  /** The sample each burst left at, by index: it left before that sample counted. */
  function Cuts(sl: Slicing, samples: seq<Sample>): seq<nat> {
    if samples == [] then []
    else
      var front := Front(samples);
      CutAt(Cuts(sl, front), |front|, StreamAll(sl, samples), |StreamAll(sl, front).bursts|)
  }

  function Since(cuts: seq<nat>): nat {
    if cuts == [] then 0 else Last(cuts)
  }

  /** Each burst has the peak of what came between the one before it and itself; the rest is still held. */
  ghost predicate PeaksHeld(s: Stream, samples: seq<Sample>, cuts: seq<nat>) {
    && |cuts| == |s.bursts| && Since(cuts) <= |samples|
    && (forall i :: 0 <= i < |cuts| ==> PeakIsLocal(s.bursts[i], samples, Since(cuts[..i]), cuts[i]))
    && s.peak == Loudest(samples[Since(cuts)..])
  }

  ghost predicate PeakIsLocal(burst: Burst, samples: seq<Sample>, from: nat, to: nat) {
    from <= to <= |samples| && burst.peak == Loudest(samples[from..to])
  }

  predicate Quiet(samples: seq<Sample>, t: nat) {
    forall i :: t <= i < |samples| ==> !samples[i].on
  }

  lemma {:induction false} LoudestConcat(a: seq<Sample>, b: seq<Sample>)
    ensures Loudest(a + b) == Higher(Loudest(a), Loudest(b))
  {
    if b == [] {
      assert a + b == a;
    } else {
      assert Front(a + b) == a + Front(b) && Last(a + b) == Last(b);
      LoudestConcat(a, Front(b));
    }
  }

  lemma {:induction false} LoudestQuiet(samples: seq<Sample>)
    requires Quiet(samples, 0)
    ensures Loudest(samples) == 0
  {
    if samples != [] {
      assert !samples[|samples| - 1].on;
      LoudestQuiet(Front(samples));
    }
  }

  lemma {:induction false} QuietTail(samples: seq<Sample>, c: nat, t: nat)
    requires c <= t <= |samples| && Quiet(samples, t)
    ensures Loudest(samples[c..]) == Loudest(samples[c..t]) && Loudest(samples[t..]) == 0
  {
    assert samples[c..] == samples[c..t] + samples[t..];
    LoudestConcat(samples[c..t], samples[t..]);
    LoudestQuiet(samples[t..]);
  }

  lemma {:induction false} TookHeld(
    s: Stream, step: (Acc, Option<seq<int>>), samples: seq<Sample>, cuts: seq<nat>, t: nat)
    requires PeaksHeld(s, samples, cuts) && Since(cuts) <= t <= |samples| && Quiet(samples, t)
    ensures PeaksHeld(s.Took(step), samples, if step.1.Some? then cuts + [t] else cuts)
  {
    if step.1.Some? {
      var after, later := s.Took(step), cuts + [t];
      QuietTail(samples, Since(cuts), t);
      forall i | 0 <= i < |later| ensures PeakIsLocal(after.bursts[i], samples, Since(later[..i]), later[i]) {
        if i < |cuts| {
          assert PeakIsLocal(s.bursts[i], samples, Since(cuts[..i]), cuts[i]);
          assert later[..i] == cuts[..i];
        } else {
          assert later[..i] == cuts;
        }
      }
    }
  }

  lemma {:induction false} CutOnce(cuts: seq<nat>, t: nat, s: Stream, n: nat)
    ensures |s.bursts| == n ==> CutAt(cuts, t, s, n) == cuts
    ensures |s.bursts| == n + 1 ==> CutAt(cuts, t, s, n) == cuts + [t]
  {
  }

  lemma {:induction false} CutTwice(cuts: seq<nat>, t: nat, s: Stream, after: Stream, n: nat)
    requires n <= |s.bursts| <= |after.bursts|
    ensures CutAt(CutAt(cuts, t, s, n), t, after, |s.bursts|) == CutAt(cuts, t, after, n)
  {
  }

  lemma {:induction false} TookCut(
    s: Stream, step: (Acc, Option<seq<int>>), samples: seq<Sample>, cuts: seq<nat>, t: nat)
    requires PeaksHeld(s, samples, cuts) && Since(cuts) <= t <= |samples| && Quiet(samples, t)
    ensures var after := s.Took(step);
      |after.bursts| >= |s.bursts| && PeaksHeld(after, samples, CutAt(cuts, t, after, |s.bursts|))
  {
    TookHeld(s, step, samples, cuts, t);
    CutOnce(cuts, t, s.Took(step), |s.bursts|);
  }

  lemma {:induction false} EmittingHeld(sl: Slicing, s: Stream, samples: seq<Sample>, cuts: seq<nat>)
    requires PeaksHeld(s, samples, cuts)
    ensures var after := EmitRun(sl, s);
      |after.bursts| >= |s.bursts| && PeaksHeld(after, samples, CutAt(cuts, |samples|, after, |s.bursts|))
  {
    var after := EmitRun(sl, s);
    if after.bursts == s.bursts && after.peak == s.peak {
      CutOnce(cuts, |samples|, after, |s.bursts|);
    } else {
      var next := s.(pending := Some(Run(s.on, sl.clock.us(s.len))));
      TookCut(next, AccPush(sl.limits, s.acc, s.pending.value), samples, cuts, |samples|);
    }
  }

  lemma {:induction false} ClosingHeld(sl: Slicing, s: Stream, samples: seq<Sample>, cuts: seq<nat>, t: nat)
    requires PeaksHeld(s, samples, cuts) && Since(cuts) <= t <= |samples| && Quiet(samples, t)
    ensures var after := CloseBurst(sl, s);
      |after.bursts| >= |s.bursts| && PeaksHeld(after, samples, CutAt(cuts, t, after, |s.bursts|))
  {
    if s.pending.None? {
      TookCut(s, AccFinish(sl.limits, s.acc), samples, cuts, t);
    } else {
      var step, emptied := AccPush(sl.limits, s.acc, s.pending.value), s.(pending := None);
      var pushed := emptied.Took(step);
      TookCut(emptied, step, samples, cuts, t);
      SinceCut(cuts, t, pushed, |s.bursts|);
      TookCut(pushed, AccFinish(sl.limits, pushed.acc), samples, CutAt(cuts, t, pushed, |s.bursts|), t);
      CutTwice(cuts, t, pushed, CloseBurst(sl, s), |s.bursts|);
    }
  }

  lemma {:induction false} SinceCut(cuts: seq<nat>, t: nat, s: Stream, n: nat)
    requires Since(cuts) <= t
    ensures Since(CutAt(cuts, t, s, n)) <= t
  {
  }

  lemma {:induction false} SampleHeld(s: Stream, samples: seq<Sample>, cuts: seq<nat>, sample: Sample)
    requires PeaksHeld(s, samples, cuts)
    ensures PeaksHeld(Peaked(s, sample), samples + [sample], cuts)
  {
    var after, whole, c := Peaked(s, sample), samples + [sample], Since(cuts);
    assert whole[c..] == samples[c..] + [sample];
    assert Front(samples[c..] + [sample]) == samples[c..];
    forall i | 0 <= i < |cuts| ensures PeakIsLocal(after.bursts[i], whole, Since(cuts[..i]), cuts[i]) {
      assert PeakIsLocal(s.bursts[i], samples, Since(cuts[..i]), cuts[i]);
      assert whole[Since(cuts[..i])..cuts[i]] == samples[Since(cuts[..i])..cuts[i]];
    }
  }

  /** The run in progress grows, or is emitted. */
  lemma {:induction false} CountingHeld(sl: Slicing, s: Stream, samples: seq<Sample>, cuts: seq<nat>, sample: Sample)
    requires PeaksHeld(s, samples, cuts)
    ensures var counted := Counted(sl, s, sample);
      |counted.bursts| >= |s.bursts| && PeaksHeld(counted, samples, CutAt(cuts, |samples|, counted, |s.bursts|))
  {
    EmittingHeld(sl, s, samples, cuts);
    CutOnce(cuts, |samples|, s, |s.bursts|);
  }

  lemma {:induction false} StepHeld(sl: Slicing, s: Stream, samples: seq<Sample>, cuts: seq<nat>, sample: Sample)
    requires PeaksHeld(s, samples, cuts)
    ensures var after := StreamStep(sl, s, sample);
      && |after.bursts| >= |s.bursts|
      && PeaksHeld(after, samples + [sample], CutAt(cuts, |samples|, after, |s.bursts|))
  {
    var t, whole, counted := |samples|, samples + [sample], Counted(sl, s, sample);
    var peaked, between := Peaked(counted, sample), CutAt(cuts, t, counted, |s.bursts|);
    CountingHeld(sl, s, samples, cuts, sample);
    SampleHeld(counted, samples, between, sample);
    if !peaked.on && peaked.len == sl.gapSamples {
      SinceCut(cuts, t, counted, |s.bursts|);
      ClosingHeld(sl, peaked, whole, between, t);
      CutTwice(cuts, t, peaked, CloseBurst(sl, peaked), |s.bursts|);
    }
  }

  lemma {:induction false} StreamNext(sl: Slicing, front: seq<Sample>, sample: Sample)
    ensures var samples := front + [sample];
      && StreamAll(sl, samples) == StreamStep(sl, StreamAll(sl, front), sample)
      && Cuts(sl, samples) == CutAt(Cuts(sl, front), |front|, StreamAll(sl, samples), |StreamAll(sl, front).bursts|)
  {
    assert Front(front + [sample]) == front && Last(front + [sample]) == sample;
  }

  lemma {:induction false} NextHeld(sl: Slicing, front: seq<Sample>, sample: Sample)
    requires PeaksHeld(StreamAll(sl, front), front, Cuts(sl, front))
    ensures PeaksHeld(StreamAll(sl, front + [sample]), front + [sample], Cuts(sl, front + [sample]))
  {
    StreamNext(sl, front, sample);
    StepHeld(sl, StreamAll(sl, front), front, Cuts(sl, front), sample);
  }

  lemma {:induction false} NothingHeld(sl: Slicing)
    ensures PeaksHeld(StreamAll(sl, []), [], Cuts(sl, []))
  {
    var none: seq<Sample> := [];
    assert none[0..] == [];
  }

  /**
   * The peak of every burst ever emitted: exactly the loudest carrier sample since the burst before
   * it left. (Not of the burst's own samples: what came before its first mark, and was discarded,
   * counts too.)
   */
  lemma {:induction false} PeaksAreLocal(sl: Slicing, samples: seq<Sample>)
    ensures PeaksHeld(StreamAll(sl, samples), samples, Cuts(sl, samples))
  {
    if samples == [] {
      NothingHeld(sl);
    } else {
      var front, sample := Front(samples), Last(samples);
      assert samples == front + [sample];
      PeaksAreLocal(sl, front);
      NextHeld(sl, front, sample);
    }
  }

  // ----- the shape of what is emitted -----

  lemma {:induction false} FirstOnlyGrows(clock: Clock, raws: seq<Raw>)
    requires raws != []
    ensures Folded(clock, raws)[0].us >= clock.us(raws[0].len)
  {
    if |raws| == 1 {
      assert raws == [raws[0]];
      FoldedOne(clock, [], raws[0]);
    } else {
      FirstOnlyGrows(clock, Front(raws));
    }
  }

  lemma {:induction false} UnglitchedBegins(clock: Clock, bits: seq<bool>)
    ensures var quiet := Unglitched(clock, bits);
      quiet != [] && quiet[0] ==> RawRuns(quiet) != [] && RawRuns(quiet)[0].len >= clock.minSamples
  {
    RawRunsEncode(bits);
  }

  /** The runs of a recording without a leading glitch, but for a first space, last at least a microsecond each. */
  lemma {:induction false} UnglitchedShape(clock: Clock, bits: seq<bool>)
    requires Monotone(clock) && clock.us(clock.minSamples) >= 1
    ensures var runs := RunsOf(clock, Unglitched(clock, bits));
      && Alternating(runs)
      && (forall i :: 1 <= i < |runs| ==> runs[i].us >= 1)
      && (runs != [] && runs[0].on ==> runs[0].us >= 1)
  {
    var quiet := Unglitched(clock, bits);
    var raws := RawRuns(quiet);
    RawRunsEncode(quiet);
    FoldedShape(clock, raws);
    UnglitchedBegins(clock, bits);
    if raws != [] {
      FirstOnlyGrows(clock, raws);
    }
  }

  lemma {:induction false} SplitShape(limits: Limits, runs: seq<Run>)
    requires limits.minEdges >= 1 && Alternating(runs)
    requires forall i :: 1 <= i < |runs| ==> runs[i].us >= 1
    requires runs != [] && runs[0].on ==> runs[0].us >= 1
    ensures AllBursts(limits, Split(limits, runs).bursts)
  {
    if runs != [] && !runs[0].on {
      var rest := runs[1..];
      assert runs == [runs[0]] + rest;
      LeadingSpaceIgnored(limits, runs[0], rest);
      forall i, j | 0 <= i < j < |rest| && j == i + 1 ensures rest[i].on != rest[j].on {
        assert runs[i + 1].on != runs[j + 1].on;
      }
      FeedShape(limits, rest);
    } else {
      FeedShape(limits, runs);
    }
  }

  /**
   * Every frame the detector ever emits alternates, starts and ends on a mark, holds no gap, and has
   * between the minimum and the maximum of edges, if a run that reaches the floor lasts a microsecond.
   */
  lemma {:induction false} EmitsFrames(cfg: Config, samples: seq<Sample>)
    requires Usable(cfg) && SlicingOf(cfg).clock.us(SlicingOf(cfg).clock.minSamples) >= 1
    ensures AllBursts(SlicingOf(cfg).limits, FramesOf(StreamAll(SlicingOf(cfg), samples).bursts))
  {
    var sl, bits := SlicingOf(cfg), OnBits(samples);
    UsableIsSound(cfg);
    StreamingRefinesOffline(cfg, samples);
    UnglitchedShape(sl.clock, bits);
    var offline := Split(sl.limits, RunsOf(sl.clock, Unglitched(sl.clock, bits))).bursts;
    SplitShape(sl.limits, RunsOf(sl.clock, Unglitched(sl.clock, bits)));
    var frames := FramesOf(StreamAll(sl, samples).bursts);
    forall k | 0 <= k < |frames| ensures IsBurst(sl.limits, frames[k]) {
      assert frames[k] == offline[k];
    }
  }

  /** n marks and spaces of one sample each, a mark first, and then silence. */
  function Flicker(n: nat, quiet: nat): (raws: seq<Raw>)
    ensures |raws| == n + 1
  {
    seq(n + 1, i requires 0 <= i <= n => if i < n then Raw(i % 2 == 0, 1) else Raw(false, quiet))
  }

  lemma {:induction false} FlickerRuns(n: nat, quiet: nat)
    requires n % 2 == 1 && quiet >= 1
    ensures RawRuns(Expand(Flicker(n, quiet))) == Flicker(n, quiet)
    ensures AlternatingRaws(Flicker(n, quiet))
  {
    var raws := Flicker(n, quiet);
    forall i, j | 0 <= i < j < |raws| && j == i + 1 ensures raws[i].on != raws[j].on {
    }
    RawRunsOfExpand(raws);
  }

  lemma {:induction false} FlickerPiece(sl: Slicing, n: nat, quiet: nat)
    requires sl.clock.us(1) == 0 && sl.limits.gapUs >= 1 && n % 2 == 1
    ensures var p := InMicros(sl.clock, Flicker(n, quiet))[..n];
      Piece(sl.limits, p) && |p| == n && p[0] == Run(true, 0)
  {
    var runs := InMicros(sl.clock, Flicker(n, quiet));
    PrefixIsPiece(sl.limits, runs, n);
  }

  lemma {:induction false} WholePieceSplits(limits: Limits, p: seq<Run>)
    requires Piece(limits, p) && |p| % 2 == 1 && 1 <= limits.minEdges <= |p| <= MAX_BURST_EDGES
    ensures Split(limits, p).bursts == [Timings(p)]
  {
    PieceSplit(limits, p);
    HeldAll(|p|);
    assert p[0..] == p;
  }

  /** Runs that round to no time at all pass for edges. */
  lemma {:induction false} FlickerSplits(sl: Slicing, n: nat, quiet: nat)
    requires sl.clock.minSamples == 1 && sl.clock.us(1) == 0 && sl.clock.us(quiet) >= sl.limits.gapUs >= 1
    requires n % 2 == 1 && 1 <= sl.limits.minEdges <= n <= MAX_BURST_EDGES && quiet >= 1
    ensures var bursts := Split(sl.limits, Folded(sl.clock, Flicker(n, quiet))).bursts;
      |bursts| == 1 && |bursts[0]| == n && bursts[0][0] == 0
  {
    var raws := Flicker(n, quiet);
    FlickerRuns(n, quiet);
    FoldedClean(sl.clock, raws);
    var runs := InMicros(sl.clock, raws);
    FlickerPiece(sl, n, quiet);
    WholePieceSplits(sl.limits, runs[..n]);
    assert runs == runs[..n] + [runs[n]] + [];
    SplitAtGap(sl.limits, runs[..n], runs[n], []);
    NothingSplits(sl.limits);
    assert Split(sl.limits, runs[..n]).bursts + [] == [Timings(runs[..n])];
  }

  lemma {:induction false} NothingSplits(limits: Limits)
    requires limits.minEdges >= 1
    ensures Split(limits, []) == Fed(EMPTY, [])
  {
  }

  /** Where a run at the floor rounds to no time, the stream emits timings of zero. */
  lemma {:induction false} ZeroTimings(cfg: Config, n: nat, samples: seq<Sample>)
    requires Usable(cfg) && SlicingOf(cfg).clock.us(SlicingOf(cfg).clock.minSamples) == 0
    requires n % 2 == 1 && cfg.minEdges <= n <= MAX_BURST_EDGES
    requires OnBits(samples) == Expand(Flicker(n, SlicingOf(cfg).gapSamples))
    ensures !AllBursts(SlicingOf(cfg).limits, FramesOf(StreamAll(SlicingOf(cfg), samples).bursts))
  {
    var sl := SlicingOf(cfg);
    UsableIsSound(cfg);
    FlickerRuns(n, sl.gapSamples);
    FlickerSplits(sl, n, sl.gapSamples);
    SilentEnd(Flicker(n, sl.gapSamples), sl.gapSamples);
    RawRunsEncode(OnBits(samples));
    StreamingIsOffline(cfg, samples);
    var frames := FramesOf(StreamAll(sl, samples).bursts);
    assert !IsEdge(sl.limits, 0, frames[0][0]);
    assert !IsBurst(sl.limits, frames[0]);
  }

  // ----- where a frame of the maximum length cannot be -----

  lemma {:induction false} StrippedIsNoLonger(timings: seq<int>)
    ensures |Stripped(timings)| <= |timings|
  {
    if timings != [] && Last(timings) < 0 {
      StrippedIsNoLonger(Front(timings));
    }
  }

  /** After a mark the buffer holds an odd number of edges, and so fewer than the maximum. */
  lemma {:induction false} ClosedAfterMark(limits: Limits, runs: seq<Run>)
    requires Alternating(runs) && limits.minEdges >= MAX_BURST_EDGES && (runs == [] || Last(runs).on)
    ensures Feed(limits, runs).Closed(limits).bursts == Feed(limits, runs).bursts
  {
    BufferParity(limits, runs);
    StrippedIsNoLonger(Feed(limits, runs).acc.current);
  }

  lemma {:induction false} MaximumIsNeverFed(limits: Limits, runs: seq<Run>)
    requires Alternating(runs) && limits.minEdges >= MAX_BURST_EDGES
    ensures Feed(limits, runs).bursts == []
  {
    if runs != [] {
      AlternatingFront(runs);
      MaximumIsNeverFed(limits, Front(runs));
      if IsGap(limits, Last(runs)) {
        ClosedAfterMark(limits, Front(runs));
      }
    }
  }

  /** Where nothing is a glitch, a frame would have to hold the maximum of edges and be odd. */
  lemma {:induction false} MaximumIsNeverSimulated(sl: Slicing, s: Stream, raws: seq<Raw>)
    requires Sound(sl) && StreamRaws(raws) && Simulates(sl, s, raws)
    requires sl.clock.minSamples == 1 && sl.limits.minEdges >= MAX_BURST_EDGES
    ensures FramesOf(s.bursts) == []
  {
    var out := Folded(sl.clock, Front(raws));
    FoldedShape(sl.clock, Front(raws));
    MaximumIsNeverFed(sl.limits, out);
    if LongSilence(sl, Last(raws)) {
      if |raws| > 1 {
        FrontOfStream(raws);
        if Last(out).on != Last(Front(raws)).on {
          FoldedGlitch(sl, Front(raws));
        }
      }
      ClosedAfterMark(sl.limits, out);
    } else if out != [] {
      AlternatingFront(out);
      MaximumIsNeverFed(sl.limits, Front(out));
      if !Last(out).on {
        ClosedAfterMark(sl.limits, Front(out));
      }
    }
  }

  lemma {:induction false} MaximumIsNeverEmitted(cfg: Config, samples: seq<Sample>)
    requires Usable(cfg) && SlicingOf(cfg).clock.us(SlicingOf(cfg).clock.minSamples) == 0
    requires cfg.minEdges >= MAX_BURST_EDGES
    ensures FramesOf(StreamAll(SlicingOf(cfg), samples).bursts) == []
  {
    UsableIsSound(cfg);
    StreamSimulates(SlicingOf(cfg), samples);
    MaximumIsNeverSimulated(SlicingOf(cfg), StreamAll(SlicingOf(cfg), samples), StreamRuns(OnBits(samples)));
  }

  /** The frames of every recording are well formed. */
  ghost predicate AlwaysEmitsFrames(cfg: Config)
    requires cfg.Valid()
  {
    forall samples: seq<Sample> :: AllBursts(SlicingOf(cfg).limits, FramesOf(StreamAll(SlicingOf(cfg), samples).bursts))
  }

  /**
   * Exactly which configurations emit nothing but well-formed frames: those in which a run at the
   * floor lasts a microsecond, and those that ask for so many edges that they emit nothing at all
   * where it does not.
   */
  lemma {:induction false} EmitsFramesExactly(cfg: Config)
    requires Usable(cfg)
    ensures AlwaysEmitsFrames(cfg) <==>
            SlicingOf(cfg).clock.us(SlicingOf(cfg).clock.minSamples) >= 1 || cfg.minEdges >= MAX_BURST_EDGES
  {
    var sl := SlicingOf(cfg);
    if sl.clock.us(sl.clock.minSamples) >= 1 {
      forall samples: seq<Sample> ensures AllBursts(sl.limits, FramesOf(StreamAll(sl, samples).bursts)) {
        EmitsFrames(cfg, samples);
      }
    } else if cfg.minEdges >= MAX_BURST_EDGES {
      forall samples: seq<Sample> ensures AllBursts(sl.limits, FramesOf(StreamAll(sl, samples).bursts)) {
        MaximumIsNeverEmitted(cfg, samples);
      }
    } else {
      var n := MAX_BURST_EDGES - 1;
      var bits := Expand(Flicker(n, sl.gapSamples));
      var samples := seq(|bits|, i requires 0 <= i < |bits| => Sample(bits[i], 0));
      assert OnBits(samples) == bits;
      ZeroTimings(cfg, n, samples);
    }
  }
}
