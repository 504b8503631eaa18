/**
 * The streaming receiver: slices sample by sample with one run of
 * lookahead, closing a burst as soon as the silence outruns the gap, and
 * re-deriving its slicing threshold once per window.
 *
 * `StreamStep` and `DetectorStep` give the effect of one sample on values;
 * `Detector` is the object the program keeps, updated in place.
 */
module Detector {
  import opened Wrappers
  import opened SampleClock
  import opened Runs
  import opened Sequences
  import opened Bursts
  import opened Histogram
  import opened Iq

  datatype Config = Config(
    rate: nat,
    fraction: Ratio,
    minUs: nat,
    gapUs: int,
    minEdges: nat,
    sigmas: Ratio,
    windowSamples: nat
  ) {
    predicate Valid() {
      rate > 0 && fraction.Valid() && sigmas.Valid()
    }
  }

  /** What the daemon listens with unless told otherwise. */
  function Defaults(rate: nat): Config {
    Config(rate, Ratio(1, 2), 40, 3_000, 8, Ratio(8, 1), rate)
  }

  /** The part of the setup that slicing depends on. */
  datatype Slicing = Slicing(clock: Clock, gapSamples: nat, limits: Limits)

  /** The configuration as the detector keeps it, with durations converted to samples once. */
  datatype Setup = Setup(slicing: Slicing, windowSamples: nat, fraction: Ratio, sigmas: Ratio) {
    predicate Valid() {
      fraction.Valid() && sigmas.Valid()
    }

    /** A window is never shorter than the sample that completes it. */
    function Window(): (n: nat)
      ensures n >= 1
    {
      if windowSamples < 1 then 1 else windowSamples
    }
  }

  function SlicingOf(cfg: Config): (s: Slicing)
    requires cfg.Valid()
    ensures s.clock.minSamples >= 1 && s.gapSamples >= 1
  {
    Slicing(ClockOf(cfg.rate, cfg.minUs), AtLeastOneSample(cfg.gapUs, cfg.rate), Limits(cfg.gapUs, cfg.minEdges))
  }

  function SetupOf(cfg: Config): (setup: Setup)
    requires cfg.Valid()
    ensures setup.Valid()
  {
    Setup(SlicingOf(cfg), cfg.windowSamples, cfg.fraction, cfg.sigmas)
  }

  /** A frame as the stream emits it; the peak is the loudest sample since the one before. */
  datatype Burst = Burst(timings: seq<int>, peak: nat)

  // ----- slicing a live stream -----

  /** One sample after slicing: its side of the threshold, and its magnitude. */
  datatype Sample = Sample(on: bool, mag: nat)

  /** The slicing half of the detector's fields, with everything emitted so far. */
  datatype Stream = Stream(on: bool, len: nat, pending: Option<Run>, acc: Acc, peak: nat, bursts: seq<Burst>) {
    /** The accumulator made a step; a burst it completed takes the peak with it. */
    function Took(step: (Acc, Option<seq<int>>)): Stream {
      match step.1
      case None => this.(acc := step.0)
      case Some(timings) => this.(acc := step.0, peak := 0, bursts := bursts + [Burst(timings, peak)])
    }
  }

  const IDLE: Stream := Stream(false, 0, None, EMPTY, 0, [])

  /** Hands the run in progress on, keeping it back as the one run of lookahead. */
  function EmitRun(sl: Slicing, s: Stream): Stream
  {
    var us := sl.clock.us(s.len);
    match s.pending
    case None => s.(pending := Some(Run(s.on, us)))
    case Some(previous) =>
      if s.len < sl.clock.minSamples || previous.on == s.on then
        s.(pending := Some(Run(previous.on, previous.us + us)))
      else
        s.(pending := Some(Run(s.on, us))).Took(AccPush(sl.limits, s.acc, previous))
  }

  /** The eager end of a burst: pushes the lookahead run, finished or not, and closes. */
  function CloseBurst(sl: Slicing, s: Stream): Stream {
    var pushed := match s.pending
      case None => s
      case Some(run) => s.(pending := None).Took(AccPush(sl.limits, s.acc, run));
    pushed.Took(AccFinish(sl.limits, pushed.acc))
  }

  function Peaked(s: Stream, sample: Sample): Stream {
    if sample.on && sample.mag > s.peak then s.(peak := sample.mag) else s
  }

  /** The run in progress one sample longer, or emitted and another begun. */
  function Counted(sl: Slicing, s: Stream, sample: Sample): Stream {
    if sample.on == s.on then s.(len := s.len + 1) else EmitRun(sl, s).(on := sample.on, len := 1)
  }

  function StreamStep(sl: Slicing, s: Stream, sample: Sample): Stream
  {
    var peaked := Peaked(Counted(sl, s, sample), sample);
    if !peaked.on && peaked.len == sl.gapSamples then CloseBurst(sl, peaked) else peaked
  }

  function StreamAll(sl: Slicing, samples: seq<Sample>): Stream
  {
    if samples == [] then IDLE else StreamStep(sl, StreamAll(sl, Front(samples)), Last(samples))
  }

  // ----- adapting the threshold -----

  /** The threshold a full window yields. */
  function ThresholdOf(setup: Setup, window: seq<nat>): nat
    requires setup.Valid()
  {
    var floor := Quantile(window, MEDIAN);
    var robust := RobustFloor(setup, floor, Quantile(window, QUARTILE));
    var sliced := SlicedLevel(setup, floor, Quantile(window, SIGNAL));
    var higher := if robust > sliced then robust else sliced;
    if higher > 1 then higher else 1
  }

  /** The median plus so many deviations of the noise; quartile - floor is 0.674 sigma. */
  function RobustFloor(setup: Setup, floor: nat, quartile: nat): nat
    requires setup.Valid()
  {
    SaturatingRaise(floor, Excess(quartile, floor) * 1000 * setup.sigmas.num, 674 * setup.sigmas.den)
  }

  /** The level a fraction of the way from noise to signal. */
  function SlicedLevel(setup: Setup, floor: nat, signal: nat): nat
    requires setup.Valid()
  {
    SaturatingRaise(floor, Excess(signal, floor) * setup.fraction.num, setup.fraction.den)
  }

  /** The whole detector: the window so far, the threshold in force, the slicer. */
  datatype State = State(window: seq<nat>, threshold: Option<nat>, stream: Stream)

  const NEW: State := State([], None, IDLE)

  function DetectorStep(setup: Setup, d: State, mag: nat): State
    requires setup.Valid()
  {
    var window := d.window + [mag];
    var stream := if d.threshold.None? then d.stream
                  else StreamStep(setup.slicing, d.stream, Sample(mag >= d.threshold.value, mag));
    if |window| >= setup.windowSamples then State([], Some(ThresholdOf(setup, window)), stream)
    else State(window, d.threshold, stream)
  }

  function DetectorRun(setup: Setup, d: State, mags: seq<nat>): State
    requires setup.Valid()
  {
    if mags == [] then d else DetectorStep(setup, DetectorRun(setup, d, Front(mags)), Last(mags))
  }

  lemma {:induction false} DetectorRunNext(setup: Setup, d: State, mags: seq<nat>, i: nat)
    requires setup.Valid() && i < |mags|
    ensures DetectorRun(setup, d, mags[..i + 1]) == DetectorStep(setup, DetectorRun(setup, d, mags[..i]), mags[i])
  {
    assert Front(mags[..i + 1]) == mags[..i] && Last(mags[..i + 1]) == mags[i];
  }

  class Detector {
    const setup: Setup
    const accumulator: BurstAccumulator
    const histogram: AmplitudeHistogram
    var windowSeen: nat
    var threshold: Option<nat>
    var on: bool
    var runSamples: nat
    var pending: Option<Run>
    var burstPeak: nat

    ghost function Repr(): set<object> {
      {this, accumulator, histogram, histogram.counts}
    }

    ghost predicate Valid()
      reads Repr()
    {
      && setup.Valid()
      && accumulator.limits == setup.slicing.limits
      && histogram.Valid() && windowSeen == |histogram.window|
    }

    /** The slicing fields, with the list of bursts being filled. */
    ghost function Slicer(bursts: seq<Burst>): Stream
      reads this, accumulator
    {
      Stream(on, runSamples, pending, accumulator.View(), burstPeak, bursts)
    }

    ghost function View(bursts: seq<Burst>): State
      reads Repr()
      requires Valid()
    {
      State(histogram.window, threshold, Slicer(bursts))
    }

    constructor (config: Config)
      requires config.Valid()
      ensures Valid() && fresh(Repr()) && setup == SetupOf(config) && View([]) == NEW
    {
      setup := SetupOf(config);
      accumulator := new BurstAccumulator(Limits(config.gapUs, config.minEdges));
      histogram := new AmplitudeHistogram();
      windowSeen, threshold := 0, None;
      on, runSamples, pending, burstPeak := false, 0, None, 0;
    }

    /** A transfer's samples, one by one; what they complete is returned. */
    method Push(iq: seq<Byte>) returns (bursts: seq<Burst>)
      requires Valid()
      modifies Repr()
      ensures Valid()
      ensures View(bursts) == DetectorRun(setup, old(View([])), Envelope(iq))
    {
      bursts := [];
      ghost var mags, start := Envelope(iq), View([]);
      for i := 0 to |iq| / 2
        invariant Valid()
        invariant View(bursts) == DetectorRun(setup, start, mags[..i])
      {
        DetectorRunNext(setup, start, mags, i);
        bursts := PushMagnitude(MagnitudeAt(iq, i), bursts);
      }
      assert mags[..|iq| / 2] == mags;
    }

    /** One sample: count it, slice it, and retune when it completes a window. */
    method PushMagnitude(magnitude: nat, bursts: seq<Burst>) returns (longer: seq<Burst>)
      requires Valid()
      modifies Repr()
      ensures Valid()
      ensures View(longer) == DetectorStep(setup, old(View(bursts)), magnitude)
    {
      longer := bursts;
      histogram.AddMagnitude(magnitude);
      windowSeen := windowSeen + 1;
      if threshold.Some? {
        longer := PushSample(magnitude, threshold.value, bursts);
      }
      if windowSeen >= setup.windowSamples {
        Retune(longer);
      }
    }

    method PushSample(magnitude: nat, level: nat, bursts: seq<Burst>) returns (longer: seq<Burst>)
      requires accumulator.limits == setup.slicing.limits
      modifies this`on, this`runSamples, this`pending, this`burstPeak, accumulator
      ensures Slicer(longer) == StreamStep(setup.slicing, old(Slicer(bursts)), Sample(magnitude >= level, magnitude))
    {
      longer := bursts;
      var isOn := magnitude >= level;
      if isOn == on {
        runSamples := runSamples + 1;
      } else {
        longer := EmitFinishedRun(bursts);
        on := isOn;
        runSamples := 1;
      }
      if isOn && magnitude > burstPeak {
        burstPeak := magnitude;
      }
      // Reached once per silence, however long it lasts.
      if !on && runSamples == setup.slicing.gapSamples {
        longer := CloseOnGap(longer);
      }
    }

    method CloseOnGap(bursts: seq<Burst>) returns (longer: seq<Burst>)
      requires accumulator.limits == setup.slicing.limits
      modifies this`pending, this`burstPeak, accumulator
      ensures Slicer(longer) == CloseBurst(setup.slicing, old(Slicer(bursts)))
    {
      longer := bursts;
      if pending.Some? {
        var run := pending.value;
        pending := None;
        longer := Accumulate(run, bursts);
      }
      var timings := accumulator.Finish();
      longer := TakeBurst(timings, longer);
    }

    /** Hand the finished run on, folding glitches and joining runs of one polarity. */
    method EmitFinishedRun(bursts: seq<Burst>) returns (longer: seq<Burst>)
      requires accumulator.limits == setup.slicing.limits
      modifies this`pending, this`burstPeak, accumulator
      ensures Slicer(longer) == EmitRun(setup.slicing, old(Slicer(bursts)))
    {
      longer := bursts;
      var us := setup.slicing.clock.us(runSamples);
      if pending.Some? && (runSamples < setup.slicing.clock.minSamples || pending.value.on == on) {
        pending := Some(Run(pending.value.on, pending.value.us + us));
        return;
      }
      var previous := pending;
      pending := Some(Run(on, us));
      if previous.Some? {
        longer := Accumulate(previous.value, bursts);
      }
    }

    /** A completed run reaches the accumulator. */
    method Accumulate(run: Run, bursts: seq<Burst>) returns (longer: seq<Burst>)
      requires accumulator.limits == setup.slicing.limits
      modifies this`burstPeak, accumulator
      ensures Slicer(longer) == old(Slicer(bursts)).Took(AccPush(setup.slicing.limits, old(accumulator.View()), run))
    {
      var timings := accumulator.Push(run);
      longer := TakeBurst(timings, bursts);
    }

    /** A burst leaves with the peak seen since the last one left. */
    method TakeBurst(timings: Option<seq<int>>, bursts: seq<Burst>) returns (longer: seq<Burst>)
      modifies this`burstPeak
      ensures longer == if timings.None? then bursts else bursts + [Burst(timings.value, old(burstPeak))]
      ensures burstPeak == if timings.None? then old(burstPeak) else 0
    {
      if timings.None? {
        return bursts;
      }
      longer := bursts + [Burst(timings.value, burstPeak)];
      burstPeak := 0;
    }

    method MeasuredThreshold() returns (level: nat)
      requires Valid()
      ensures level == ThresholdOf(setup, histogram.window)
    {
      var floor := histogram.Percentile(MEDIAN);
      var quartile := histogram.Percentile(QUARTILE);
      var signal := histogram.Percentile(SIGNAL);
      var robust := RobustFloor(setup, floor, quartile);
      var sliced := SlicedLevel(setup, floor, signal);
      var higher := if robust > sliced then robust else sliced;
      level := if higher > 1 then higher else 1;
    }

    /** The window's threshold comes into force, and the window starts over; the slicer is left alone. */
    method Retune(ghost bursts: seq<Burst>)
      requires Valid()
      modifies this`threshold, this`windowSeen, histogram, histogram.counts
      ensures Valid()
      ensures View(bursts) == State([], Some(ThresholdOf(setup, old(histogram.window))), old(Slicer(bursts)))
    {
      var level := MeasuredThreshold();
      threshold := Some(level);
      histogram.Reset();
      windowSeen := 0;
    }
  }
}
