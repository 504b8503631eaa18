/**
 * When a receiver that sets its own threshold can hear a carrier, by the counts
 * of samples in its windows; and how a strong enough signal deafens it.
 */
module Hearing {
  import opened SampleClock
  import opened Sequences
  import opened Runs
  import opened Bursts
  import opened Histogram
  import opened Iq
  import opened Detector
  import opened Refinement
  import opened Adaptation
  import opened RoundTrip
  import opened Reception

  // ----- the threshold measured on silence and one carrier -----

  /** The deviation of the noise, with the carrier taken for it, comes to more than the carrier. */
  predicate Magnified(setup: Setup, carrier: nat)
    requires setup.Valid()
  {
    RoundDiv(carrier * 1000 * setup.sigmas.num, 674 * setup.sigmas.den) > carrier
  }

  /** Silence makes half of the window but not three quarters of it. */
  predicate PartlySilent(window: seq<nat>) {
    Target(|window|, MEDIAN) <= CountLe(window, 0) < Target(|window|, QUARTILE)
  }

  lemma {:induction false} TargetsOrdered(total: nat)
    ensures Target(total, MEDIAN) <= Target(total, QUARTILE) <= Target(total, SIGNAL)
  {
    TargetMonotone(total, MEDIAN, QUARTILE);
    TargetMonotone(total, QUARTILE, SIGNAL);
  }

  /** The three quantiles the threshold is made of, on two levels. */
  lemma {:induction false} QuantilesOnLevels(window: seq<nat>, carrier: nat)
    requires window != [] && TwoLevels(window, carrier) && 0 < carrier < MAG_LEVELS
    ensures var floor, quartile, signal :=
              Quantile(window, MEDIAN), Quantile(window, QUARTILE), Quantile(window, SIGNAL);
      && floor in {0, carrier} && quartile in {0, carrier} && signal in {0, carrier} && floor <= quartile <= signal
      && (PartlySilent(window) <==> floor == 0 && quartile == carrier)
  {
    QuantileOfLevels(window, carrier, MEDIAN);
    QuantileOfLevels(window, carrier, QUARTILE);
    QuantileOfLevels(window, carrier, SIGNAL);
    TargetsOrdered(|window|);
  }

  lemma {:induction false} RaiseOfNothing(setup: Setup, level: nat)
    requires setup.Valid() && level < MAG_LEVELS
    ensures RobustFloor(setup, level, level) == level
  {
    assert 0 * 1000 * setup.sigmas.num == 0;
    RoundsToSomething(0, 674 * setup.sigmas.den);
  }

  lemma {:induction false} RaiseToCarrier(setup: Setup, carrier: nat)
    requires setup.Valid() && carrier < MAG_LEVELS
    ensures RobustFloor(setup, 0, carrier) <= carrier <==> !Magnified(setup, carrier)
  {
  }

  lemma {:induction false} SlicedWithin(setup: Setup, floor: nat, signal: nat)
    requires setup.Valid() && setup.fraction.num <= setup.fraction.den && floor <= signal
    ensures SlicedLevel(setup, floor, signal) <= signal
  {
    ScaledByFraction(Excess(signal, floor), setup.fraction);
  }

  /**
   * Exactly when a receiver that measured its threshold on silence and a carrier can hear that
   * carrier: unless between half and three quarters of the window was silence, which makes the
   * carrier the third quartile and hence the noise, and the deviations allowed for noise magnify it.
   */
  lemma {:induction false} ThresholdOnLevels(setup: Setup, window: seq<nat>, carrier: nat)
    requires setup.Valid() && setup.fraction.num <= setup.fraction.den
    requires window != [] && TwoLevels(window, carrier) && 0 < carrier < MAG_LEVELS
    ensures ThresholdOf(setup, window) <= carrier <==> !(PartlySilent(window) && Magnified(setup, carrier))
  {
    var floor, quartile, signal := Quantile(window, MEDIAN), Quantile(window, QUARTILE), Quantile(window, SIGNAL);
    QuantilesOnLevels(window, carrier);
    SlicedWithin(setup, floor, signal);
    if floor == quartile {
      RaiseOfNothing(setup, floor);
    } else {
      RaiseToCarrier(setup, carrier);
    }
  }

  /** At the settings the daemon listens with, every carrier is magnified. */
  lemma {:induction false} DefaultsMagnify(rate: nat, carrier: nat)
    requires rate > 0 && carrier > 0
    ensures Magnified(SetupOf(Defaults(rate)), carrier)
  {
    RoundDivBounds(carrier * 1000 * 8, 674);
  }

  // ----- hearing, by counts -----

  /** Three quarters of the window are at most n, which leaves room for the carrier; a thousandth may be louder. */
  predicate QuietBelow(setup: Setup, window: seq<nat>, carrier: nat, n: nat)
    requires setup.Valid()
  {
    && n < MAG_LEVELS && CountLe(window, n) >= Target(|window|, QUARTILE)
    && n + RoundDiv(n * 1000 * setup.sigmas.num, 674 * setup.sigmas.den) <= carrier
    && CountLe(window, carrier) >= Target(|window|, SIGNAL)
  }

  lemma {:induction false} ThresholdOnNoise(setup: Setup, window: seq<nat>, carrier: nat, n: nat)
    requires setup.Valid() && setup.fraction.num <= setup.fraction.den
    requires window != [] && 0 < carrier < MAG_LEVELS && QuietBelow(setup, window, carrier, n)
    ensures ThresholdOf(setup, window) <= carrier
  {
    RobustFloorBounded(setup, window, n);
    QuantileRobust(window, SIGNAL, carrier);
    QuantileMonotone(window, MEDIAN, SIGNAL);
    SlicedWithin(setup, Quantile(window, MEDIAN), Quantile(window, SIGNAL));
  }

  /** What a window has to hold for a carrier to be heard after it, in counts of samples. */
  ghost predicate Hears(setup: Setup, window: seq<nat>, carrier: nat)
    requires setup.Valid()
  {
    || (TwoLevels(window, carrier) && !(PartlySilent(window) && Magnified(setup, carrier)))
    || exists n :: QuietBelow(setup, window, carrier, n)
  }

  lemma {:induction false} HearsIsBelow(setup: Setup, window: seq<nat>, carrier: nat)
    requires setup.Valid() && setup.fraction.num <= setup.fraction.den
    requires window != [] && 0 < carrier < MAG_LEVELS && Hears(setup, window, carrier)
    ensures ThresholdOf(setup, window) <= carrier
  {
    if TwoLevels(window, carrier) && !(PartlySilent(window) && Magnified(setup, carrier)) {
      ThresholdOnLevels(setup, window, carrier);
    } else {
      var n :| QuietBelow(setup, window, carrier, n);
      ThresholdOnNoise(setup, window, carrier, n);
    }
  }

  /** Window k of a stream is the one in force at some sample after the first `from`. */
  predicate InForce(setup: Setup, from: nat, total: nat, k: nat) {
    k >= 1 && from < k * setup.Window() + setup.Window() && k * setup.Window() < total
  }

  /** Every window in force after the first `from` samples lets the carrier be heard. */
  ghost predicate HearsThroughout(setup: Setup, mags: seq<nat>, from: nat, carrier: nat)
    requires setup.Valid()
  {
    forall k :: InForce(setup, from, |mags|, k) ==> Hears(setup, WindowBefore(setup, mags, k), carrier)
  }

  lemma {:induction false} HearsBefore(setup: Setup, mags: seq<nat>, mag: nat, from: nat, carrier: nat)
    requires setup.Valid() && HearsThroughout(setup, mags + [mag], from, carrier)
    ensures HearsThroughout(setup, mags, from, carrier)
  {
    forall k | InForce(setup, from, |mags|, k) ensures Hears(setup, WindowBefore(setup, mags, k), carrier) {
      assert InForce(setup, from, |mags + [mag]|, k);
      WindowOfPrefix(setup, mags, [mag], k);
    }
  }

  lemma {:induction false} HearsNext(setup: Setup, mags: seq<nat>, mag: nat, from: nat, carrier: nat)
    requires setup.Valid() && setup.fraction.num <= setup.fraction.den && 0 < carrier < MAG_LEVELS
    requires setup.Window() <= |mags| && from <= |mags|
    requires HearsThroughout(setup, mags + [mag], from, carrier)
    ensures LiveThreshold(setup)(mags) <= carrier
  {
    var k := FullWindows(setup, |mags|);
    assert InForce(setup, from, |mags + [mag]|, k);
    WindowOfPrefix(setup, mags, [mag], k);
    WindowFits(k, setup.Window());
    HearsIsBelow(setup, WindowBefore(setup, mags, k), carrier);
  }

  /** Then the threshold stays at or below the carrier. */
  lemma {:induction false} HearingStaysBelow(setup: Setup, before: seq<nat>, sent: seq<nat>, carrier: nat)
    requires setup.Valid() && setup.fraction.num <= setup.fraction.den && 0 < carrier < MAG_LEVELS
    requires setup.Window() <= |before| && HearsThroughout(setup, before + sent, |before|, carrier)
    ensures StaysBelow(LiveThreshold(setup), before, sent, carrier)
  {
    if sent != [] {
      var mags, mag := before + Front(sent), Last(sent);
      assert before + sent == mags + [mag];
      HearsBefore(setup, mags, mag, |before|, carrier);
      HearsNext(setup, mags, mag, |before|, carrier);
      HearingStaysBelow(setup, before, Front(sent), carrier);
    }
  }

  /** The last n samples are silence. */
  predicate FallsSilent(mags: seq<nat>, n: nat) {
    n <= |mags| && forall i :: |mags| - n <= i < |mags| ==> mags[i] == 0
  }

  /** Silence is below every threshold. */
  lemma {:induction false} SilenceIsSliced(
    live: seq<nat> -> seq<Sample>, levels: seq<nat> -> nat, window: nat, mags: seq<nat>, n: nat)
    requires SlicesAt(live, levels, window) && FallsSilent(mags, n) && |mags| >= window + n
    ensures EndsSilent(OnBits(live(mags)), n)
  {
    if n > 0 {
      var front := Front(mags);
      assert mags == front + [0] && mags[|mags| - 1] == 0;
      SilenceIsSliced(live, levels, window, front, n - 1);
      assert SlicedAtLevel(live, levels, front, 0);
      assert OnBits(live(mags)) == OnBits(live(front)) + [false];
    }
  }

  /**
   * Reception by counts of samples alone. A detector that has just armed, or has heard anything and
   * then silence as long as the gap, receives a transmission, frame by frame, while it adapts, if
   * every window in force during it is one after which the carrier can be heard.
   */
  lemma {:induction false} TransmitReceiveCounted(
    before: seq<nat>, frame: seq<int>, repeat: nat, gapUs: nat, cfg: Config, level: Byte, quiet: nat)
    requires Receivable(frame, gapUs, cfg) && Usable(cfg) && cfg.fraction.num <= cfg.fraction.den
    requires AbsSigned(level) > 0 && quiet >= SlicingOf(cfg).gapSamples
    requires
      || |before| == SetupOf(cfg).Window()
      || (&& |before| >= SetupOf(cfg).Window() + SlicingOf(cfg).gapSamples
          && FallsSilent(before, SlicingOf(cfg).gapSamples))
    requires HearsThroughout(SetupOf(cfg), before + OnAir(frame, repeat, gapUs, cfg.rate, level, quiet),
                             |before|, AbsSigned(level))
    ensures var setup, sent := SetupOf(cfg), OnAir(frame, repeat, gapUs, cfg.rate, level, quiet);
      FramesOf(DetectorRun(setup, NEW, before + sent).stream.bursts) ==
      FramesOf(DetectorRun(setup, NEW, before).stream.bursts)
      + Received(setup.slicing.limits, Visible(frame), repeat + 1)
  {
    var setup, sent := SetupOf(cfg), OnAir(frame, repeat, gapUs, cfg.rate, level, quiet);
    HearingStaysBelow(setup, before, sent, AbsSigned(level));
    if |before| != setup.Window() {
      LiveSlicesAt(setup);
      SilenceIsSliced(LiveSlicer(setup), LiveThreshold(setup), setup.Window(), before, setup.slicing.gapSamples);
    }
    TransmitReceiveAdapting(before, frame, repeat, gapUs, cfg, level, quiet);
  }

  // ----- deafness -----

  /** A window a third of which is carrier. */
  function ThirdOf(carrier: nat, n: nat): (window: seq<nat>)
    ensures |window| == n
  {
    Repeat(0, n - n / 3) + Repeat(carrier, n / 3)
  }

  lemma {:induction false} CountConcat(a: seq<nat>, b: seq<nat>, v: int)
    ensures CountLe(a + b, v) == CountLe(a, v) + CountLe(b, v)
  {
    if b == [] {
      assert a + b == a;
    } else {
      assert Front(a + b) == a + Front(b) && Last(a + b) == Last(b);
      CountConcat(a, Front(b), v);
    }
  }

  lemma {:induction false} CountRepeat(x: nat, n: nat, v: int)
    ensures CountLe(Repeat(x, n), v) == if Bucket(x) <= v then n else 0
  {
    if n > 0 {
      assert Front(Repeat(x, n)) == Repeat(x, n - 1) && Last(Repeat(x, n)) == x;
      CountRepeat(x, n - 1, v);
    }
  }

  lemma {:induction false} ThirdIsPartlySilent(carrier: nat, n: nat)
    requires n >= 12 && 0 < carrier
    ensures TwoLevels(ThirdOf(carrier, n), carrier) && PartlySilent(ThirdOf(carrier, n))
  {
    var silent := n - n / 3;
    CountConcat(Repeat(0, silent), Repeat(carrier, n / 3), 0);
    CountRepeat(0, silent, 0);
    CountRepeat(carrier, n / 3, 0);
  }

  /** All of what follows is below the level in force. */
  predicate StaysAbove(levels: seq<nat> -> nat, before: seq<nat>, next: seq<nat>) {
    next == [] || (StaysAbove(levels, before, Front(next)) && levels(before + Front(next)) > Last(next))
  }

  predicate AllOff(samples: seq<Sample>) {
    forall i :: 0 <= i < |samples| ==> !samples[i].on
  }

  lemma {:induction false} AllBelow(
    live: seq<nat> -> seq<Sample>, levels: seq<nat> -> nat, before: seq<nat>, next: seq<nat>)
    requires SlicesAt(live, levels, |before|) && StaysAbove(levels, before, next) && AllOff(live(before))
    ensures AllOff(live(before + next))
  {
    if next == [] {
      assert before + next == before;
    } else {
      var mags := before + Front(next);
      AllBelow(live, levels, before, Front(next));
      assert before + next == mags + [Last(next)];
      assert SlicedAtLevel(live, levels, mags, Last(next));
    }
  }

  /** A stream without carrier emits nothing. */
  lemma {:induction false} NothingEmitted(sl: Slicing, samples: seq<Sample>)
    requires sl.limits.minEdges >= 1 && AllOff(samples)
    ensures StreamAll(sl, samples) == IDLE.(len := |samples|)
  {
    if samples != [] {
      var front := Front(samples);
      assert forall i :: 0 <= i < |front| ==> front[i] == samples[i];
      NothingEmitted(sl, front);
      assert !samples[|samples| - 1].on;
    }
  }

  /** The first window stays in force for as long as it lasted. */
  lemma {:induction false} FirstWindowHolds(setup: Setup, window: seq<nat>, next: seq<nat>)
    requires setup.Valid() && |window| == setup.Window() && |next| < setup.Window()
    ensures LiveThreshold(setup)(window + next) == ThresholdOf(setup, window)
  {
    var k, w := FullWindows(setup, |window + next|), setup.Window();
    SpacedMultiples(1, k, w);
    assert k == 1;
    assert WindowBefore(setup, window + next, 1) == window;
  }

  lemma {:induction false} FirstWindowStaysAbove(setup: Setup, window: seq<nat>, next: seq<nat>, carrier: nat)
    requires setup.Valid() && |window| == setup.Window() && |next| <= setup.Window()
    requires ThresholdOf(setup, window) > carrier && forall i :: 0 <= i < |next| ==> next[i] <= carrier
    ensures StaysAbove(LiveThreshold(setup), window, next)
  {
    if next != [] {
      var front := Front(next);
      assert forall i :: 0 <= i < |front| ==> front[i] == next[i];
      FirstWindowStaysAbove(setup, window, front, carrier);
      FirstWindowHolds(setup, window, front);
      assert next[|next| - 1] <= carrier;
    }
  }

  /** After a window whose threshold is above the carrier, nothing at that carrier is heard for a window. */
  lemma {:induction false} DeafForAWindow(cfg: Config, window: seq<nat>, next: seq<nat>, carrier: nat)
    requires cfg.Valid() && cfg.minEdges >= 1
    requires |window| == SetupOf(cfg).Window() && |next| <= SetupOf(cfg).Window()
    requires ThresholdOf(SetupOf(cfg), window) > carrier && forall i :: 0 <= i < |next| ==> next[i] <= carrier
    ensures DetectorRun(SetupOf(cfg), NEW, window + next).stream.bursts == []
  {
    var setup := SetupOf(cfg);
    FirstWindowStaysAbove(setup, window, next, carrier);
    LiveSlicesAt(setup);
    AllBelow(LiveSlicer(setup), LiveThreshold(setup), window, next);
    NothingEmitted(setup.slicing, SlicedLive(setup, window + next));
    ArmedStream(setup, window + next);
  }

  /**
   * A signal that takes a third of a second's window, a minority of it, deafens the detector to that
   * signal at the settings the daemon listens with: whatever is sent at that strength during the
   * next second, nothing is received.
   */
  lemma {:induction false} ThirdDeafens(rate: nat, carrier: nat, next: seq<nat>)
    requires rate >= 2 * MICROS_PER_SECOND && 0 < carrier < MAG_LEVELS
    requires |next| <= rate && forall i :: 0 <= i < |next| ==> next[i] <= carrier
    ensures DetectorRun(SetupOf(Defaults(rate)), NEW, ThirdOf(carrier, rate) + next).stream.bursts == []
  {
    var setup := SetupOf(Defaults(rate));
    ThirdIsPartlySilent(carrier, rate);
    DefaultsMagnify(rate, carrier);
    ThresholdOnLevels(setup, ThirdOf(carrier, rate), carrier);
    DeafForAWindow(Defaults(rate), ThirdOf(carrier, rate), next, carrier);
  }
}
