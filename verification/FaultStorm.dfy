/**
 * How often a radio that answers but brings no data is asked again.
 */
module FaultStorm {
  import opened Wrappers
  import opened Backoff
  import opened Radio
  import opened Arbiter
  import opened ArbiterLaws
  import opened SampleClock
  import opened Sequences

  const MINUTE: nat := 60_000

  /** The least the backoff can be once k probes of a storm have brought no data: 2, 4, 8, 16, 32, 60, 60, ... s. */
  function LeastBackoff(k: nat): (backoff: nat)
    ensures backoff <= MAX_FAULT_BACKOFF
  {
    Widened(FAULT_BACKOFF, MAX_FAULT_BACKOFF, k)
  }

  /** The least time after the first fault at which probe k can happen: 0, 4, 12, 28, 60, 120, 180, ... s. */
  function Earliest(k: nat): nat {
    if k == 0 then 0 else Earliest(k - 1) + LeastBackoff(k)
  }

  lemma {:induction false} EarliestIsMinutes(k: nat)
    requires k >= 4
    ensures Earliest(k) == 60_000 * (k - 3) && LeastBackoff(k + 1) == MINUTE
    decreases k
  {
    if k == 4 {
      assert LeastBackoff(1) == 4_000 && LeastBackoff(2) == 8_000;
      assert LeastBackoff(3) == 16_000 && LeastBackoff(4) == 32_000;
      assert Earliest(1) == 4_000 && Earliest(2) == 12_000;
      assert Earliest(3) == 28_000;
    } else {
      EarliestIsMinutes(k - 1);
    }
  }

  /** A radio in trouble: once the first fault has struck, no transfer succeeds and nothing is plugged in. */
  ghost predicate Stormy(w: World, input: Input) {
    w.log.faults != [] ==> !input.working.after.works && input.command != Some(DeviceArrived)
  }

  /** The latest clock reading of the run is at most `now`, and what the storm has done to the backoff by then. */
  ghost predicate Contained(w: World, now: nat) {
    && FAULT_BACKOFF <= w.fields.backoff <= MAX_FAULT_BACKOFF
    && if w.log.faults == [] then !w.fields.faulted && w.log.probes == []
       else
         var first, k := w.log.faults[0], |w.log.probes|;
         && now >= first + Earliest(k)
         && w.fields.backoff >= LeastBackoff(if w.fields.faulted then k + 1 else k)
         && (w.fields.faulted ==> w.fields.retryAt >= first + Earliest(k + 1))
         && ProbesSpaced(w.log.probes, first)
  }

  ghost predicate ProbesSpaced(probes: seq<nat>, first: nat) {
    forall k :: 0 <= k < |probes| ==> probes[k] >= first + Earliest(k + 1)
  }

  lemma {:induction false} DoublingKeepsUp(backoff: nat, k: nat)
    requires backoff >= LeastBackoff(k)
    ensures Doubled(backoff, MAX_FAULT_BACKOFF) >= LeastBackoff(k + 1)
  {
  }

  lemma {:induction false} LeastBackoffGrows(k: nat)
    ensures LeastBackoff(k) <= LeastBackoff(k + 1)
  {
  }

  lemma {:induction false} FaultContained(w: World, now: nat, at: nat)
    requires Contained(w, now) && now <= at
    ensures Contained(AfterFault(w, at), at) && AfterFault(w, at).log.faults != []
  {
    var after, k := AfterFault(w, at), |w.log.probes|;
    var rung := if w.log.faults != [] && w.fields.faulted then k + 1 else k;
    if w.log.faults != [] {
      assert after.log.faults[0] == w.log.faults[0];
      LeastBackoffGrows(k + 1);
    }
    DoublingKeepsUp(w.fields.backoff, rung);
    assert after.fields.backoff == Doubled(w.fields.backoff, MAX_FAULT_BACKOFF);
    assert after.fields.retryAt == at + after.fields.backoff;
    assert Earliest(k + 1) == Earliest(k) + LeastBackoff(k + 1);
  }

  /** Nothing but the parts of the world the storm does not concern has changed, or a fault was forgotten. */
  ghost predicate Calm(w: World, after: World) {
    && after.fields.backoff == w.fields.backoff && after.fields.retryAt == w.fields.retryAt
    && after.log.faults == w.log.faults && after.log.probes == w.log.probes
    && (after.fields.faulted ==> w.fields.faulted)
  }

  lemma {:induction false} CalmContained(w: World, after: World, now: nat, later: nat)
    requires Contained(w, now) && now <= later && Calm(w, after)
    ensures Contained(after, later)
  {
    if w.log.faults != [] {
      LeastBackoffGrows(|w.log.probes|);
    }
  }

  lemma {:induction false} TransmittedCalm(w: World, gain: nat, phase: Phase)
    ensures Calm(w, Transmitted(w, gain, phase).0)
  {
  }

  lemma {:induction false} HandledContained(w: World, command: Command, input: Input, now: nat)
    requires Contained(w, now) && now <= input.handledAt && input.Ordered()
    requires w.log.faults != [] ==> command != DeviceArrived
    ensures Contained(Handled(w, command, input), input.faultedAt)
  {
    match command {
      case Transmit(gain) =>
        TransmittedCalm(w, gain, input.handling);
        var (after, ok) := Transmitted(w, gain, input.handling);
        CalmContained(w, after, now, input.faultedAt);
        if !ok {
          FaultContained(after, input.faultedAt, input.faultedAt);
        }
      case ConfigureRx(frequency, enabled) =>
        ConfiguredContained(w, frequency, enabled, input, now);
      case DeviceArrived =>
      case Status =>
        CalmContained(w, w.Replied(StatusIs(w.fields.DeviceState())), now, input.faultedAt);
    }
  }

  lemma {:induction false} ConfiguredContained(w: World, frequency: Option<nat>, enabled: bool, input: Input, now: nat)
    requires Contained(w, now) && now <= input.faultedAt
    ensures Contained(Handled(w, ConfigureRx(frequency, enabled), input), input.faultedAt)
  {
    var tuned := Tuned(w, frequency, enabled, input.handling);
    CalmContained(w, tuned, now, input.faultedAt);
    if !enabled {
      CalmContained(tuned, tuned.Published().Replied(Done), input.faultedAt, input.faultedAt);
    } else {
      var (started, ok) := BroughtUp(tuned, input.handling.main);
      CalmContained(tuned, started, input.faultedAt, input.faultedAt);
      if ok {
        CalmContained(started, started.Published().Replied(Done), input.faultedAt, input.faultedAt);
      } else {
        FaultContained(started, input.faultedAt, input.faultedAt);
        var down := AfterFault(started, input.faultedAt);
        CalmContained(down, down.Published().Replied(Failed), input.faultedAt, input.faultedAt);
      }
    }
  }

  /** Probe k + 1 comes no sooner than it may. */
  lemma {:induction false} ProbeContained(w: World, probed: World, now: nat, at: nat)
    requires Contained(w, now) && w.fields.faulted && at >= w.fields.retryAt
    requires probed.fields == w.fields && probed.log.faults == w.log.faults
    requires probed.log.probes == w.log.probes + [at]
    ensures w.log.faults != []
    ensures var first, k := w.log.faults[0], |probed.log.probes|;
      at >= first + Earliest(k) && ProbesSpaced(probed.log.probes, first) && w.fields.backoff >= LeastBackoff(k)
  {
    ProbeSpaced(w.log.probes, w.log.faults[0], at);
  }

  /** An answer is believed for now, and the backoff it had to wait is kept. */
  lemma {:induction false} AnsweredContained(probed: World, at: nat, later: nat)
    requires probed.log.faults != [] && at <= later
    requires FAULT_BACKOFF <= probed.fields.backoff <= MAX_FAULT_BACKOFF
    requires var first, k := probed.log.faults[0], |probed.log.probes|;
      at >= first + Earliest(k) && ProbesSpaced(probed.log.probes, first) && probed.fields.backoff >= LeastBackoff(k)
    ensures Contained(probed.(fields := probed.fields.(faulted := false)).Published(), later)
  {
  }

  /** Without one, the next probe is later still. */
  lemma {:induction false} UnansweredContained(probed: World, at: nat, later: nat)
    requires probed.log.faults != [] && at <= later
    requires FAULT_BACKOFF <= probed.fields.backoff <= MAX_FAULT_BACKOFF
    requires var first, k := probed.log.faults[0], |probed.log.probes|;
      at >= first + Earliest(k) && ProbesSpaced(probed.log.probes, first) && probed.fields.backoff >= LeastBackoff(k)
    ensures Contained(BackedOff(probed, later), later)
  {
    var k := |probed.log.probes|;
    DoublingKeepsUp(probed.fields.backoff, k);
    LeastBackoffGrows(k);
    assert Earliest(k + 1) == Earliest(k) + LeastBackoff(k + 1);
  }

  lemma {:induction false} RetriedContained(w: World, input: Input)
    requires Contained(w, input.faultedAt) && input.Ordered() && w.fields.faulted
    ensures Contained(Retried(w, input), input.lateAt)
  {
    if input.checkedAt < w.fields.retryAt {
      CalmContained(w, w, input.faultedAt, input.lateAt);
    } else {
      var (probed, ok) := Probed(w, input);
      ProbeContained(w, probed, input.faultedAt, input.checkedAt);
      if ok {
        AnsweredContained(probed, input.checkedAt, input.lateAt);
      } else {
        UnansweredContained(probed, input.checkedAt, input.lateAt);
      }
    }
  }

  lemma {:induction false} ProbeSpaced(probes: seq<nat>, first: nat, at: nat)
    requires ProbesSpaced(probes, first) && at >= first + Earliest(|probes| + 1)
    ensures ProbesSpaced(probes + [at], first)
  {
  }

  lemma {:induction false} PumpedContained(w: World, input: Input)
    requires Contained(w, input.faultedAt) && input.Ordered() && !w.fields.faulted
    requires w.log.faults != [] ==> !input.working.after.works
    ensures Contained(Pumped(w, input), input.lateAt)
  {
    if w.fields.rxRunning {
      ReadOutContained(w, input);
    } else {
      var (started, ok) := BroughtUp(w, input.working.main);
      CalmContained(w, started, input.faultedAt, input.faultedAt);
      if ok {
        CalmContained(started, started.Published(), input.faultedAt, input.faultedAt);
        ReadOutContained(started.Published(), input);
      } else {
        FaultContained(started, input.faultedAt, input.lateAt);
      }
    }
  }

  lemma {:induction false} ReadOutContained(w: World, input: Input)
    requires Contained(w, input.faultedAt) && input.Ordered() && !w.fields.faulted
    requires w.log.faults != [] ==> !input.working.after.works
    ensures Contained(ReadOut(w, input), input.lateAt)
  {
    var (device, read) := DidRead(w.device, input.working.after);
    var done := w.Called(CallRead).(device := device);
    CalmContained(w, done, input.faultedAt, input.faultedAt);
    if !read {
      FaultContained(done, input.faultedAt, input.lateAt);
    }
  }

  lemma {:induction false} StepContained(w: World, input: Input, now: nat)
    requires Contained(w, now) && now <= input.handledAt && input.Ordered() && Stormy(w, input)
    ensures Contained(Step(w, input), input.lateAt)
  {
    var handled := AfterCommand(w, input);
    if input.command.Some? {
      HandledContained(w, input.command.value, input, now);
      HandledFaults(w, input.command.value, input);
    } else {
      CalmContained(w, w, now, input.faultedAt);
    }
    if !handled.fields.rxEnabled {
      CalmContained(handled, handled, input.faultedAt, input.lateAt);
    } else if handled.fields.faulted {
      RetriedContained(handled, input);
    } else {
      PumpedContained(handled, input);
    }
  }

  /** A fault in handling a command leaves the radio faulted for the rest of the iteration. */
  lemma {:induction false} HandledFaults(w: World, command: Command, input: Input)
    ensures var after := Handled(w, command, input);
      after.log.faults != w.log.faults ==> after.fields.faulted
  {
  }

  function LastReading(now: nat, inputs: seq<Input>): nat {
    if inputs == [] then now else Last(inputs).lateAt
  }

  /** Clock readings never go back, within an iteration or from one to the next. */
  predicate ClockRuns(now: nat, inputs: seq<Input>) {
    inputs == [] ||
    (ClockRuns(now, Front(inputs)) && Last(inputs).Ordered()
     && Last(inputs).handledAt >= LastReading(now, Front(inputs)))
  }

  ghost predicate StormyRun(w: World, inputs: seq<Input>) {
    forall k :: 0 <= k < |inputs| ==> Stormy(Run(w, inputs[..k]), inputs[k])
  }

  lemma {:induction false} RunContained(w: World, inputs: seq<Input>, now: nat)
    requires Contained(w, now) && ClockRuns(now, inputs) && StormyRun(w, inputs)
    ensures Contained(Run(w, inputs), LastReading(now, inputs))
  {
    if inputs != [] {
      var front := Front(inputs);
      forall k | 0 <= k < |front| ensures Stormy(Run(w, front[..k]), front[k]) {
        assert front[..k] == inputs[..k];
      }
      RunContained(w, front, now);
      assert inputs[..|inputs| - 1] == front;
      assert Stormy(Run(w, front), inputs[|inputs| - 1]);
      StepContained(Run(w, front), Last(inputs), LastReading(now, front));
    }
  }

  /**
   * However long a storm lasts and whatever clients ask for meanwhile, the probes of the first T
   * milliseconds after the first fault are at most 3 and one a minute.
   */
  lemma {:induction false} ProbesBounded(w: World, inputs: seq<Input>, now: nat, t: nat, k: nat)
    requires !w.fields.faulted && w.log.faults == [] && w.log.probes == []
    requires FAULT_BACKOFF <= w.fields.backoff <= MAX_FAULT_BACKOFF
    requires ClockRuns(now, inputs) && StormyRun(w, inputs)
    requires var log := Run(w, inputs).log;
      log.faults != [] && k < |log.probes| && log.probes[k] <= log.faults[0] + t
    ensures k + 1 <= 3 + t / 60_000
  {
    RunContained(w, inputs, now);
    var log := Run(w, inputs).log;
    assert log.probes[k] >= log.faults[0] + Earliest(k + 1);
    if k + 1 >= 4 {
      EarliestIsMinutes(k + 1);
      WholeMinutes(t, k - 2);
    }
  }

  lemma {:induction false} WholeMinutes(t: nat, n: nat)
    requires MINUTE * n <= t
    ensures n <= t / MINUTE
  {
    DivisionBounds(t, MINUTE);
    SpacedMultiples(t / MINUTE, n, MINUTE);
  }

  /** The next probe is at most the present backoff away. */
  predicate DueWithin(w: World, now: nat) {
    w.fields.retryAt <= now + w.fields.backoff && w.fields.backoff <= MAX_FAULT_BACKOFF
  }

  /** From one world to a later one, the next probe has come no nearer. */
  predicate NoSooner(w: World, after: World, later: nat) {
    after.fields.retryAt >= w.fields.retryAt && DueWithin(after, later)
  }

  lemma {:induction false} BackedOffNoSooner(w: World, now: nat, at: nat)
    requires DueWithin(w, now) && now <= at
    ensures NoSooner(w, BackedOff(w, at), at)
  {
  }

  lemma {:induction false} FaultNoSooner(w: World, now: nat, at: nat)
    requires DueWithin(w, now) && now <= at
    ensures NoSooner(w, AfterFault(w, at), at)
  {
    var down := w.(fields := w.fields.(faulted := true, rxRunning := false, receivingProven := false),
                   log := w.log.(faults := w.log.faults + [at]));
    BackedOffNoSooner(down, now, at);
  }

  lemma {:induction false} HandledNoSooner(w: World, command: Command, input: Input, now: nat)
    requires DueWithin(w, now) && now <= input.faultedAt && command != DeviceArrived
    ensures NoSooner(w, Handled(w, command, input), input.faultedAt)
  {
    match command {
      case Transmit(gain) =>
        TransmittedCalm(w, gain, input.handling);
        FaultNoSooner(Transmitted(w, gain, input.handling).0, now, input.faultedAt);
      case ConfigureRx(frequency, enabled) =>
        var tuned := Tuned(w, frequency, enabled, input.handling);
        FaultNoSooner(BroughtUp(tuned, input.handling.main).0, now, input.faultedAt);
      case DeviceArrived =>
      case Status =>
    }
  }

  lemma {:induction false} ReadOutNoSooner(w: World, input: Input)
    requires DueWithin(w, input.faultedAt) && input.Ordered() && !input.working.after.works
    ensures NoSooner(w, ReadOut(w, input), input.lateAt)
  {
    var done := w.Called(CallRead).(device := DidRead(w.device, input.working.after).0);
    FaultNoSooner(done, input.faultedAt, input.lateAt);
  }

  lemma {:induction false} WorkedNoSooner(w: World, input: Input)
    requires DueWithin(w, input.faultedAt) && input.Ordered() && !input.working.after.works
    ensures NoSooner(w, Worked(w, input), input.lateAt)
  {
    if w.fields.faulted {
      var (probed, ok) := Probed(w, input);
      BackedOffNoSooner(probed, input.faultedAt, input.lateAt);
    } else {
      var (started, ok) := BroughtUp(w, input.working.main);
      FaultNoSooner(started, input.faultedAt, input.lateAt);
      ReadOutNoSooner(started.Published(), input);
      ReadOutNoSooner(w, input);
    }
  }

  /**
   * No iteration without data brings the next probe forward, whatever the client commands in it come
   * to: the time it is due never moves back, and is never more than the backoff away.
   */
  lemma {:induction false} RetryNeverSooner(w: World, input: Input, now: nat)
    requires DueWithin(w, now) && now <= input.handledAt && input.Ordered()
    requires !input.working.after.works && input.command != Some(DeviceArrived)
    ensures NoSooner(w, Step(w, input), input.lateAt)
  {
    if input.command.Some? {
      HandledNoSooner(w, input.command.value, input, now);
    }
    WorkedNoSooner(AfterCommand(w, input), input);
  }
}
