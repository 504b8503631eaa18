/**
 * What every run of the arbiter keeps, whatever the driver, the clients and
 * the clock do.
 */
module ArbiterLaws {
  import opened Wrappers
  import opened Backoff
  import opened Powers
  import opened Radio
  import opened Arbiter
  import opened Sequences

  /** A run: the world after a sequence of iterations. One that would block for want of a command leaves it alone. */
  function Run(w: World, inputs: seq<Input>): World {
    if inputs == [] then w else Step(Run(w, Front(inputs)), Last(inputs))
  }

  // ----- the arbiter and the device agree -----

  /**
   * The arbiter believes it is receiving exactly when the device has a live stream, that stream is
   * tuned to the arbiter's frequency, and it hangs off an open handle.
   */
  ghost predicate Coupled(w: World) {
    && (w.fields.rxRunning <==> w.device.rx.Some?)
    && (w.device.rx.Some? ==> w.device.rx.value == w.fields.rxFrequency && w.device.open)
  }

  /** The device is never asked to read without a stream, nor to start or transmit with one. */
  predicate ProperCall(call: Call, found: Handle) {
    match call
    case CallRead => found.rx.Some?
    case CallTransmit => found.rx.None?
    case CallStartRx(_) => found.rx.None?
    case CallStop => true
    case CallDescribe => found.rx.None?
  }

  ghost predicate ProperCalls(calls: seq<(Call, Handle)>) {
    forall k :: 0 <= k < |calls| ==> ProperCall(calls[k].0, calls[k].1)
  }

  /** Every sample in the present detector was read at the present frequency, and so for each frame announced. */
  ghost predicate OneBand(w: World) {
    && (forall k :: 0 <= k < |w.log.heard| ==> w.log.heard[k] == w.fields.rxFrequency)
    && (forall k :: 0 <= k < |w.log.frames| ==> PureFrame(w.log.frames[k]))
  }

  ghost predicate PureFrame(frame: Frame) {
    frame.readAt != [] && forall k :: 0 <= k < |frame.readAt| ==> frame.readAt[k] == frame.frequency
  }

  /** A receiver is proven by data only, and data resets the backoff, which is otherwise what its failures say. */
  ghost predicate Sober(w: World) {
    && (w.fields.faulted ==> !w.fields.rxRunning && !w.fields.receivingProven)
    && (w.fields.rxRunning ==> w.fields.rxEnabled)
    && (w.fields.receivingProven ==> w.fields.backoff == FAULT_BACKOFF)
    && w.fields.backoff == Widened(FAULT_BACKOFF, MAX_FAULT_BACKOFF, w.log.widened)
  }

  /** After j failures in a row, the lesser of 2^(j+1) seconds and a minute. */
  lemma {:induction false} WidenedIsPower(j: nat)
    ensures Widened(FAULT_BACKOFF, MAX_FAULT_BACKOFF, j) ==
            if 1_000 * TwoTo(j + 1) < 60_000 then 1_000 * TwoTo(j + 1) else 60_000
  {
    Backoff.WidenedIsPower(FAULT_BACKOFF, MAX_FAULT_BACKOFF, j);
    assert TwoTo(j + 1) == 2 * TwoTo(j);
  }

  ghost predicate Invariant(w: World) {
    Coupled(w) && ProperCalls(w.log.calls) && OneBand(w) && Sober(w)
  }

  lemma {:induction false} FaultKeeps(w: World, now: nat)
    requires w.device.rx.None? && ProperCalls(w.log.calls) && OneBand(w)
    requires w.fields.backoff == Widened(FAULT_BACKOFF, MAX_FAULT_BACKOFF, w.log.widened)
    ensures Invariant(AfterFault(w, now)) && AfterFault(w, now).fields.faulted
    ensures AfterFault(w, now).device == w.device
  {
  }

  lemma {:induction false} TransmittedKeeps(w: World, gain: nat, phase: Phase)
    requires Invariant(w)
    ensures var (after, ok) := Transmitted(w, gain, phase);
      && ProperCalls(after.log.calls) && OneBand(after) && after.device.rx.None?
      && after.fields.backoff == Widened(FAULT_BACKOFF, MAX_FAULT_BACKOFF, after.log.widened)
      && (ok ==> Invariant(after))
  {
  }

  lemma {:induction false} TunedKeeps(w: World, frequency: Option<nat>, enabled: bool, phase: Phase)
    requires Invariant(w)
    ensures var tuned := Tuned(w, frequency, enabled, phase);
      Invariant(tuned) && tuned.device.rx.None? && !tuned.fields.faulted
  {
  }

  lemma {:induction false} BroughtUpKeeps(w: World, luck: Luck)
    requires Invariant(w) && w.fields.rxEnabled && !w.fields.faulted && !w.fields.rxRunning
    ensures var (after, ok) := BroughtUp(w, luck);
      && (if ok then Invariant(after) && after.fields.rxRunning else after.device.rx.None?)
      && ProperCalls(after.log.calls) && OneBand(after)
      && after.fields.backoff == Widened(FAULT_BACKOFF, MAX_FAULT_BACKOFF, after.log.widened)
  {
  }

  lemma {:induction false} ReadOutKeeps(w: World, input: Input)
    requires Invariant(w) && w.fields.rxRunning
    ensures Invariant(ReadOut(w, input))
  {
    var (device, read) := DidRead(w.device, input.working.after);
    var done := w.Called(CallRead).(device := device);
    if read {
      DeliveredKeeps(Proven(done), input.bursts);
    } else {
      FaultKeeps(done, input.lateAt);
    }
  }

  lemma {:induction false} DeliveredKeeps(w: World, bursts: nat)
    requires Invariant(w) && w.fields.rxRunning
    ensures Invariant(Delivered(w, bursts))
  {
    var after := Delivered(w, bursts);
    forall k | 0 <= k < |after.log.frames| ensures PureFrame(after.log.frames[k]) {
      if k < |w.log.frames| {
        assert PureFrame(w.log.frames[k]);
      }
    }
  }

  lemma {:induction false} TransmitKeeps(w: World, gain: nat, input: Input)
    requires Invariant(w)
    ensures Invariant(Handled(w, Transmit(gain), input))
  {
    TransmittedKeeps(w, gain, input.handling);
    var (after, ok) := Transmitted(w, gain, input.handling);
    if !ok {
      FaultKeeps(after, input.faultedAt);
    }
  }

  lemma {:induction false} ConfigureKeeps(w: World, frequency: Option<nat>, enabled: bool, input: Input)
    requires Invariant(w)
    ensures Invariant(Handled(w, ConfigureRx(frequency, enabled), input))
  {
    TunedKeeps(w, frequency, enabled, input.handling);
    var tuned := Tuned(w, frequency, enabled, input.handling);
    if enabled {
      BroughtUpKeeps(tuned, input.handling.main);
      var (started, ok) := BroughtUp(tuned, input.handling.main);
      if !ok {
        FaultKeeps(started, input.faultedAt);
      }
    }
  }

  lemma {:induction false} HandledKeeps(w: World, command: Command, input: Input)
    requires Invariant(w)
    ensures Invariant(Handled(w, command, input))
  {
    match command {
      case Transmit(gain) => TransmitKeeps(w, gain, input);
      case ConfigureRx(frequency, enabled) => ConfigureKeeps(w, frequency, enabled, input);
      case DeviceArrived =>
      case Status =>
    }
  }

  lemma {:induction false} PumpedKeeps(w: World, input: Input)
    requires Invariant(w) && w.fields.rxEnabled && !w.fields.faulted
    ensures Invariant(Pumped(w, input))
  {
    if w.fields.rxRunning {
      ReadOutKeeps(w, input);
    } else {
      BroughtUpKeeps(w, input.working.main);
      var (started, ok) := BroughtUp(w, input.working.main);
      if ok {
        ReadOutKeeps(started.Published(), input);
      } else {
        FaultKeeps(started, input.lateAt);
      }
    }
  }

  lemma {:induction false} RetriedKeeps(w: World, input: Input)
    requires Invariant(w) && w.fields.faulted
    ensures Invariant(Retried(w, input))
  {
  }

  lemma {:induction false} StepKeeps(w: World, input: Input)
    requires Invariant(w)
    ensures Invariant(Step(w, input))
  {
    var handled := AfterCommand(w, input);
    if input.command.Some? {
      HandledKeeps(w, input.command.value, input);
    }
    if handled.fields.rxEnabled {
      if handled.fields.faulted {
        RetriedKeeps(handled, input);
      } else {
        PumpedKeeps(handled, input);
      }
    }
  }

  /**
   * In every state the arbiter and its device can reach, under any pattern of driver failures,
   * commands and clock readings: they agree on whether a receiver is running and where it is tuned,
   * no call reached the device in the wrong mode, no detector has mixed bands, a fault excludes a
   * running or proven receiver, and the backoff is what the failures since it last began make it.
   */
  lemma {:induction false} Reachable(rxEnabled: bool, rxFrequency: nat, now: nat, luck: Luck, inputs: seq<Input>)
    ensures Invariant(Run(Start(rxEnabled, rxFrequency, now, luck), inputs))
  {
    if inputs != [] {
      Reachable(rxEnabled, rxFrequency, now, luck, Front(inputs));
      StepKeeps(Run(Start(rxEnabled, rxFrequency, now, luck), Front(inputs)), Last(inputs));
    }
  }

  lemma {:induction false} DoubledGrows(w: World)
    requires w.fields.backoff <= MAX_FAULT_BACKOFF
    ensures Doubled(w.fields.backoff, MAX_FAULT_BACKOFF) >= w.fields.backoff
  {
  }

  lemma {:induction false} HandlingShrinks(w: World, command: Command, input: Input)
    requires Sober(w) && Handled(w, command, input).fields.backoff < w.fields.backoff
    ensures command == DeviceArrived && w.fields.faulted
  {
    DoubledGrows(w);
  }

  lemma {:induction false} WorkingShrinks(w: World, input: Input)
    requires Sober(w) && Worked(w, input).fields.backoff < w.fields.backoff
    ensures Worked(w, input).fields.receivingProven && input.working.after.works
  {
    DoubledGrows(w);
    if !w.fields.faulted && !w.fields.rxRunning {
      var (started, ok) := BroughtUp(w, input.working.main);
      assert started.Published().fields.backoff == w.fields.backoff;
    }
  }

  /** The backoff only shrinks on a transfer that arrives, or when a radio appears on the bus while faulted. */
  lemma {:induction false} BackoffShrinksOnlyOn(w: World, input: Input)
    requires Invariant(w)
    ensures Step(w, input).fields.backoff < w.fields.backoff ==>
              || (input.command == Some(DeviceArrived) && w.fields.faulted)
              || (input.working.after.works && Step(w, input).fields.receivingProven)
  {
    var handled := AfterCommand(w, input);
    if input.command.Some? {
      HandledKeeps(w, input.command.value, input);
    }
    if handled.fields.backoff < w.fields.backoff {
      HandlingShrinks(w, input.command.value, input);
    } else if Step(w, input).fields.backoff < handled.fields.backoff {
      WorkingShrinks(handled, input);
    }
  }

  lemma {:induction false} HandlingNeverProbes(w: World, input: Input)
    ensures AfterCommand(w, input).log.probes == w.log.probes
  {
    match input.command {
      case Some(Transmit(gain)) =>
        var (after, ok) := Transmitted(w, gain, input.handling);
        assert after.log.probes == w.log.probes;
      case Some(ConfigureRx(frequency, enabled)) =>
        var tuned := Tuned(w, frequency, enabled, input.handling);
        assert tuned.log.probes == w.log.probes;
      case _ =>
    }
  }

  lemma {:induction false} WorkingProbes(w: World, input: Input)
    ensures var due := w.fields.faulted && w.fields.rxEnabled && input.checkedAt >= w.fields.retryAt;
      Worked(w, input).log.probes == if due then w.log.probes + [input.checkedAt] else w.log.probes
  {
    if w.fields.faulted {
      var (probed, ok) := Probed(w, input);
      assert ok ==> probed.(fields := probed.fields.(faulted := false)).Published().log.probes == probed.log.probes;
    } else {
      var (started, ok) := BroughtUp(w, input.working.main);
      assert started.Published().log.probes == w.log.probes;
    }
  }

  /**
   * Whatever the command, the radio is probed in an iteration exactly when it is then faulted and
   * wanted and its time has come, which it has at once when a radio appears on the bus.
   */
  lemma {:induction false} ProbedWhenDue(w: World, input: Input)
    ensures var handled := AfterCommand(w, input);
      var due := handled.fields.faulted && handled.fields.rxEnabled && input.checkedAt >= handled.fields.retryAt;
      && Step(w, input).log.probes == (if due then w.log.probes + [input.checkedAt] else w.log.probes)
      && (input.command == Some(DeviceArrived) && w.fields.faulted && w.fields.rxEnabled && input.Ordered() ==> due)
  {
    HandlingNeverProbes(w, input);
    WorkingProbes(AfterCommand(w, input), input);
  }

  /** The backoff doubles before it is used: the first wait is twice the least backoff. */
  lemma {:induction false} FirstWaitIsDoubled(w: World, now: nat)
    requires Sober(w) && w.log.widened == 0
    ensures AfterFault(w, now).fields.retryAt == now + 4_000
  {
    var down := w.(fields := w.fields.(faulted := true, rxRunning := false, receivingProven := false),
                   log := w.log.(faults := w.log.faults + [now]));
    assert BackedOff(down, now).fields.retryAt == now + 4_000;
  }

  /** The reply to a configuration says what came of it: `Done` exactly when the radio is where it was asked to be. */
  lemma {:induction false} ConfigureReplyIsHonest(w: World, frequency: Option<nat>, enabled: bool, input: Input)
    requires Invariant(w)
    ensures var after := Handled(w, ConfigureRx(frequency, enabled), input);
      && |after.log.replies| == |w.log.replies| + 1
      && (Last(after.log.replies) == Done <==>
            if enabled then after.device.rx == Some(after.fields.rxFrequency) && after.fields.DeviceState() == Receiving
            else after.device.rx.None? && after.fields.DeviceState() == Idle)
      && after.fields.rxFrequency == (if frequency.Some? then frequency.value else w.fields.rxFrequency)
  {
  }

  /** A transmission is reported done exactly when it cost no fault; failure leaves the radio announced as faulted. */
  lemma {:induction false} TransmitReplyIsHonest(w: World, gain: nat, input: Input)
    ensures var after := Handled(w, Transmit(gain), input);
      && |after.log.replies| == |w.log.replies| + 1
      && (Last(after.log.replies) == Done <==> after.log.faults == w.log.faults)
      && (Last(after.log.replies) == Done ==>
            gain <= MAX_TX_GAIN && input.handling.main.works && input.handling.main.halts)
      && (Last(after.log.replies) == Failed ==> after.fields.faulted && after.fields.published == Some(Faulted))
  {
  }

  // ----- the transmitter is never left running -----

  predicate StopFollows(calls: seq<(Call, Handle)>) {
    forall i :: 0 <= i < |calls| && calls[i].0.CallTransmit? ==> StopsNext(calls, i)
  }

  predicate StopsNext(calls: seq<(Call, Handle)>, i: nat) {
    i + 1 < |calls| && calls[i + 1].0 == CallStop
  }

  lemma {:induction false} OtherCall(w: World, call: Call)
    requires StopFollows(w.log.calls) && !call.CallTransmit?
    ensures StopFollows(w.Called(call).log.calls)
  {
    var before, calls := w.log.calls, w.Called(call).log.calls;
    forall i | 0 <= i < |calls| && calls[i].0.CallTransmit? ensures StopsNext(calls, i) {
      assert calls[|before|].0 == call;
      assert calls[i] == before[i] && StopsNext(before, i);
    }
  }

  lemma {:induction false} TransmitCall(w: World, device: Handle)
    requires StopFollows(w.log.calls)
    ensures StopFollows(w.Called(CallTransmit).(device := device).Called(CallStop).log.calls)
  {
    var before, calls := w.log.calls, w.Called(CallTransmit).(device := device).Called(CallStop).log.calls;
    assert |calls| == |before| + 2 && calls[|before| + 1].0 == CallStop;
    forall i | 0 <= i < |calls| && calls[i].0.CallTransmit? ensures StopsNext(calls, i) {
      if i < |before| {
        assert calls[i] == before[i] && StopsNext(before, i);
      }
    }
  }

  lemma {:induction false} TransmittedStops(w: World, gain: nat, phase: Phase)
    requires StopFollows(w.log.calls)
    ensures StopFollows(Transmitted(w, gain, phase).0.log.calls)
  {
    OtherCall(w, CallStop);
    var stop := Stopped(w.device, phase.before);
    if !w.fields.rxRunning || stop.1 {
      var quiet := if w.fields.rxRunning
                   then w.Called(CallStop).(device := stop.0, fields := w.fields.(rxRunning := false)) else w;
      var busy := quiet.Announced(Transmitting);
      TransmitCall(busy, Sent(busy.device, gain, phase.main).0);
    }
  }

  lemma {:induction false} HandledStops(w: World, command: Command, input: Input)
    requires StopFollows(w.log.calls)
    ensures StopFollows(Handled(w, command, input).log.calls)
  {
    match command {
      case Transmit(gain) => TransmittedStops(w, gain, input.handling);
      case ConfigureRx(frequency, enabled) =>
        OtherCall(w, CallStop);
        var tuned := Tuned(w, frequency, enabled, input.handling);
        OtherCall(tuned, CallStartRx(tuned.fields.rxFrequency));
      case DeviceArrived =>
      case Status =>
    }
  }

  lemma {:induction false} WorkedStops(w: World, input: Input)
    requires StopFollows(w.log.calls)
    ensures StopFollows(Worked(w, input).log.calls)
  {
    if w.fields.faulted {
      OtherCall(w, CallStop);
      OtherCall(w.Called(CallStop).(device := Stopped(w.device, input.working.before).0), CallDescribe);
    } else if w.fields.rxRunning {
      OtherCall(w, CallRead);
    } else {
      OtherCall(w, CallStartRx(w.fields.rxFrequency));
      var (started, ok) := BroughtUp(w, input.working.main);
      OtherCall(started.Published(), CallRead);
    }
  }

  /** In every run, whatever a transmission comes to, the very next thing asked of the device is to stop. */
  lemma {:induction false} NeverLeftTransmitting(
    rxEnabled: bool, rxFrequency: nat, now: nat, luck: Luck, inputs: seq<Input>)
    ensures StopFollows(Run(Start(rxEnabled, rxFrequency, now, luck), inputs).log.calls)
  {
    if inputs != [] {
      var w, input := Run(Start(rxEnabled, rxFrequency, now, luck), Front(inputs)), Last(inputs);
      NeverLeftTransmitting(rxEnabled, rxFrequency, now, luck, Front(inputs));
      if input.command.Some? {
        HandledStops(w, input.command.value, input);
        WorkedStops(Handled(w, input.command.value, input), input);
      } else {
        WorkedStops(w, input);
      }
    }
  }
}
