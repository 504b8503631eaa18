/**
 * What a client following the announced device states sees.
 */
module EventLog {
  import opened Wrappers
  import opened Radio
  import opened Arbiter
  import opened ArbiterLaws
  import opened Sequences

  /** No state is announced twice in a row, except that transmissions may follow each other. */
  ghost predicate NoEcho(states: seq<DeviceState>) {
    forall i, j :: 0 <= i < j < |states| && j == i + 1 && states[i] == states[j] ==> states[i] == Transmitting
  }

  ghost predicate Tracked(w: World) {
    w.fields.published == if w.log.states == [] then None else Some(Last(w.log.states))
  }

  /**
   * Between iterations the last announcement is the state of the radio. There are two exceptions:
   * nothing has been announced of a radio that has been idle all along, and a transmission that
   * went out while the receiver was wanted but faulted is not followed by another announcement.
   */
  ghost predicate Current(w: World) {
    && Tracked(w) && NoEcho(w.log.states)
    && if w.log.states == [] then w.fields.DeviceState() == Idle
       else
         || Last(w.log.states) == w.fields.DeviceState()
         || (Last(w.log.states) == Transmitting && w.fields.faulted && w.fields.rxEnabled)
  }

  /** Between a command and the work that follows, a transmission may not have been followed up yet. */
  ghost predicate NearlyCurrent(w: World) {
    && Tracked(w) && NoEcho(w.log.states)
    && if w.log.states == [] then w.fields.DeviceState() == Idle
       else
         || Last(w.log.states) == w.fields.DeviceState()
         || (Last(w.log.states) == Transmitting && w.fields.rxEnabled && !w.fields.rxRunning)
  }

  lemma {:induction false} AnnouncedTracks(w: World, state: DeviceState)
    requires Tracked(w) && NoEcho(w.log.states)
    requires w.log.states != [] && Last(w.log.states) == state ==> state == Transmitting
    ensures Tracked(w.Announced(state)) && NoEcho(w.Announced(state).log.states)
  {
    var states := w.Announced(state).log.states;
    forall i, j | 0 <= i < j < |states| && j == i + 1 && states[i] == states[j] ensures states[i] == Transmitting {
      if j < |w.log.states| {
        assert w.log.states[i] == w.log.states[j];
      }
    }
  }

  lemma {:induction false} PublishedTracks(w: World)
    requires Tracked(w) && NoEcho(w.log.states)
    ensures var after := w.Published();
      && Tracked(after) && NoEcho(after.log.states)
      && after.log.states != [] && Last(after.log.states) == after.fields.DeviceState()
      && after.fields == w.fields.(published := after.fields.published) && after.device == w.device
  {
    if w.fields.published != Some(w.fields.DeviceState()) {
      AnnouncedTracks(w, w.fields.DeviceState());
    }
  }

  lemma {:induction false} FaultTracks(w: World, now: nat)
    requires Tracked(w) && NoEcho(w.log.states)
    ensures Current(AfterFault(w, now)) && NearlyCurrent(AfterFault(w, now))
    ensures AfterFault(w, now).fields.faulted
  {
    var down := w.(fields := w.fields.(faulted := true, rxRunning := false, receivingProven := false),
                   log := w.log.(faults := w.log.faults + [now]));
    PublishedTracks(BackedOff(down, now));
  }

  lemma {:induction false} TransmittedTracks(w: World, gain: nat, phase: Phase)
    requires Invariant(w) && Current(w)
    ensures var (after, ok) := Transmitted(w, gain, phase);
      Tracked(after) && NoEcho(after.log.states) && (ok ==> NearlyCurrent(after))
  {
    var stop := Stopped(w.device, phase.before);
    if !w.fields.rxRunning || stop.1 {
      var quiet := if w.fields.rxRunning
                   then w.Called(CallStop).(device := stop.0, fields := w.fields.(rxRunning := false)) else w;
      AnnouncedTracks(quiet, Transmitting);
      var (after, ok) := Transmitted(w, gain, phase);
      if ok && !w.fields.rxEnabled {
        var busy := quiet.Announced(Transmitting);
        var ended := busy.Called(CallTransmit).(device := Sent(busy.device, gain, phase.main).0);
        PublishedTracks(ended.Called(CallStop).(device := Stopped(ended.device, phase.after).0));
      }
    }
  }

  lemma {:induction false} ConfiguredTracks(w: World, frequency: Option<nat>, enabled: bool, input: Input)
    requires Current(w)
    ensures NearlyCurrent(Handled(w, ConfigureRx(frequency, enabled), input))
  {
    var tuned := Tuned(w, frequency, enabled, input.handling);
    if !enabled {
      PublishedTracks(tuned);
    } else {
      var (started, ok) := BroughtUp(tuned, input.handling.main);
      if ok {
        PublishedTracks(started);
      } else {
        FaultTracks(started, input.faultedAt);
        PublishedTracks(AfterFault(started, input.faultedAt));
      }
    }
  }

  lemma {:induction false} HandledTracks(w: World, command: Command, input: Input)
    requires Invariant(w) && Current(w)
    ensures NearlyCurrent(Handled(w, command, input))
  {
    match command {
      case Transmit(gain) =>
        TransmittedTracks(w, gain, input.handling);
        var (after, ok) := Transmitted(w, gain, input.handling);
        if !ok {
          FaultTracks(after, input.faultedAt);
        }
      case ConfigureRx(frequency, enabled) =>
        ConfiguredTracks(w, frequency, enabled, input);
      case DeviceArrived =>
      case Status =>
    }
  }

  lemma {:induction false} ReadOutTracks(w: World, input: Input)
    requires Tracked(w) && NoEcho(w.log.states) && w.fields.rxRunning && !w.fields.faulted
    requires w.log.states != [] && Last(w.log.states) == Receiving
    ensures Current(ReadOut(w, input))
  {
    var (device, read) := DidRead(w.device, input.working.after);
    if !read {
      FaultTracks(w.Called(CallRead).(device := device), input.lateAt);
    }
  }

  lemma {:induction false} PumpedTracks(w: World, input: Input)
    requires NearlyCurrent(w) && w.fields.rxEnabled && !w.fields.faulted
    ensures Current(Pumped(w, input))
  {
    if w.fields.rxRunning {
      ReadOutTracks(w, input);
    } else {
      var (started, ok) := BroughtUp(w, input.working.main);
      if ok {
        PublishedTracks(started);
        ReadOutTracks(started.Published(), input);
      } else {
        FaultTracks(started, input.lateAt);
      }
    }
  }

  lemma {:induction false} RetriedTracks(w: World, input: Input)
    requires NearlyCurrent(w) && w.fields.rxEnabled && w.fields.faulted
    ensures Current(Retried(w, input))
  {
    if input.checkedAt >= w.fields.retryAt {
      var (probed, ok) := Probed(w, input);
      if ok {
        PublishedTracks(probed.(fields := probed.fields.(faulted := false)));
      }
    }
  }

  lemma {:induction false} StepTracks(w: World, input: Input)
    requires Invariant(w) && Current(w)
    ensures Current(Step(w, input))
  {
    var handled := AfterCommand(w, input);
    if input.command.Some? {
      HandledKeeps(w, input.command.value, input);
      HandledTracks(w, input.command.value, input);
    }
    if handled.fields.rxEnabled {
      if handled.fields.faulted {
        RetriedTracks(handled, input);
      } else {
        PumpedTracks(handled, input);
      }
    }
  }

  /** A client that remembers the last announcement knows the radio, between any two iterations of any run. */
  lemma {:induction false} LastAnnouncementIsCurrent(
    rxEnabled: bool, rxFrequency: nat, now: nat, luck: Luck, inputs: seq<Input>)
    ensures Current(Run(Start(rxEnabled, rxFrequency, now, luck), inputs))
  {
    var start := Start(rxEnabled, rxFrequency, now, luck);
    if inputs != [] {
      LastAnnouncementIsCurrent(rxEnabled, rxFrequency, now, luck, Front(inputs));
      Reachable(rxEnabled, rxFrequency, now, luck, Front(inputs));
      StepTracks(Run(start, Front(inputs)), Last(inputs));
    }
  }

  // ----- when the last announcement is out of date -----

  /** The last thing announced is a transmission, which between iterations is never going on. */
  predicate Stale(w: World) {
    w.log.states != [] && Last(w.log.states) == Transmitting
  }

  /** A transmission went out during a fault, or one had and nothing has been announced since. */
  predicate StaysStale(w: World, input: Input) {
    match input.command
    case Some(Transmit(gain)) => Transmitted(w, gain, input.handling).1 && w.fields.faulted && w.fields.rxEnabled
    case Some(ConfigureRx(_, _)) => false
    case _ => Stale(w)
  }

  /** The radio is not brought back in this iteration. */
  predicate StaysDown(w: World, input: Input) {
    input.checkedAt < w.fields.retryAt || !Probed(w, input).1
  }

  lemma {:induction false} FaultIsNews(w: World, now: nat)
    requires Tracked(w) && NoEcho(w.log.states)
    ensures !Stale(AfterFault(w, now))
  {
    var down := w.(fields := w.fields.(faulted := true, rxRunning := false, receivingProven := false),
                   log := w.log.(faults := w.log.faults + [now]));
    PublishedTracks(BackedOff(down, now));
  }

  lemma {:induction false} TransmitGoesStale(w: World, gain: nat, input: Input)
    requires Invariant(w) && Current(w) && input.command == Some(Transmit(gain))
    ensures var handled := Handled(w, Transmit(gain), input);
      && (handled.fields.faulted && handled.fields.rxEnabled ==> (Stale(handled) <==> StaysStale(w, input)))
      && (StaysStale(w, input) ==> handled.fields.faulted && handled.fields.rxEnabled && Stale(handled))
      && (Stale(handled) ==> handled.fields.rxEnabled)
  {
    var (after, ok) := Transmitted(w, gain, input.handling);
    TransmittedTracks(w, gain, input.handling);
    if !ok {
      FaultIsNews(after, input.faultedAt);
    }
  }

  lemma {:induction false} ConfigureIsNews(w: World, frequency: Option<nat>, enabled: bool, input: Input)
    requires Current(w)
    ensures var handled := Handled(w, ConfigureRx(frequency, enabled), input);
      handled.fields.faulted || !handled.fields.rxEnabled ==> !Stale(handled)
  {
    var tuned := Tuned(w, frequency, enabled, input.handling);
    if !enabled {
      PublishedTracks(tuned);
    } else {
      var (started, ok) := BroughtUp(tuned, input.handling.main);
      if !ok {
        FaultTracks(started, input.faultedAt);
        PublishedTracks(AfterFault(started, input.faultedAt));
      }
    }
  }

  lemma {:induction false} HandledStale(w: World, input: Input)
    requires Invariant(w) && Current(w)
    ensures var handled := AfterCommand(w, input);
      && (handled.fields.faulted && handled.fields.rxEnabled ==> (Stale(handled) <==> StaysStale(w, input)))
      && (StaysStale(w, input) ==> handled.fields.faulted && handled.fields.rxEnabled)
      && (Stale(handled) ==> handled.fields.rxEnabled)
  {
    match input.command {
      case Some(Transmit(gain)) => TransmitGoesStale(w, gain, input);
      case Some(ConfigureRx(frequency, enabled)) => ConfigureIsNews(w, frequency, enabled, input);
      case _ =>
    }
  }

  lemma {:induction false} PumpingIsNews(w: World, input: Input)
    requires NearlyCurrent(w) && w.fields.rxEnabled && !w.fields.faulted
    ensures !Stale(Pumped(w, input))
  {
    PumpedTracks(w, input);
    var after := Pumped(w, input);
    if after.fields.faulted {
      PumpingFaults(w, input);
    }
  }

  lemma {:induction false} PumpingFaults(w: World, input: Input)
    requires NearlyCurrent(w) && w.fields.rxEnabled && !w.fields.faulted && Pumped(w, input).fields.faulted
    ensures !Stale(Pumped(w, input))
  {
    var (started, ok) := BroughtUp(w, input.working.main);
    if !w.fields.rxRunning && !ok {
      FaultIsNews(started, input.lateAt);
    } else {
      var running := if w.fields.rxRunning then w else started.Published();
      PublishedTracks(started);
      FaultIsNews(running.Called(CallRead).(device := DidRead(running.device, input.working.after).0), input.lateAt);
    }
  }

  lemma {:induction false} RetryStale(w: World, input: Input)
    requires Tracked(w) && NoEcho(w.log.states) && w.fields.faulted && w.fields.rxEnabled
    ensures Stale(Retried(w, input)) <==> Stale(w) && StaysDown(w, input)
  {
    if input.checkedAt >= w.fields.retryAt {
      var (probed, ok) := Probed(w, input);
      if ok {
        PublishedTracks(probed.(fields := probed.fields.(faulted := false)));
      }
    }
  }

  /**
   * Exactly when the last announcement is out of date after an iteration: a transmission has just
   * succeeded while the receiver was wanted but faulted, or one had before and the command, if any,
   * announced nothing; and the radio was not brought back in the same iteration.
   */
  lemma {:induction false} StaleExactly(w: World, input: Input)
    requires Invariant(w) && Current(w)
    ensures Stale(Step(w, input)) <==> StaysStale(w, input) && StaysDown(AfterCommand(w, input), input)
  {
    var handled := AfterCommand(w, input);
    HandledStale(w, input);
    if input.command.Some? {
      HandledTracks(w, input.command.value, input);
    }
    if handled.fields.rxEnabled {
      if handled.fields.faulted {
        RetryStale(handled, input);
      } else {
        PumpingIsNews(handled, input);
      }
    }
  }

  const FINE: Luck := Luck(true, true, true)
  const SMOOTH: Phase := Phase(FINE, FINE, FINE)

  /** A first read that fails, and then a transmission that works. */
  function FaultThenTransmit(now: nat): seq<Input> {
    [Input(None, SMOOTH, SMOOTH.(after := FINE.(works := false)), 0, now, now, now, now),
     Input(Some(Transmit(0)), SMOOTH, SMOOTH, 0, now, now, now, now)]
  }

  /** It does happen: "transmitting" is the last word on a radio that is faulted. */
  lemma {:induction false} StaleRun(rxFrequency: nat, now: nat)
    ensures var w := Run(Start(true, rxFrequency, now, FINE), FaultThenTransmit(now));
      Stale(w) && w.fields.DeviceState() == Faulted
  {
    var start, inputs := Start(true, rxFrequency, now, FINE), FaultThenTransmit(now);
    var first := Front(inputs);
    assert first == [inputs[0]] && Last(first) == inputs[0] && Front(first) == [];
    var w := Run(start, first);
    assert Run(start, Front(first)) == start;
    assert w == Step(start, inputs[0]);
    assert w.fields.faulted && w.fields.rxEnabled && w.fields.retryAt == now + 4_000;
    assert Transmitted(w, 0, SMOOTH).1;
    Reachable(true, rxFrequency, now, FINE, first);
    LastAnnouncementIsCurrent(true, rxFrequency, now, FINE, first);
    StaleExactly(w, inputs[1]);
    assert AfterCommand(w, inputs[1]).fields.retryAt == now + 4_000;
    LastAnnouncementIsCurrent(true, rxFrequency, now, FINE, inputs);
  }

  // ----- while nothing fails -----

  ghost predicate AllGood(phase: Phase) {
    && phase.before.opens && phase.before.works && phase.before.halts
    && phase.main.opens && phase.main.works && phase.main.halts
    && phase.after.opens && phase.after.works && phase.after.halts
  }

  /** Every driver call succeeds and no client turns the receiver off. */
  ghost predicate Smooth(input: Input) {
    && AllGood(input.handling) && AllGood(input.working)
    && match input.command
       case None => true
       case Some(Transmit(gain)) => gain <= MAX_TX_GAIN
       case Some(ConfigureRx(_, enabled)) => enabled
       case Some(DeviceArrived) => true
       case Some(Status) => true
  }

  /** Transmitting and receiving take strict turns; no other state ever shows. */
  ghost predicate TakesTurns(states: seq<DeviceState>) {
    && (forall k :: 0 <= k < |states| ==> states[k] == Transmitting || states[k] == Receiving)
    && (forall i, j :: 0 <= i < j < |states| && j == i + 1 ==> states[i] != states[j])
  }

  /** Nothing is wrong, and the receiver is back. */
  ghost predicate Undisturbed(w: World) {
    && Invariant(w) && Tracked(w) && w.fields.rxEnabled && !w.fields.faulted
    && TakesTurns(w.log.states)
    && (w.log.states != [] ==> Last(w.log.states) == Receiving && w.fields.rxRunning)
    && (w.log.states == [] ==> !w.fields.rxRunning)
  }

  lemma {:induction false} TurnTaken(states: seq<DeviceState>, state: DeviceState)
    requires TakesTurns(states) && (state == Transmitting || state == Receiving)
    requires states != [] ==> Last(states) != state
    ensures TakesTurns(states + [state])
  {
    var longer := states + [state];
    forall i, j | 0 <= i < j < |longer| && j == i + 1 ensures longer[i] != longer[j] {
      if j < |states| {
        assert states[i] != states[j];
      }
    }
  }

  /** After a command: as before, or a transmission has been announced and the receiver waits to come back. */
  ghost predicate NearlyUndisturbed(w: World) {
    && Invariant(w) && Tracked(w) && w.fields.rxEnabled && !w.fields.faulted
    && TakesTurns(w.log.states)
    && (if w.fields.rxRunning then w.log.states != [] && Last(w.log.states) == Receiving
        else w.log.states == [] || Last(w.log.states) == Transmitting)
  }

  lemma {:induction false} SmoothTransmit(w: World, gain: nat, phase: Phase)
    requires Undisturbed(w) && AllGood(phase) && gain <= MAX_TX_GAIN
    ensures var (after, ok) := Transmitted(w, gain, phase); ok && NearlyUndisturbed(after)
  {
    TransmittedKeeps(w, gain, phase);
    TurnTaken(w.log.states, Transmitting);
  }

  lemma {:induction false} SmoothConfigure(w: World, frequency: Option<nat>, input: Input)
    requires Undisturbed(w) && AllGood(input.handling)
    ensures NearlyUndisturbed(Handled(w, ConfigureRx(frequency, true), input))
  {
    HandledKeeps(w, ConfigureRx(frequency, true), input);
    if w.log.states == [] {
      TurnTaken(w.log.states, Receiving);
    }
  }

  lemma {:induction false} SmoothHandled(w: World, input: Input)
    requires Undisturbed(w) && Smooth(input) && input.command.Some?
    ensures NearlyUndisturbed(Handled(w, input.command.value, input))
  {
    match input.command.value {
      case Transmit(gain) =>
        SmoothTransmit(w, gain, input.handling);
      case ConfigureRx(frequency, enabled) =>
        SmoothConfigure(w, frequency, input);
      case DeviceArrived =>
      case Status =>
    }
  }

  lemma {:induction false} SmoothReadOut(w: World, input: Input)
    requires NearlyUndisturbed(w) && w.fields.rxRunning && AllGood(input.working)
    ensures Undisturbed(ReadOut(w, input))
  {
    ReadOutKeeps(w, input);
  }

  lemma {:induction false} SmoothPumped(w: World, input: Input)
    requires NearlyUndisturbed(w) && Smooth(input)
    ensures Undisturbed(Pumped(w, input))
  {
    if w.fields.rxRunning {
      SmoothReadOut(w, input);
    } else {
      BroughtUpKeeps(w, input.working.main);
      TurnTaken(w.log.states, Receiving);
      var (started, ok) := BroughtUp(w, input.working.main);
      SmoothReadOut(started.Published(), input);
    }
  }

  /**
   * As long as nothing fails and the receiver stays wanted, transmissions never make availability
   * flap: the announcements are transmitting and receiving in strict turns, and never idle.
   */
  lemma {:induction false} SmoothRunsTakeTurns(rxFrequency: nat, now: nat, luck: Luck, inputs: seq<Input>)
    requires forall k :: 0 <= k < |inputs| ==> Smooth(inputs[k])
    ensures Undisturbed(Run(Start(true, rxFrequency, now, luck), inputs))
  {
    var start := Start(true, rxFrequency, now, luck);
    Reachable(true, rxFrequency, now, luck, []);
    if inputs != [] {
      SmoothRunsTakeTurns(rxFrequency, now, luck, Front(inputs));
      var w, input := Run(start, Front(inputs)), Last(inputs);
      if input.command.Some? {
        SmoothHandled(w, input);
        SmoothPumped(Handled(w, input.command.value, input), input);
      } else {
        SmoothPumped(w, input);
      }
    }
  }
}
