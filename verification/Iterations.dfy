/**
 * What one iteration of the arbiter comes to, command by command and in terms of
 * what the driver does; and what that adds up to over a run.
 */
module Iterations {
  import opened Wrappers
  import opened Radio
  import opened Arbiter
  import opened ArbiterLaws
  import opened Sequences

  // ----- what is asked of the radio, and what becomes of it -----

  function Names(calls: seq<(Call, Handle)>): (names: seq<Call>)
    ensures |names| == |calls|
  {
    seq(|calls|, k requires 0 <= k < |calls| => calls[k].0)
  }

  /** These calls were made on top of those already made. */
  predicate Asked(w: World, after: World, calls: seq<Call>) {
    Names(after.log.calls) == Names(w.log.calls) + calls
  }

  /** A stop, if the receiver has to make way. */
  function MakingWay(w: World): seq<Call> {
    if w.fields.rxRunning then [CallStop] else []
  }

  /** The radio was opened, if it had to be, and did what it was asked. */
  predicate Obliges(open: bool, luck: Luck) {
    (open || luck.opens) && luck.works
  }

  /** Down since `now`, to be looked at again after twice the last wait, at most a minute. */
  predicate FailedAt(w: World, after: World, now: nat) {
    var wait := if 2 * w.fields.backoff <= 60_000 then 2 * w.fields.backoff else 60_000;
    && after.fields.faulted && !after.fields.rxRunning && !after.fields.receivingProven
    && after.fields.backoff == wait && after.fields.retryAt == now + wait
    && after.log.faults == w.log.faults + [now]
  }

  /** No fault, and the schedule of retries untouched. */
  predicate FaultsNothing(w: World, after: World) {
    && after.fields.receivingProven == w.fields.receivingProven && after.log.faults == w.log.faults
    && after.fields.retryAt == w.fields.retryAt && after.fields.backoff == w.fields.backoff
  }

  /** What clients have been told of the band, and what its receiver has heard. */
  predicate SameReception(w: World, after: World) {
    after.log.frames == w.log.frames && after.log.heard == w.log.heard
  }

  predicate SameSettings(w: World, after: World) {
    after.fields.rxEnabled == w.fields.rxEnabled && after.fields.rxFrequency == w.fields.rxFrequency
  }

  /** Nothing was asked of the radio nor answered, and what it is set to is what it was. */
  predicate Untouched(w: World, after: World) {
    && after.log.calls == w.log.calls && after.log.replies == w.log.replies && after.log.probes == w.log.probes
    && after.device == w.device && SameSettings(w, after) && SameReception(w, after)
  }

  lemma {:induction false} FaultExactly(w: World, now: nat)
    ensures FailedAt(w, AfterFault(w, now), now) && Untouched(w, AfterFault(w, now))
    ensures AfterFault(w, now).log.states ==
            w.log.states + if w.fields.published == Some(Faulted) then [] else [Faulted]
  {
  }

  // ----- a transmission -----

  /** The receiver makes way. */
  predicate Yields(w: World, phase: Phase) {
    w.fields.rxRunning ==> phase.before.halts
  }

  predicate IsSent(w: World, gain: nat, phase: Phase) {
    Yields(w, phase) && gain <= 47 && Obliges(w.device.open, phase.main) && phase.main.halts
  }

  lemma {:induction false} TransmittedAsks(w: World, gain: nat, phase: Phase)
    requires Invariant(w)
    ensures var (after, ok) := Transmitted(w, gain, phase);
      && ok == IsSent(w, gain, phase)
      && Asked(w, after, MakingWay(w) + if Yields(w, phase) then [CallTransmit, CallStop] else [])
  {
  }

  lemma {:induction false} TransmittedLeaves(w: World, gain: nat, phase: Phase)
    requires Invariant(w)
    ensures var (after, ok) := Transmitted(w, gain, phase);
      && after.log.replies == w.log.replies && SameSettings(w, after) && SameReception(w, after)
      && FaultsNothing(w, after) && after.fields.faulted == w.fields.faulted && after.device.rx.None?
      && (ok ==> !after.fields.rxRunning && after.device.open == phase.after.halts)
  {
  }

  /**
   * A transmission: the receiver is stopped if it runs, and if it stops, the radio is told to transmit
   * and then to stop. It is done exactly when the gain is one the radio has and nothing failed, and
   * anything else is a fault.
   */
  lemma {:induction false} TransmitExactly(w: World, gain: nat, input: Input)
    requires Invariant(w)
    ensures var after, phase := Handled(w, Transmit(gain), input), input.handling;
      && Asked(w, after, MakingWay(w) + if Yields(w, phase) then [CallTransmit, CallStop] else [])
      && after.log.replies == w.log.replies + [if IsSent(w, gain, phase) then Done else Failed]
      && SameSettings(w, after) && SameReception(w, after)
      && !after.fields.rxRunning && after.device.rx.None?
      && (if IsSent(w, gain, phase)
          then FaultsNothing(w, after) && after.fields.faulted == w.fields.faulted
               && after.device.open == phase.after.halts
          else FailedAt(w, after, input.faultedAt))
  {
    var (over, ok) := Transmitted(w, gain, input.handling);
    TransmittedAsks(w, gain, input.handling);
    TransmittedLeaves(w, gain, input.handling);
    if !ok {
      FaultExactly(over, input.faultedAt);
    }
  }

  /** While it is on the air it is announced; then a fault is, or, with no receiver to bring back, what is left. */
  lemma {:induction false} TransmitAnnounces(w: World, gain: nat, input: Input)
    requires Invariant(w)
    ensures var after, phase := Handled(w, Transmit(gain), input), input.handling;
      after.log.states == w.log.states +
      if !Yields(w, phase) then (if w.fields.published == Some(Faulted) then [] else [Faulted])
      else if !IsSent(w, gain, phase) then [Transmitting, Faulted]
      else if w.fields.rxEnabled then [Transmitting]
      else [Transmitting, if w.fields.faulted then Faulted else Idle]
  {
  }

  // ----- a configuration -----

  /** The handle outlives a stop that works. */
  predicate StaysOpen(w: World, phase: Phase) {
    w.device.open && Yields(w, phase)
  }

  lemma {:induction false} TunedExactly(w: World, frequency: Option<nat>, enabled: bool, phase: Phase)
    requires Invariant(w)
    ensures var after := Tuned(w, frequency, enabled, phase);
      && Asked(w, after, MakingWay(w)) && after.log.replies == w.log.replies
      && after.fields.rxEnabled == enabled && !after.fields.rxRunning && !after.fields.faulted
      && after.fields.rxFrequency == (if frequency.Some? then frequency.value else w.fields.rxFrequency)
      && after.log.frames == w.log.frames && after.log.heard == [] && FaultsNothing(w, after)
      && after.device == Handle(StaysOpen(w, phase), None)
  {
  }

  lemma {:induction false} BroughtUpExactly(w: World, luck: Luck)
    requires w.device.rx.None?
    ensures var (after, ok) := BroughtUp(w, luck);
      && ok == Obliges(w.device.open, luck)
      && Asked(w, after, [CallStartRx(w.fields.rxFrequency)]) && after.log.replies == w.log.replies
      && after.device == (if ok then Handle(true, Some(w.fields.rxFrequency)) else CLOSED)
      && after.fields == w.fields.(rxRunning := ok || w.fields.rxRunning)
      && SameReception(w, after) && after.log.faults == w.log.faults && after.log.probes == w.log.probes
  {
  }

  /**
   * A configuration: the receiver is stopped if it runs, the detector starts afresh and the settings
   * are those asked for; the receiver is then started if it is wanted. Any earlier fault is over, and
   * there is a new one exactly if it would not start.
   */
  lemma {:induction false} ConfigureExactly(w: World, frequency: Option<nat>, enabled: bool, input: Input)
    requires Invariant(w)
    ensures var after := Handled(w, ConfigureRx(frequency, enabled), input);
      var tuned := if frequency.Some? then frequency.value else w.fields.rxFrequency;
      var up := enabled && Obliges(StaysOpen(w, input.handling), input.handling.main);
      && Asked(w, after, MakingWay(w) + if enabled then [CallStartRx(tuned)] else [])
      && after.log.replies == w.log.replies + [if enabled && !up then Failed else Done]
      && after.fields.rxEnabled == enabled && after.fields.rxFrequency == tuned && after.fields.rxRunning == up
      && after.log.frames == w.log.frames && after.log.heard == []
      && after.device == Handle(up || (!enabled && StaysOpen(w, input.handling)), if up then Some(tuned) else None)
      && (if enabled && !up then FailedAt(w, after, input.faultedAt)
          else FaultsNothing(w, after) && !after.fields.faulted)
  {
    var tuned := Tuned(w, frequency, enabled, input.handling);
    TunedExactly(w, frequency, enabled, input.handling);
    if enabled {
      var (started, ok) := BroughtUp(tuned, input.handling.main);
      BroughtUpExactly(tuned, input.handling.main);
      if !ok {
        FaultExactly(started, input.faultedAt);
      }
    }
  }

  /** What has become of the radio is announced, if it is news. */
  lemma {:induction false} ConfigureAnnounces(w: World, frequency: Option<nat>, enabled: bool, input: Input)
    requires Invariant(w)
    ensures var after := Handled(w, ConfigureRx(frequency, enabled), input);
      var up := enabled && Obliges(StaysOpen(w, input.handling), input.handling.main);
      var now := if up then Receiving else if enabled then Faulted else Idle;
      after.log.states == w.log.states + if w.fields.published == Some(now) then [] else [now]
  {
  }

  // ----- the other commands -----

  /** A question is answered with the state the radio is in, and changes nothing. */
  lemma {:induction false} StatusExactly(w: World, input: Input)
    ensures var after := Handled(w, Status, input);
      var state := if w.fields.faulted then Faulted else if w.fields.rxRunning then Receiving else Idle;
      && after.log.replies == w.log.replies + [StatusIs(state)]
      && after == w.(log := w.log.(replies := after.log.replies))
  {
  }

  /** A radio that appears concerns a faulted arbiter only, which is due at once and begins with the least wait. */
  lemma {:induction false} ArrivalExactly(w: World, input: Input)
    ensures var after := Handled(w, DeviceArrived, input);
      && after.log == w.log.(widened := after.log.widened) && after.device == w.device
      && after.fields == if !w.fields.faulted then w.fields
                         else w.fields.(retryAt := input.handledAt, backoff := 2_000)
  {
  }

  // ----- the work between commands -----

  /** Nothing is done while the receiver is not wanted, or a retry is not due. */
  lemma {:induction false} RestExactly(w: World, input: Input)
    requires w.fields.rxEnabled ==> w.fields.faulted && input.checkedAt < w.fields.retryAt
    ensures Worked(w, input) == w
  {
  }

  /**
   * A retry that is due: the radio is stopped and asked to identify itself, and the fault is over
   * exactly if it does. If it does not, the wait widens.
   */
  lemma {:induction false} RetryExactly(w: World, input: Input)
    requires Invariant(w) && w.fields.rxEnabled && w.fields.faulted && input.checkedAt >= w.fields.retryAt
    ensures var after, phase := Worked(w, input), input.working;
      var up := Obliges(w.device.open && phase.before.halts, phase.main);
      && Asked(w, after, [CallStop, CallDescribe]) && after.log.probes == w.log.probes + [input.checkedAt]
      && after.device == Handle(up, None) && !after.fields.rxRunning
      && SameSettings(w, after) && SameReception(w, after)
      && after.log.replies == w.log.replies && after.log.faults == w.log.faults
      && (if up then FaultsNothing(w, after) && !after.fields.faulted
          else FailedAt(w, after.(log := after.log.(faults := w.log.faults + [input.lateAt])), input.lateAt))
      && after.log.states == w.log.states + (if up && w.fields.published != Some(Idle) then [Idle] else [])
  {
  }

  /** The receiver runs, or starts when asked. */
  predicate ComesUp(w: World, luck: Luck) {
    w.fields.rxRunning || Obliges(w.device.open, luck)
  }

  /** A transfer has been read at the present frequency, and has reached the detector and the clients. */
  predicate Arrived(w: World, after: World, bursts: nat) {
    var frequency := w.fields.rxFrequency;
    && after.fields.rxRunning && !after.fields.faulted && after.device == Handle(true, Some(frequency))
    && after.fields.receivingProven && after.fields.backoff == 2_000 && after.log.faults == w.log.faults
    && after.log.heard == w.log.heard + [frequency]
    && |after.log.frames| == |w.log.frames| + bursts && after.log.frames[..|w.log.frames|] == w.log.frames
    && forall k :: |w.log.frames| <= k < |after.log.frames| ==>
                     after.log.frames[k] == Frame(frequency, after.log.heard)
  }

  lemma {:induction false} ReadOutExactly(w: World, input: Input)
    requires Coupled(w) && w.fields.rxRunning && !w.fields.faulted
    requires w.fields.receivingProven ==> w.fields.backoff == FAULT_BACKOFF
    ensures var after := ReadOut(w, input);
      && Asked(w, after, [CallRead]) && SameSettings(w, after)
      && after.log.replies == w.log.replies && after.log.probes == w.log.probes
      && (if input.working.after.works
          then Arrived(w, after, input.bursts)
          else SameReception(w, after) && FailedAt(w, after, input.lateAt) && after.device == CLOSED)
  {
    var (device, read) := DidRead(w.device, input.working.after);
    if !read {
      FaultExactly(w.Called(CallRead).(device := device), input.lateAt);
    }
  }

  /**
   * A healthy receiver that is wanted: it is started if it does not run, and then one transfer is
   * read. If that arrives, every burst it completes is announced as heard on the present frequency,
   * and the radio has proved itself; anything else is a fault.
   */
  lemma {:induction false} PumpExactly(w: World, input: Input)
    requires Invariant(w) && w.fields.rxEnabled && !w.fields.faulted
    ensures var after, phase := Worked(w, input), input.working;
      var up := ComesUp(w, phase.main);
      var starting := if w.fields.rxRunning then [] else [CallStartRx(w.fields.rxFrequency)];
      && Asked(w, after, starting + if up then [CallRead] else [])
      && SameSettings(w, after) && after.log.replies == w.log.replies && after.log.probes == w.log.probes
      && (if up && phase.after.works
          then Arrived(w, after, input.bursts)
          else SameReception(w, after) && FailedAt(w, after, input.lateAt) && after.device == CLOSED)
  {
    if w.fields.rxRunning {
      ReadOutExactly(w, input);
    } else {
      var (started, ok) := BroughtUp(w, input.working.main);
      BroughtUpExactly(w, input.working.main);
      if ok {
        ReadOutExactly(started.Published(), input);
      } else {
        FaultExactly(started, input.lateAt);
      }
    }
  }

  /** A receiver that starts is announced, if that is news, and so is a fault. */
  lemma {:induction false} PumpAnnounces(w: World, input: Input)
    requires Invariant(w) && w.fields.rxEnabled && !w.fields.faulted
    ensures var after, phase := Worked(w, input), input.working;
      var up := ComesUp(w, phase.main);
      var begun := up && !w.fields.rxRunning && w.fields.published != Some(Receiving);
      var told := if begun then Some(Receiving) else w.fields.published;
      after.log.states ==
      w.log.states + (if begun then [Receiving] else [])
      + (if (up && phase.after.works) || told == Some(Faulted) then [] else [Faulted])
  {
    if w.fields.rxRunning {
      ReadOutAnnounces(w, input);
    } else {
      var (started, ok) := BroughtUp(w, input.working.main);
      BroughtUpExactly(w, input.working.main);
      if ok {
        ReadOutAnnounces(started.Published(), input);
      } else {
        FaultExactly(started, input.lateAt);
      }
    }
  }

  lemma {:induction false} ReadOutAnnounces(w: World, input: Input)
    requires w.device.rx.Some?
    ensures ReadOut(w, input).log.states ==
            w.log.states
            + if input.working.after.works || w.fields.published == Some(Faulted) then [] else [Faulted]
  {
    var (device, read) := DidRead(w.device, input.working.after);
    if !read {
      FaultExactly(w.Called(CallRead).(device := device), input.lateAt);
    }
  }

  // ----- over a whole run -----

  /** A transfer arrived in this iteration: the last call is a read, found a live stream, and worked. */
  predicate TransferArrives(w: World, input: Input) {
    var calls := Step(w, input).log.calls;
    && |calls| > |w.log.calls| && Last(calls).0 == CallRead && Last(calls).1.rx.Some?
    && input.working.after.works
  }

  lemma {:induction false} HandledAsks(w: World, input: Input)
    requires Invariant(w)
    ensures var handled := AfterCommand(w, input);
      && Invariant(handled) && handled.log.frames == w.log.frames && |handled.log.calls| >= |w.log.calls|
      && (|handled.log.calls| > |w.log.calls| ==> Last(handled.log.calls).0 != CallRead)
      && handled.log.heard == if input.command.Some? && input.command.value.ConfigureRx? then [] else w.log.heard
  {
    if input.command.Some? {
      HandledKeeps(w, input.command.value, input);
      match input.command.value {
        case Transmit(gain) =>
          TransmitExactly(w, gain, input);
          LastAsked(w, Handled(w, Transmit(gain), input),
                    MakingWay(w) + if Yields(w, input.handling) then [CallTransmit, CallStop] else []);
        case ConfigureRx(frequency, enabled) =>
          ConfigureExactly(w, frequency, enabled, input);
          var after := Handled(w, ConfigureRx(frequency, enabled), input);
          LastAsked(w, after, MakingWay(w) + if enabled then [CallStartRx(after.fields.rxFrequency)] else []);
        case _ =>
      }
    }
  }

  lemma {:induction false} LastAsked(w: World, after: World, calls: seq<Call>)
    requires Asked(w, after, calls)
    ensures |after.log.calls| == |w.log.calls| + |calls|
    ensures calls != [] ==> Last(after.log.calls).0 == Last(calls)
  {
    var names := Names(after.log.calls);
    assert names == Names(w.log.calls) + calls;
    assert calls != [] ==> Last(names) == Last(calls);
  }

  /** The work of an iteration reads a transfer exactly when a healthy receiver is wanted and comes up. */
  lemma {:induction false} WorkedAsks(w: World, input: Input)
    requires Invariant(w)
    ensures var after := Worked(w, input);
      var reading := w.fields.rxEnabled && !w.fields.faulted && ComesUp(w, input.working.main);
      && |after.log.calls| >= |w.log.calls|
      && (|after.log.calls| > |w.log.calls| ==> (Last(after.log.calls).0 == CallRead <==> reading))
      && (reading ==> |after.log.calls| > |w.log.calls| && Last(after.log.calls).1.rx.Some?)
      && (if reading && input.working.after.works then Arrived(w, after, input.bursts) else SameReception(w, after))
  {
    var after := Worked(w, input);
    if w.fields.rxEnabled && !w.fields.faulted {
      PumpExactly(w, input);
      var starting := if w.fields.rxRunning then [] else [CallStartRx(w.fields.rxFrequency)];
      LastAsked(w, after, starting + if ComesUp(w, input.working.main) then [CallRead] else []);
      PumpedKeeps(w, input);
      assert ProperCalls(after.log.calls);
      assert after.log.calls != [] ==> ProperCall(Last(after.log.calls).0, Last(after.log.calls).1);
    } else if w.fields.rxEnabled && input.checkedAt >= w.fields.retryAt {
      RetryExactly(w, input);
      LastAsked(w, after, [CallStop, CallDescribe]);
    } else {
      RestExactly(w, input);
    }
  }

  /** The frames announced in an iteration, and what the detector has been given. */
  predicate Delivers(w: World, input: Input, after: World) {
    var n, arrives := |w.log.frames|, TransferArrives(w, input);
    var afresh := input.command.Some? && input.command.value.ConfigureRx?;
    && after.log.heard == (if afresh then [] else w.log.heard) + (if arrives then [after.fields.rxFrequency] else [])
    && |after.log.frames| == n + (if arrives then input.bursts else 0) && after.log.frames[..n] == w.log.frames
    && forall k :: n <= k < |after.log.frames| ==>
                     after.log.frames[k] == Frame(after.fields.rxFrequency, after.log.heard)
  }

  /**
   * Frames are announced exactly when a transfer arrives, as many as it completed, each as heard on
   * the present frequency; and the detector is given every transfer since the last configuration.
   */
  lemma {:induction false} FramesExactly(w: World, input: Input)
    requires Invariant(w)
    ensures Delivers(w, input, Step(w, input))
  {
    var handled := AfterCommand(w, input);
    HandledAsks(w, input);
    WorkedAsks(handled, input);
    SettingsStay(handled, input);
  }

  lemma {:induction false} SettingsStay(w: World, input: Input)
    requires Invariant(w)
    ensures SameSettings(w, Worked(w, input))
  {
    if w.fields.rxEnabled && !w.fields.faulted {
      PumpExactly(w, input);
    } else if w.fields.rxEnabled && input.checkedAt >= w.fields.retryAt {
      RetryExactly(w, input);
    } else {
      RestExactly(w, input);
    }
  }

  /** How often the radio has been asked to read. */
  function Reads(w: World): nat {
    multiset(Names(w.log.calls))[CallRead]
  }

  lemma {:induction false} ReadsAsked(w: World, after: World, calls: seq<Call>)
    requires Asked(w, after, calls)
    ensures Reads(after) == Reads(w) + multiset(calls)[CallRead]
  {
    assert Names(after.log.calls) == Names(w.log.calls) + calls;
  }

  lemma {:induction false} TransmittingNeverReads(w: World, gain: nat, input: Input)
    requires Invariant(w)
    ensures Reads(Handled(w, Transmit(gain), input)) == Reads(w)
  {
    TransmitExactly(w, gain, input);
    ReadsAsked(w, Handled(w, Transmit(gain), input),
               MakingWay(w) + if Yields(w, input.handling) then [CallTransmit, CallStop] else []);
  }

  lemma {:induction false} ConfiguringNeverReads(w: World, frequency: Option<nat>, enabled: bool, input: Input)
    requires Invariant(w)
    ensures Reads(Handled(w, ConfigureRx(frequency, enabled), input)) == Reads(w)
  {
    ConfigureExactly(w, frequency, enabled, input);
    var after := Handled(w, ConfigureRx(frequency, enabled), input);
    ReadsAsked(w, after, MakingWay(w) + if enabled then [CallStartRx(after.fields.rxFrequency)] else []);
  }

  lemma {:induction false} HandlingNeverReads(w: World, input: Input)
    requires Invariant(w)
    ensures Reads(AfterCommand(w, input)) == Reads(w)
  {
    match input.command {
      case Some(Transmit(gain)) => TransmittingNeverReads(w, gain, input);
      case Some(ConfigureRx(frequency, enabled)) => ConfiguringNeverReads(w, frequency, enabled, input);
      case _ =>
    }
  }

  /**
   * An iteration ends with a healthy receiver that is wanted, other than by a retry, exactly when a
   * transfer arrived in it; and then it has read exactly once.
   */
  lemma {:induction false} ReceivingIsReading(w: World, input: Input)
    requires Invariant(w)
    ensures var after := Step(w, input);
      && (TransferArrives(w, input) <==>
            after.fields.rxEnabled && !after.fields.faulted && after.log.probes == w.log.probes)
      && (TransferArrives(w, input) ==> Reads(after) == Reads(w) + 1 && after.fields.receivingProven
                                        && after.fields.backoff == 2_000)
  {
    var handled := AfterCommand(w, input);
    HandledAsks(w, input);
    HandlingNeverProbes(w, input);
    HandlingNeverReads(w, input);
    WorkedAsks(handled, input);
    SettingsStay(handled, input);
    if handled.fields.rxEnabled && !handled.fields.faulted {
      PumpExactly(handled, input);
      var starting := if handled.fields.rxRunning then [] else [CallStartRx(handled.fields.rxFrequency)];
      ReadsAsked(handled, Step(w, input), starting + if ComesUp(handled, input.working.main) then [CallRead] else []);
    } else if handled.fields.rxEnabled && input.checkedAt >= handled.fields.retryAt {
      RetryExactly(handled, input);
    } else {
      RestExactly(handled, input);
    }
  }

  /** The bursts of all transfers that arrive in a run. */
  function BurstsHeard(w: World, inputs: seq<Input>): nat {
    if inputs == [] then 0
    else BurstsHeard(w, Front(inputs))
         + if TransferArrives(Run(w, Front(inputs)), Last(inputs)) then Last(inputs).bursts else 0
  }

  /** In every run as many frames are announced as the transfers that arrived have completed. */
  lemma {:induction false} EveryBurstIsAnnounced(w: World, inputs: seq<Input>)
    requires Invariant(w)
    ensures Invariant(Run(w, inputs)) && |Run(w, inputs).log.frames| == |w.log.frames| + BurstsHeard(w, inputs)
  {
    if inputs != [] {
      EveryBurstIsAnnounced(w, Front(inputs));
      FramesExactly(Run(w, Front(inputs)), Last(inputs));
      StepKeeps(Run(w, Front(inputs)), Last(inputs));
    }
  }

  /** What the receiver was last set to: the last configuration's wish and the last frequency named. */
  function LastConfigured(enabled: bool, frequency: nat, inputs: seq<Input>): (bool, nat) {
    if inputs == [] then (enabled, frequency)
    else
      var before := LastConfigured(enabled, frequency, Front(inputs));
      match Last(inputs).command
      case Some(ConfigureRx(f, e)) => (e, if f.Some? then f.value else before.1)
      case _ => before
  }

  /** In every run the receiver is wanted, and tuned, as it was last configured, whatever else happened. */
  lemma {:induction false} StaysAsConfigured(
    rxEnabled: bool, rxFrequency: nat, now: nat, luck: Luck, inputs: seq<Input>)
    ensures var fields := Run(Start(rxEnabled, rxFrequency, now, luck), inputs).fields;
      (fields.rxEnabled, fields.rxFrequency) == LastConfigured(rxEnabled, rxFrequency, inputs)
  {
    if inputs != [] {
      var w, input := Run(Start(rxEnabled, rxFrequency, now, luck), Front(inputs)), Last(inputs);
      StaysAsConfigured(rxEnabled, rxFrequency, now, luck, Front(inputs));
      Reachable(rxEnabled, rxFrequency, now, luck, Front(inputs));
      HandledAsks(w, input);
      SettingsStay(AfterCommand(w, input), input);
      match input.command {
        case Some(Transmit(gain)) => TransmitExactly(w, gain, input);
        case Some(ConfigureRx(f, e)) => ConfigureExactly(w, f, e, input);
        case _ =>
      }
    }
  }

  /** The commands that ask for a reply. */
  function Requests(inputs: seq<Input>): nat {
    if inputs == [] then 0
    else Requests(Front(inputs))
         + if Last(inputs).command.None? || Last(inputs).command == Some(DeviceArrived) then 0 else 1
  }

  /** In every run each request has had one reply, and nothing else has. */
  lemma {:induction false} EveryRequestIsAnswered(
    rxEnabled: bool, rxFrequency: nat, now: nat, luck: Luck, inputs: seq<Input>)
    ensures |Run(Start(rxEnabled, rxFrequency, now, luck), inputs).log.replies| == Requests(inputs)
  {
    if inputs != [] {
      var w, input := Run(Start(rxEnabled, rxFrequency, now, luck), Front(inputs)), Last(inputs);
      EveryRequestIsAnswered(rxEnabled, rxFrequency, now, luck, Front(inputs));
      Reachable(rxEnabled, rxFrequency, now, luck, Front(inputs));
      HandledAsks(w, input);
      WorkNeverAnswers(AfterCommand(w, input), input);
      match input.command {
        case Some(Transmit(gain)) => TransmitExactly(w, gain, input);
        case Some(ConfigureRx(f, e)) => ConfigureExactly(w, f, e, input);
        case _ =>
      }
    }
  }

  lemma {:induction false} WorkNeverAnswers(w: World, input: Input)
    requires Invariant(w)
    ensures Worked(w, input).log.replies == w.log.replies
  {
    if w.fields.rxEnabled && !w.fields.faulted {
      PumpExactly(w, input);
    } else if w.fields.rxEnabled && input.checkedAt >= w.fields.retryAt {
      RetryExactly(w, input);
    } else {
      RestExactly(w, input);
    }
  }
}
