/**
 * The arbiter of a half-duplex radio: one loop that owns it, receiving by default,
 * preempted by transmissions, retrying a failed radio with a widening backoff.
 *
 * `Step` is one iteration of the loop on values, given the command taken from
 * the channel, the outcomes of the driver calls and the clock readings it
 * makes. `Arbiter` is the object the program keeps; each of its methods is
 * proved to do what the step function says.
 */
module Arbiter {
  import opened Wrappers
  import opened Backoff
  import opened Radio
  import opened Sequences

  /** In milliseconds. */
  const FAULT_BACKOFF: nat := 2_000
  const MAX_FAULT_BACKOFF: nat := 60_000

  datatype DeviceState = Receiving | Transmitting | Idle | Faulted

  datatype Command =
    | Transmit(gain: nat)
    | ConfigureRx(frequency: Option<nat>, enabled: bool)
    | DeviceArrived
    | Status

  datatype Reply = Done | Failed | StatusIs(state: DeviceState)

  /** The calls the arbiter makes of the device. */
  datatype Call = CallStartRx(frequency: nat) | CallRead | CallStop | CallTransmit | CallDescribe

  /** A received frame as announced, and where every sample its detector had seen was read. */
  datatype Frame = Frame(frequency: nat, readAt: seq<nat>)

  /** The fields of the program's state. */
  datatype Fields = Fields(
    rxEnabled: bool,
    rxFrequency: nat,
    rxRunning: bool,
    faulted: bool,
    retryAt: nat,
    backoff: nat,
    receivingProven: bool,
    published: Option<DeviceState>
  ) {
    function DeviceState(): DeviceState {
      if faulted then Faulted else if rxRunning then Receiving else Idle
    }
  }

  /**
   * What has happened so far: announced states and frames, replies, device calls with the device as
   * each found it, where the samples in the present detector were read, when the radio faulted and
   * when it was probed, and how often the backoff has widened since it last began.
   */
  datatype Log = Log(
    states: seq<DeviceState>,
    frames: seq<Frame>,
    replies: seq<Reply>,
    calls: seq<(Call, Handle)>,
    heard: seq<nat>,
    faults: seq<nat>,
    probes: seq<nat>,
    widened: nat
  )

  datatype World = World(fields: Fields, device: Handle, log: Log) {
    function Called(call: Call): World {
      this.(log := log.(calls := log.calls + [(call, device)]))
    }

    function Replied(reply: Reply): World {
      this.(log := log.(replies := log.replies + [reply]))
    }

    /** Announces a state whether or not it is news. */
    function Announced(state: DeviceState): World {
      this.(fields := fields.(published := Some(state)), log := log.(states := log.states + [state]))
    }

    /** The last announcement is the present state: made now, unless it was already. */
    function Published(): World {
      if fields.published == Some(fields.DeviceState()) then this else Announced(fields.DeviceState())
    }
  }

  function BackedOff(w: World, now: nat): World {
    var wider := Doubled(w.fields.backoff, MAX_FAULT_BACKOFF);
    w.(fields := w.fields.(backoff := wider, retryAt := now + wider), log := w.log.(widened := w.log.widened + 1))
  }

  function AfterFault(w: World, now: nat): World {
    var down := w.(fields := w.fields.(faulted := true, rxRunning := false, receivingProven := false),
                   log := w.log.(faults := w.log.faults + [now]));
    BackedOff(down, now).Published()
  }

  /** Outcomes of the driver calls in one half of an iteration: a first stop, the operation itself, a last call. */
  datatype Phase = Phase(before: Luck, main: Luck, after: Luck)

  /** One iteration's worth of the outside world. */
  datatype Input = Input(
    command: Option<Command>,
    handling: Phase,
    working: Phase,
    bursts: nat,
    handledAt: nat,
    faultedAt: nat,
    checkedAt: nat,
    lateAt: nat
  ) {
    /** The clock only moves forward. */
    predicate Ordered() {
      handledAt <= faultedAt <= checkedAt <= lateAt
    }
  }

  /** The world after a transmission and the stop that follows it; whether it was sent. */
  function Transmitted(w: World, gain: nat, phase: Phase): (World, bool) {
    var stop := Stopped(w.device, phase.before);
    if w.fields.rxRunning && !stop.1 then (w.Called(CallStop).(device := stop.0), false)
    else
      var quiet := if w.fields.rxRunning
                   then w.Called(CallStop).(device := stop.0, fields := w.fields.(rxRunning := false)) else w;
      var busy := quiet.Announced(Transmitting);
      var sent := Sent(busy.device, gain, phase.main);
      var ended := busy.Called(CallTransmit).(device := sent.0);
      var over := ended.Called(CallStop).(device := Stopped(ended.device, phase.after).0);
      if !sent.1 then (over, false)
      else (if over.fields.rxEnabled then over else over.Published(), true)
  }

  /** Receiver down, fault forgotten, detector replaced, and the new settings in place. */
  function Tuned(w: World, frequency: Option<nat>, enabled: bool, phase: Phase): World {
    var stopped := if w.fields.rxRunning
                   then w.Called(CallStop).(device := Stopped(w.device, phase.before).0) else w;
    stopped.(
      fields := stopped.fields.(
        rxFrequency := if frequency.Some? then frequency.value else w.fields.rxFrequency,
        rxEnabled := enabled, rxRunning := false, faulted := false),
      log := stopped.log.(heard := []))
  }

  /** The receiver started on the present frequency, if the device would. */
  function BroughtUp(w: World, luck: Luck): (World, bool) {
    var (device, ok) := Started(w.device, w.fields.rxFrequency, luck);
    var called := w.Called(CallStartRx(w.fields.rxFrequency)).(device := device);
    (if ok then called.(fields := called.fields.(rxRunning := true)) else called, ok)
  }

  function Handled(w: World, command: Command, input: Input): World {
    match command
    case Transmit(gain) =>
      var (after, ok) := Transmitted(w, gain, input.handling);
      if ok then after.Replied(Done) else AfterFault(after, input.faultedAt).Replied(Failed)
    case ConfigureRx(frequency, enabled) =>
      var tuned := Tuned(w, frequency, enabled, input.handling);
      if !enabled then tuned.Published().Replied(Done)
      else
        var (started, ok) := BroughtUp(tuned, input.handling.main);
        if ok then started.Published().Replied(Done)
        else AfterFault(started, input.faultedAt).Published().Replied(Failed)
    case DeviceArrived =>
      if w.fields.faulted
      then w.(fields := w.fields.(retryAt := input.handledAt, backoff := FAULT_BACKOFF), log := w.log.(widened := 0))
      else w
    case Status => w.Replied(StatusIs(w.fields.DeviceState()))
  }

  /** The receiver brought up if it was not, and then a read. */
  function Pumped(w: World, input: Input): World {
    if w.fields.rxRunning then ReadOut(w, input)
    else
      var (started, ok) := BroughtUp(w, input.working.main);
      if ok then ReadOut(started.Published(), input) else AfterFault(started, input.lateAt)
  }

  function ReadOut(w: World, input: Input): World {
    var (device, read) := DidRead(w.device, input.working.after);
    var done := w.Called(CallRead).(device := device);
    if !read then AfterFault(done, input.lateAt)
    else Delivered(Proven(done), input.bursts)
  }

  /** After the first data since a fault, the backoff is as it began. */
  function Proven(w: World): World {
    if w.fields.receivingProven then w
    else w.(fields := w.fields.(receivingProven := true, backoff := FAULT_BACKOFF), log := w.log.(widened := 0))
  }

  /** A transfer reaches the detector, which completes some number of bursts. */
  function Delivered(w: World, bursts: nat): World {
    var heard := if w.device.rx.Some? then w.log.heard + [w.device.rx.value] else w.log.heard;
    w.(log := w.log.(heard := heard, frames := w.log.frames + Repeat(Frame(w.fields.rxFrequency, heard), bursts)))
  }

  /** The radio is stopped and asked to identify itself; whether it did. */
  function Probed(w: World, input: Input): (World, bool) {
    var stopped := w.Called(CallStop).(device := Stopped(w.device, input.working.before).0);
    var (device, ok) := Described(stopped.device, input.working.main);
    var probed := stopped.Called(CallDescribe).(device := device);
    (probed.(log := probed.log.(probes := probed.log.probes + [input.checkedAt])), ok)
  }

  /** Nothing, before the retry time; at or after it, a probe, and the fault over or the backoff wider. */
  function Retried(w: World, input: Input): World {
    if input.checkedAt < w.fields.retryAt then w
    else
      var (probed, ok) := Probed(w, input);
      if ok then probed.(fields := probed.fields.(faulted := false)).Published()
      else BackedOff(probed, input.lateAt)
  }

  function Worked(w: World, input: Input): World {
    if !w.fields.rxEnabled then w
    else if w.fields.faulted then Retried(w, input)
    else Pumped(w, input)
  }

  function AfterCommand(w: World, input: Input): World {
    if input.command.Some? then Handled(w, input.command.value, input) else w
  }

  /** One iteration of the loop. */
  function Step(w: World, input: Input): World {
    Worked(AfterCommand(w, input), input)
  }

  /** The program before its first iteration; the radio has been asked to identify itself once. */
  function Start(rxEnabled: bool, rxFrequency: nat, now: nat, luck: Luck): World {
    World(
      Fields(rxEnabled, rxFrequency, false, false, now, FAULT_BACKOFF, false, None),
      Described(CLOSED, luck).0,
      Log([], [], [], [(CallDescribe, CLOSED)], [], [], [], 0))
  }

  class Arbiter {
    var rxEnabled: bool
    var rxFrequency: nat
    var rxRunning: bool
    var faulted: bool
    var retryAt: nat
    var backoff: nat
    var receivingProven: bool
    var published: Option<DeviceState>
    ghost var log: Log

    ghost function View(device: Device): World
      reads this, device
    {
      World(Fields(rxEnabled, rxFrequency, rxRunning, faulted, retryAt, backoff, receivingProven, published),
            device.View(), log)
    }

    constructor (rxEnabled: bool, rxFrequency: nat, now: nat, luck: Luck, device: Device)
      requires device.View() == CLOSED
      modifies device
      ensures View(device) == Start(rxEnabled, rxFrequency, now, luck)
    {
      this.rxEnabled, this.rxFrequency := rxEnabled, rxFrequency;
      rxRunning, faulted := false, false;
      retryAt, backoff := now, FAULT_BACKOFF;
      receivingProven, published := false, None;
      log := Log([], [], [], [(CallDescribe, CLOSED)], [], [], [], 0);
      new;
      var described := device.Describe(luck);
    }

    function CurrentState(): DeviceState
      reads this
    {
      if faulted then Faulted else if rxRunning then Receiving else Idle
    }

    method Announce(state: DeviceState, ghost device: Device)
      modifies this`published, this`log
      ensures View(device) == old(View(device)).Announced(state)
    {
      published := Some(state);
      log := log.(states := log.states + [state]);
    }

    method Publish(ghost device: Device)
      modifies this`published, this`log
      ensures View(device) == old(View(device)).Published()
    {
      var state := CurrentState();
      if published != Some(state) {
        Announce(state, device);
      }
    }

    method BackOff(now: nat, ghost device: Device)
      modifies this`backoff, this`retryAt, this`log
      ensures View(device) == BackedOff(old(View(device)), now)
    {
      backoff := if backoff * 2 < MAX_FAULT_BACKOFF then backoff * 2 else MAX_FAULT_BACKOFF;
      retryAt := now + backoff;
      log := log.(widened := log.widened + 1);
    }

    method Fault(now: nat, ghost device: Device)
      modifies this
      ensures View(device) == AfterFault(old(View(device)), now)
    {
      faulted := true;
      rxRunning := false;
      receivingProven := false;
      log := log.(faults := log.faults + [now]);
      BackOff(now, device);
      Publish(device);
    }

    ghost method Record(call: Call, device: Device)
      modifies this`log
      ensures View(device) == old(View(device)).Called(call)
    {
      log := log.(calls := log.calls + [(call, device.View())]);
    }

    ghost method Answer(reply: Reply, device: Device)
      modifies this`log
      ensures View(device) == old(View(device)).Replied(reply)
    {
      log := log.(replies := log.replies + [reply]);
    }

    method TransmitNow(gain: nat, device: Device, phase: Phase) returns (ok: bool)
      modifies this, device
      ensures (View(device), ok) == Transmitted(old(View(device)), gain, phase)
    {
      if rxRunning {
        Record(CallStop, device);
        ok := device.Stop(phase.before);
        if !ok {
          return;
        }
        rxRunning := false;
      }
      Announce(Transmitting, device);
      Record(CallTransmit, device);
      ok := device.Transmit(gain, phase.main);
      // On both outcomes.
      Record(CallStop, device);
      var stopped := device.Stop(phase.after);
      if !ok {
        return;
      }
      if !rxEnabled {
        Publish(device);
      }
    }

    method Tune(frequency: Option<nat>, enabled: bool, device: Device, phase: Phase)
      modifies this, device
      ensures View(device) == Tuned(old(View(device)), frequency, enabled, phase)
    {
      if frequency.Some? {
        rxFrequency := frequency.value;
      }
      rxEnabled := enabled;
      if rxRunning {
        Record(CallStop, device);
        var stopped := device.Stop(phase.before);
        rxRunning := false;
      }
      // The detector starts afresh.
      log := log.(heard := []);
      faulted := false;
    }

    method BringUp(device: Device, luck: Luck) returns (ok: bool)
      modifies this, device
      ensures (View(device), ok) == BroughtUp(old(View(device)), luck)
    {
      Record(CallStartRx(rxFrequency), device);
      ok := device.StartRx(rxFrequency, luck);
      if ok {
        rxRunning := true;
      }
    }

    method Configure(frequency: Option<nat>, enabled: bool, device: Device, input: Input)
      modifies this, device
      ensures View(device) == Handled(old(View(device)), ConfigureRx(frequency, enabled), input)
    {
      Tune(frequency, enabled, device, input.handling);
      var ok := true;
      if rxEnabled {
        ok := BringUp(device, input.handling.main);
        if !ok {
          Fault(input.faultedAt, device);
        }
      }
      Publish(device);
      Answer(if ok then Done else Failed, device);
    }

    method Handle(command: Command, device: Device, input: Input)
      modifies this, device
      ensures View(device) == Handled(old(View(device)), command, input)
    {
      match command {
        case Transmit(gain) =>
          var ok := TransmitNow(gain, device, input.handling);
          if !ok {
            Fault(input.faultedAt, device);
          }
          Answer(if ok then Done else Failed, device);
        case ConfigureRx(frequency, enabled) =>
          Configure(frequency, enabled, device, input);
        case DeviceArrived =>
          if faulted {
            retryAt := input.handledAt;
            backoff := FAULT_BACKOFF;
            log := log.(widened := 0);
          }
        case Status =>
          Answer(StatusIs(CurrentState()), device);
      }
    }

    method Pump(device: Device, input: Input)
      modifies this, device
      ensures View(device) == Pumped(old(View(device)), input)
    {
      if !rxRunning {
        var ok := BringUp(device, input.working.main);
        if !ok {
          Fault(input.lateAt, device);
          return;
        }
        Publish(device);
      }
      ReadTransfer(device, input);
    }

    method ReadTransfer(device: Device, input: Input)
      modifies this, device
      ensures View(device) == ReadOut(old(View(device)), input)
    {
      Record(CallRead, device);
      var read := device.Read(input.working.after);
      if !read {
        Fault(input.lateAt, device);
        return;
      }
      if !receivingProven {
        receivingProven := true;
        backoff := FAULT_BACKOFF;
        log := log.(widened := 0);
      }
      Deliver(input.bursts, device);
    }

    ghost method Deliver(bursts: nat, device: Device)
      modifies this`log
      ensures View(device) == Delivered(old(View(device)), bursts)
    {
      var heard := if device.rx.Some? then log.heard + [device.rx.value] else log.heard;
      log := log.(heard := heard, frames := log.frames + Repeat(Frame(rxFrequency, heard), bursts));
    }

    method Retry(device: Device, input: Input)
      modifies this, device
      ensures View(device) == Retried(old(View(device)), input)
    {
      if input.checkedAt < retryAt {
        return;
      }
      var ok := Probe(device, input);
      if ok {
        faulted := false;
        Publish(device);
      } else {
        BackOff(input.lateAt, device);
      }
    }

    method Probe(device: Device, input: Input) returns (ok: bool)
      modifies this`log, device
      ensures (View(device), ok) == Probed(old(View(device)), input)
    {
      Record(CallStop, device);
      var stopped := device.Stop(input.working.before);
      Record(CallDescribe, device);
      ok := device.Describe(input.working.main);
      log := log.(probes := log.probes + [input.checkedAt]);
    }

    /** One iteration of the loop. */
    method Iterate(device: Device, input: Input)
      modifies this, device
      ensures View(device) == Step(old(View(device)), input)
    {
      if input.command.Some? {
        Handle(input.command.value, device, input);
      }
      if faulted {
        if rxEnabled {
          Retry(device, input);
        }
        return;
      }
      if rxEnabled {
        Pump(device, input);
      }
    }
  }
}
