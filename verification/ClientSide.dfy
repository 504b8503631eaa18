/**
 * The reconnecting client: many requests multiplexed over one connection that
 * may go away at any moment.
 *
 * `Step` is what happens between two await points, on values: which of the
 * client's coroutines runs next, and what the network does to it, is the event.
 * `ProxyClient` is the object the program keeps; each of its methods is proved
 * to do what the step function says. A step that is not enabled does nothing.
 */
module ClientSide {
  import opened Wrappers
  import opened Backoff
  import opened Ids

  /** In seconds. */
  const INITIAL_BACKOFF: nat := 1
  const MAX_BACKOFF: nat := 60

  const HELLO: string := "hello"

  /** A JSON message from the daemon, as far as the client looks into it. */
  datatype Message = Message(id: Option<string>, kind: string, state: Option<string>)

  /** The future a request waits on; `at` is the place of the settling message in the log. */
  datatype Future = Waiting | Settled(message: Message, at: nat) | Broken | Cancelled

  datatype Outcome = Answered(reply: Message) | Refused(error: Message) | TimedOut | Unreachable | LinkLost | Withdrawn

  datatype Phase = Sending | Awaiting | Finished(outcome: Outcome)

  /** What has been thrown into a request's coroutine that it has not woken up to yet. */
  datatype Interruption = Undisturbed | Expired | Abandoned

  /** One call of the request coroutine; the k-th of them, from zero, bears the id k + 1. */
  datatype Request = Request(
    connection: nat,
    since: nat,
    phase: Phase,
    future: Future,
    interruption: Interruption
  ) {
    predicate CanResume() {
      !phase.Finished? && (interruption != Undisturbed || (phase == Awaiting && future != Waiting))
    }

    /** How the coroutine ends when it wakes up. */
    function Ending(): Outcome {
      if interruption == Abandoned then Withdrawn
      else if interruption == Expired then TimedOut
      else
        match future
        case Settled(m, _) => if m.kind == "error" then Refused(m) else Answered(m)
        case Broken => LinkLost
        case Cancelled => Withdrawn
        case Waiting => Withdrawn
    }
  }

  /** Where the connection's coroutine is. */
  datatype Link = Connecting | Greeting | Reading | Closing | Sleeping | Stopped

  /**
   * What has happened so far: ids put on the wire and messages dispatched, each with the number of
   * its connection; what availability listeners were told; how many connections were established;
   * and how many waits there have been since the last one opened.
   */
  datatype Log = Log(
    sent: seq<(nat, string)>,
    received: seq<(nat, Message)>,
    told: seq<bool>,
    connection: nat,
    established: nat,
    waits: nat
  )

  datatype Client = Client(
    link: Link,
    socket: bool,
    closing: bool,
    backoff: nat,
    nextId: nat,
    pending: map<string, nat>,
    requests: seq<Request>,
    connected: bool,
    state: Option<string>,
    connectedSince: Option<nat>,
    disconnects: nat,
    lastRxFrame: Option<nat>,
    log: Log
  )

  datatype Event =
    | Submit
    | SendDone(k: nat)
    | SendFails(k: nat)
    | Interrupt(k: nat, why: Interruption)
    | Resume(k: nat)
    | Start
    | Open
    | ConnectFails
    | Greet(status: Message, now: nat)
    | Arrive(message: Message, now: nat)
    | ReadEnds
    | TearDown
    | Wake
    | Stop

  const FRESH: Client :=
    Client(Stopped, false, false, INITIAL_BACKOFF, 0, map[], [], false, None, None, 0, None,
           Log([], [], [], 0, 0, 0))

  // ----- requests -----

  /** A request is refused unless connected; otherwise it takes the next id, and is sent. */
  function Submitted(c: Client): (Client, bool) {
    if !c.socket || !c.connected then (c, false)
    else
      var id := IdOf(c.nextId);
      (c.(nextId := c.nextId + 1,
          pending := c.pending[id := c.nextId],
          requests := c.requests + [Request(c.log.connection, |c.log.received|, Sending, Waiting, Undisturbed)],
          log := c.log.(sent := c.log.sent + [(c.log.connection, id)])),
       true)
  }

  function DoneSending(c: Client, k: nat): Client {
    if k < |c.requests| && c.requests[k].phase == Sending && c.requests[k].interruption == Undisturbed
    then c.(requests := c.requests[k := c.requests[k].(phase := Awaiting)])
    else c
  }

  /** However a request ends, its entry goes with it. */
  function Ended(c: Client, k: nat, outcome: Outcome): Client
    requires k < |c.requests|
  {
    c.(requests := c.requests[k := c.requests[k].(phase := Finished(outcome))], pending := c.pending - {IdOf(k)})
  }

  function FailedSending(c: Client, k: nat): Client {
    if k < |c.requests| && c.requests[k].phase == Sending && c.requests[k].interruption == Undisturbed
    then Ended(c, k, Unreachable)
    else c
  }

  /** A timer or a canceller strikes; the timer only runs while the reply is awaited. */
  function Interrupted(c: Client, k: nat, why: Interruption): Client {
    if k >= |c.requests| || c.requests[k].phase.Finished? || why == Undisturbed
       || (why == Expired && c.requests[k].phase != Awaiting)
    then c
    else
      var r := c.requests[k];
      c.(requests := c.requests[k := r.(
        interruption := if r.interruption == Abandoned then Abandoned else why,
        future := if r.phase == Awaiting && r.future == Waiting then Cancelled else r.future)])
  }

  function Resumed(c: Client, k: nat): Client {
    if k < |c.requests| && c.requests[k].CanResume() then Ended(c, k, c.requests[k].Ending()) else c
  }

  // ----- the connection -----

  function Available(c: Client, available: bool): Client {
    if available == c.connected then c
    else c.(connected := available, log := c.log.(told := c.log.told + [available]))
  }

  function Started(c: Client): Client {
    if c.link == Stopped
    then c.(link := Connecting, closing := false, backoff := INITIAL_BACKOFF, log := c.log.(waits := 0))
    else c
  }

  function Opened(c: Client): Client {
    if c.link == Connecting
    then c.(link := Greeting, socket := true, backoff := INITIAL_BACKOFF,
            log := c.log.(connection := c.log.connection + 1, waits := 0))
    else c
  }

  /** Only the reply to the greeting will do. */
  function Greeted(c: Client, status: Message, now: nat): Client {
    if c.link != Greeting || status.id != Some(HELLO) then c
    else
      Available(
        c.(link := Reading, state := status.state, connectedSince := Some(now),
           log := c.log.(established := c.log.established + 1)),
        true)
  }

  function Logged(c: Client, m: Message): Client {
    c.(log := c.log.(received := c.log.received + [(c.log.connection, m)]))
  }

  /** The request with the message's id has its reply, unless it has stopped waiting. */
  function Replied(c: Client, k: nat, m: Message): Client {
    if k < |c.requests| && c.requests[k].future == Waiting
    then Logged(c, m).(requests := c.requests[k := c.requests[k].(future := Settled(m, |c.log.received|))])
    else Logged(c, m)
  }

  function Noticed(c: Client, m: Message, now: nat): Client {
    if m.kind == "rx_frame" then c.(lastRxFrame := Some(now))
    else if m.kind == "device_state" then
      Available(c.(state := m.state), m.state != Some("faulted"))
    else c
  }

  /** A message with a listed id is that request's and nobody else's; any other is an event. */
  function Dispatched(c: Client, m: Message, now: nat): Client {
    if c.link != Reading then c
    else if m.id.Some? && m.id.value in c.pending then Replied(c, c.pending[m.id.value], m)
    else Noticed(Logged(c, m), m, now)
  }

  /** Everyone listed who still waits has failed, except those left out. */
  function BrokeBut(requests: seq<Request>, pending: map<string, nat>, left: set<string>): (broke: seq<Request>)
    ensures |broke| == |requests|
  {
    seq(|requests|, k requires 0 <= k < |requests| =>
      if IdOf(k) in pending && IdOf(k) !in left && requests[k].future == Waiting then requests[k].(future := Broken)
      else requests[k])
  }

  lemma {:induction false} OneMoreBroke(requests: seq<Request>, pending: map<string, nat>, left: set<string>, k: nat)
    requires k < |requests| && IdOf(k) in pending && IdOf(k) in left
    ensures var broke, more := BrokeBut(requests, pending, left), BrokeBut(requests, pending, left - {IdOf(k)});
      more == if broke[k].future == Waiting then broke[k := broke[k].(future := Broken)] else broke
  {
    forall j | 0 <= j < |requests| ensures IdOf(j) == IdOf(k) ==> j == k {
      IdsDiffer(j, k);
    }
  }

  /** Nobody waits for a reply any longer. */
  function NobodyPending(c: Client): Client {
    c.(requests := BrokeBut(c.requests, c.pending, {}), pending := map[])
  }

  function Disconnected(c: Client): Client {
    c.(socket := false, connectedSince := None, state := None,
       disconnects := if c.connectedSince.Some? then c.disconnects + 1 else c.disconnects)
  }

  /** The connection is over, or could not be made. */
  function TornDown(c: Client): Client {
    NobodyPending(Available(Disconnected(c), false)).(link := if c.closing then Stopped else Sleeping)
  }

  function Woken(c: Client): Client {
    if c.link != Sleeping then c
    else c.(link := Connecting, backoff := Doubled(c.backoff, MAX_BACKOFF), log := c.log.(waits := c.log.waits + 1))
  }

  /** Cancelling closes an open connection first; a client that is asleep just stops. */
  function Halted(c: Client): Client {
    var told := c.(closing := true);
    match c.link
    case Connecting => TornDown(told)
    case Greeting | Reading | Closing => told.(link := Closing)
    case Sleeping | Stopped => told.(link := Stopped)
  }

  function Step(c: Client, e: Event): Client {
    match e
    case Submit => Submitted(c).0
    case SendDone(k) => DoneSending(c, k)
    case SendFails(k) => FailedSending(c, k)
    case Interrupt(k, why) => Interrupted(c, k, why)
    case Resume(k) => Resumed(c, k)
    case Start => Started(c)
    case Open => Opened(c)
    case ConnectFails => if c.link == Connecting then TornDown(c) else c
    case Greet(status, now) => Greeted(c, status, now)
    case Arrive(m, now) => Dispatched(c, m, now)
    case ReadEnds => if c.link == Greeting || c.link == Reading then c.(link := Closing) else c
    case TearDown => if c.link == Closing then TornDown(c) else c
    case Wake => Woken(c)
    case Stop => Halted(c)
  }

  class ProxyClient {
    var link: Link
    var socket: bool
    var closing: bool
    var backoff: nat
    var nextId: nat
    var pending: map<string, nat>
    var requests: seq<Request>
    var connected: bool
    var state: Option<string>
    var connectedSince: Option<nat>
    var disconnects: nat
    var lastRxFrame: Option<nat>
    /** Nothing the client does depends on it. */
    var log: Log

    function View(): Client
      reads this
    {
      Client(link, socket, closing, backoff, nextId, pending, requests, connected, state, connectedSince, disconnects,
             lastRxFrame, log)
    }

    /** Every entry leads to the request that bears its id. */
    ghost predicate Keyed()
      reads this
    {
      forall id :: id in pending ==> pending[id] < |requests| && id == IdOf(pending[id])
    }

    constructor ()
      ensures View() == FRESH
    {
      link, socket, closing, backoff, nextId := Stopped, false, false, INITIAL_BACKOFF, 0;
      pending, requests := map[], [];
      connected, state, connectedSince, disconnects, lastRxFrame := false, None, None, 0, None;
      log := Log([], [], [], 0, 0, 0);
    }

    /** A request up to its first await; tells whether it got that far. */
    method SendRequest() returns (ok: bool)
      modifies this
      ensures (View(), ok) == Submitted(old(View()))
    {
      if !socket || !connected {
        return false;
      }
      nextId := nextId + 1;
      var id := Decimal(nextId);
      pending := pending[id := nextId - 1];
      requests := requests + [Request(log.connection, |log.received|, Sending, Waiting, Undisturbed)];
      log := log.(sent := log.sent + [(log.connection, id)]);
      ok := true;
    }

    method Settle(k: nat, r: Request)
      requires k < |requests|
      modifies this`requests
      ensures requests == old(requests)[k := r]
    {
      requests := requests[k := r];
    }

    /** The end of a request, whichever way it ends. */
    method Finish(k: nat, outcome: Outcome)
      requires k < |requests|
      modifies this
      ensures View() == Ended(old(View()), k, outcome)
    {
      pending := pending - {IdOf(k)};
      Settle(k, requests[k].(phase := Finished(outcome)));
    }

    method WakeRequest(k: nat)
      modifies this
      ensures View() == Resumed(old(View()), k)
    {
      if k < |requests| && requests[k].CanResume() {
        Finish(k, requests[k].Ending());
      }
    }

    method SetAvailable(available: bool)
      modifies this`connected, this`log
      ensures View() == Available(old(View()), available)
    {
      if available == connected {
        return;
      }
      connected := available;
      log := log.(told := log.told + [available]);
    }

    method Dispatch(m: Message, now: nat)
      requires link == Reading
      modifies this
      ensures View() == Dispatched(old(View()), m, now)
    {
      var at := |log.received|;
      log := log.(received := log.received + [(log.connection, m)]);
      if m.id.Some? && m.id.value in pending {
        var k := pending[m.id.value];
        if k < |requests| && requests[k].future == Waiting {
          Settle(k, requests[k].(future := Settled(m, at)));
        }
        return;
      }
      if m.kind == "rx_frame" {
        lastRxFrame := Some(now);
      } else if m.kind == "device_state" {
        state := m.state;
        SetAvailable(state != Some("faulted"));
      }
    }

    /** Everyone still waiting is told that the connection is gone. */
    method FailPending()
      requires Keyed()
      modifies this`pending, this`requests
      ensures View() == NobodyPending(old(View()))
    {
      var left := pending.Keys;
      while left != {}
        invariant left <= pending.Keys && pending == old(pending)
        invariant requests == BrokeBut(old(requests), pending, left)
        decreases |left|
      {
        var id :| id in left;
        var k := pending[id];
        OneMoreBroke(old(requests), pending, left, k);
        if requests[k].future == Waiting {
          Settle(k, requests[k].(future := Broken));
        }
        left := left - {id};
      }
      pending := map[];
    }

    /** The diagnostics of a connection end with it, and count it if it was ever greeted. */
    method Forget()
      modifies this`socket, this`disconnects, this`connectedSince, this`state
      ensures View() == Disconnected(old(View()))
    {
      socket := false;
      if connectedSince.Some? {
        disconnects := disconnects + 1;
      }
      connectedSince := None;
      state := None;
    }

    /** What happens whenever a connection is over, or could not be made. */
    method CleanUp()
      requires Keyed()
      modifies this
      ensures View() == TornDown(old(View()))
    {
      Forget();
      SetAvailable(false);
      FailPending();
      link := if closing then Stopped else Sleeping;
    }

    method FirstStatus(status: Message, now: nat)
      modifies this
      ensures View() == Greeted(old(View()), status, now)
    {
      if link != Greeting || status.id != Some(HELLO) {
        return;
      }
      link := Reading;
      state := status.state;
      connectedSince := Some(now);
      log := log.(established := log.established + 1);
      SetAvailable(true);
    }

    method Reconnect()
      modifies this
      ensures View() == Woken(old(View()))
    {
      if link == Sleeping {
        backoff := if 2 * backoff < MAX_BACKOFF then 2 * backoff else MAX_BACKOFF;
        log := log.(waits := log.waits + 1);
        link := Connecting;
      }
    }

    /** Stopping cancels the connection's coroutine, which closes what is open on its way out. */
    method Shut()
      requires Keyed()
      modifies this
      ensures View() == Halted(old(View()))
    {
      closing := true;
      match link {
        case Connecting => CleanUp();
        case Greeting | Reading | Closing => link := Closing;
        case Sleeping | Stopped => link := Stopped;
      }
    }

    method Begin()
      modifies this
      ensures View() == Started(old(View()))
    {
      if link == Stopped {
        closing := false;
        backoff := INITIAL_BACKOFF;
        log := log.(waits := 0);
        link := Connecting;
      }
    }

    method Connect()
      modifies this
      ensures View() == Opened(old(View()))
    {
      if link == Connecting {
        socket := true;
        backoff := INITIAL_BACKOFF;
        log := log.(connection := log.connection + 1, waits := 0);
        link := Greeting;
      }
    }

    /** What befalls a request while it is suspended. */
    method Disturb(k: nat, why: Interruption)
      modifies this`requests
      ensures View() == Interrupted(old(View()), k, why)
    {
      if k >= |requests| || requests[k].phase.Finished? || why == Undisturbed
         || (why == Expired && requests[k].phase != Awaiting) {
        return;
      }
      var r := requests[k];
      if r.phase == Awaiting && r.future == Waiting {
        r := r.(future := Cancelled);
      }
      if r.interruption != Abandoned {
        r := r.(interruption := why);
      }
      Settle(k, r);
    }

    method EndSending(k: nat, sent: bool)
      modifies this
      ensures View() == if sent then DoneSending(old(View()), k) else FailedSending(old(View()), k)
    {
      if k < |requests| && requests[k].phase == Sending && requests[k].interruption == Undisturbed {
        if sent {
          Settle(k, requests[k].(phase := Awaiting));
        } else {
          Finish(k, Unreachable);
        }
      }
    }

    /** Whichever coroutine runs next, and whatever befalls it. */
    method Advance(e: Event)
      requires Keyed()
      modifies this
      ensures View() == Step(old(View()), e)
    {
      match e {
        case Submit => var ok := SendRequest();
        case SendDone(k) => EndSending(k, true);
        case SendFails(k) => EndSending(k, false);
        case Interrupt(k, why) => Disturb(k, why);
        case Resume(k) => WakeRequest(k);
        case Start => Begin();
        case Open => Connect();
        case Greet(status, now) => FirstStatus(status, now);
        case Arrive(m, now) =>
          if link == Reading {
            Dispatch(m, now);
          }
        case ConnectFails =>
          if link == Connecting {
            CleanUp();
          }
        case ReadEnds =>
          if link == Greeting || link == Reading {
            link := Closing;
          }
        case TearDown =>
          if link == Closing {
            CleanUp();
          }
        case Wake => Reconnect();
        case Stop => Shut();
      }
    }
  }
}
