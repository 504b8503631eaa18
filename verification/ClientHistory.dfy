/**
 * The client against what has happened to it: its state as a function of the
 * events, and what becomes of every request.
 */
module ClientHistory {
  import opened Wrappers
  import opened Ids
  import opened Powers
  import opened ClientSide
  import opened ClientLaws
  import opened Sequences

  // ----- what the daemon has said -----

  /** This event is the answer to the greeting that a connection begins with. */
  predicate Establishes(c: Client, e: Event) {
    e.Greet? && c.link == Greeting && e.status.id == Some(HELLO)
  }

  /** This event is a message of some kind that is no listed request's reply. */
  predicate Announces(c: Client, e: Event, kind: string) {
    && e.Arrive? && c.link == Reading && e.message.kind == kind
    && (e.message.id.Some? ==> e.message.id.value !in c.pending)
  }

  /** The last greeting answered: the state it reported, and when. */
  function LastGreeting(events: seq<Event>): Option<(Option<string>, nat)> {
    if events == [] then None
    else
      var c, e := Run(FRESH, Front(events)), Last(events);
      if Establishes(c, e) then Some((e.status.state, e.now)) else LastGreeting(Front(events))
  }

  /** The last state the radio was announced to be in since the last greeting, if any. */
  function LastState(events: seq<Event>): Option<Option<string>> {
    if events == [] then None
    else
      var c, e := Run(FRESH, Front(events)), Last(events);
      if Establishes(c, e) then None
      else if Announces(c, e, "device_state") then Some(e.message.state)
      else LastState(Front(events))
  }

  /** When the last frame was announced. */
  function LastFrame(events: seq<Event>): Option<nat> {
    if events == [] then None
    else if Announces(Run(FRESH, Front(events)), Last(events), "rx_frame") then Some(Last(events).now)
    else LastFrame(Front(events))
  }

  /** State and availability as the daemon's messages make them. */
  ghost predicate FollowsTheRadio(c: Client, greeting: Option<(Option<string>, nat)>, said: Option<Option<string>>) {
    c.connectedSince.Some? ==>
      && greeting.Some? && c.connectedSince == Some(greeting.value.1)
      && c.state == (if said.Some? then said.value else greeting.value.0)
      && (c.connected <==> said.None? || said.value != Some("faulted"))
  }

  /** Nothing that follows the radio has changed. */
  predicate FollowsLeft(c: Client, after: Client) {
    && after.connectedSince == c.connectedSince && after.state == c.state && after.connected == c.connected
    && after.lastRxFrame == c.lastRxFrame
  }

  lemma {:induction false} DispatchFollows(
    c: Client, e: Event, greeting: Option<(Option<string>, nat)>, said: Option<Option<string>>)
    requires e.Arrive? && FollowsTheRadio(c, greeting, said)
    ensures if Announces(c, e, "device_state") then FollowsTheRadio(Step(c, e), greeting, Some(e.message.state))
      else FollowsTheRadio(Step(c, e), greeting, said)
  {
  }

  lemma {:induction false} StepFollows(
    c: Client, e: Event, greeting: Option<(Option<string>, nat)>, said: Option<Option<string>>)
    requires Invariant(c) && FollowsTheRadio(c, greeting, said)
    ensures if Establishes(c, e) then FollowsTheRadio(Step(c, e), Some((e.status.state, e.now)), None)
      else if Announces(c, e, "device_state") then FollowsTheRadio(Step(c, e), greeting, Some(e.message.state))
      else FollowsTheRadio(Step(c, e), greeting, said)
  {
    match e {
      case Arrive(m, now) => DispatchFollows(c, e, greeting, said);
      case ConnectFails => TornDownForgets(c);
      case TearDown => TornDownForgets(c);
      case Stop => TornDownForgets(c.(closing := true));
      case Start =>
      case Open =>
      case Greet(status, now) =>
      case ReadEnds =>
      case Wake =>
      case _ => RequestsKeepCounts(c, e);
    }
  }

  /**
   * In every run, while a connection is established, the state is the one last announced over it, or
   * the greeting's if none has been, and the client is available unless a fault has been announced
   * since; without a connection it has no state and is unavailable.
   */
  lemma {:induction false} AvailabilityFollowsTheRadio(events: seq<Event>)
    ensures var c := Run(FRESH, events);
      && FollowsTheRadio(c, LastGreeting(events), LastState(events))
      && (c.connectedSince.None? ==> c.state.None? && !c.connected)
  {
    Reachable(events);
    if events != [] {
      AvailabilityFollowsTheRadio(Front(events));
      Reachable(Front(events));
      StepFollows(Run(FRESH, Front(events)), Last(events), LastGreeting(Front(events)), LastState(Front(events)));
    }
  }

  /** In every run the last frame is the last one announced, whatever connections came and went. */
  lemma {:induction false} FramesAreNoticed(events: seq<Event>)
    ensures Run(FRESH, events).lastRxFrame == LastFrame(events)
  {
    if events != [] {
      FramesAreNoticed(Front(events));
      FrameStep(Run(FRESH, Front(events)), Last(events));
    }
  }

  lemma {:induction false} FrameStep(c: Client, e: Event)
    ensures Step(c, e).lastRxFrame == if Announces(c, e, "rx_frame") then Some(e.now) else c.lastRxFrame
  {
    match e {
      case ConnectFails => TornDownForgets(c);
      case TearDown => TornDownForgets(c);
      case Stop => TornDownForgets(c.(closing := true));
      case _ =>
    }
  }

  // ----- connections -----

  /** The connections that were greeted. */
  function Greetings(events: seq<Event>): nat {
    if events == [] then 0
    else Greetings(Front(events)) + if Establishes(Run(FRESH, Front(events)), Last(events)) then 1 else 0
  }

  /** The connections that were opened. */
  function Openings(events: seq<Event>): nat {
    if events == [] then 0
    else Openings(Front(events)) + if Run(FRESH, Front(events)).link == Connecting && Last(events).Open? then 1 else 0
  }

  /** Whether a wait begins, or those before are forgotten. */
  function WaitsAfter(c: Client, e: Event, waits: nat): nat {
    if (c.link == Connecting && e.Open?) || (c.link == Stopped && e.Start?) then 0
    else waits + if c.link == Sleeping && e.Wake? then 1 else 0
  }

  /** The waits since a connection was last opened or the client last started. */
  function WaitsInARow(events: seq<Event>): nat {
    if events == [] then 0
    else WaitsAfter(Run(FRESH, Front(events)), Last(events), WaitsInARow(Front(events)))
  }

  /** The requests' own events leave the connection alone. */
  lemma {:induction false} RequestsKeepCounts(c: Client, e: Event)
    requires e.Submit? || e.SendDone? || e.SendFails? || e.Interrupt? || e.Resume?
    ensures Step(c, e).log.established == c.log.established && Step(c, e).log.waits == c.log.waits
    ensures Step(c, e).log.connection == c.log.connection
    ensures FollowsLeft(c, Step(c, e))
  {
  }

  lemma {:induction false} TornDownForgets(c: Client)
    ensures var after := TornDown(c);
      && after.log.established == c.log.established && after.log.waits == c.log.waits
      && after.log.connection == c.log.connection
      && after.connectedSince.None? && after.lastRxFrame == c.lastRxFrame
  {
  }

  lemma {:induction false} DispatchedKeepsCounts(c: Client, m: Message, now: nat)
    ensures var after := Dispatched(c, m, now);
      && after.log.established == c.log.established && after.log.waits == c.log.waits
      && after.log.connection == c.log.connection
  {
  }

  lemma {:induction false} CountStep(c: Client, e: Event)
    ensures var after := Step(c, e);
      && after.log.established == c.log.established + (if Establishes(c, e) then 1 else 0)
      && after.log.waits == WaitsAfter(c, e, c.log.waits)
      && after.log.connection == c.log.connection + (if c.link == Connecting && e.Open? then 1 else 0)
  {
    match e {
      case Arrive(m, now) => DispatchedKeepsCounts(c, m, now);
      case ConnectFails => TornDownForgets(c);
      case TearDown => TornDownForgets(c);
      case Stop => TornDownForgets(c.(closing := true));
      case Start =>
      case Open =>
      case Greet(status, now) =>
      case ReadEnds =>
      case Wake =>
      case _ => RequestsKeepCounts(c, e);
    }
  }

  lemma {:induction false} CountsAreTrue(events: seq<Event>)
    ensures var log := Run(FRESH, events).log;
      && log.established == Greetings(events) && log.waits == WaitsInARow(events)
      && log.connection == Openings(events)
  {
    if events != [] {
      CountsAreTrue(Front(events));
      CountStep(Run(FRESH, Front(events)), Last(events));
    }
  }

  /** In every run the next wait is a second doubled for each wait in a row, at most a minute. */
  lemma {:induction false} WaitsWiden(events: seq<Event>)
    ensures var n := WaitsInARow(events); Run(FRESH, events).backoff == if TwoTo(n) < 60 then TwoTo(n) else 60
  {
    CountsAreTrue(events);
    WaitIsPower(events);
  }

  /** In every run the drops counted are the connections that were greeted, but for the present one. */
  lemma {:induction false} DropsAreOfGreeted(events: seq<Event>)
    ensures var c := Run(FRESH, events);
      c.disconnects + (if c.connectedSince.Some? then 1 else 0) == Greetings(events)
  {
    Reachable(events);
    CountsAreTrue(events);
  }

  /** A client that sleeps, or is started, is back as soon as a daemon answers it, and waits no longer than at first. */
  lemma {:induction false} ComesBack(c: Client, status: Message, now: nat)
    requires Invariant(c) && (c.link == Sleeping || c.link == Stopped) && status.id == Some(HELLO)
    ensures var back := Step(Step(Step(c, if c.link == Sleeping then Wake else Start), Open), Greet(status, now));
      && back.link == Reading && back.connected && back.state == status.state && back.connectedSince == Some(now)
      && back.backoff == 1 && back.closing == (c.closing && c.link == Sleeping)
  {
  }

  /** Whatever ends a connection puts the client to sleep, unless it is being closed. */
  lemma {:induction false} GoesToSleep(c: Client)
    requires Invariant(c) && (c.link == Connecting || c.link == Greeting || c.link == Reading)
    ensures var over := if c.link == Connecting then Step(c, ConnectFails) else Step(Step(c, ReadEnds), TearDown);
      over.link == if c.closing then Stopped else Sleeping
  {
  }

  /** Told to stop, the client stops at once, or as soon as an open connection has been torn down. */
  lemma {:induction false} StopsWhenTold(c: Client)
    requires Invariant(c)
    ensures var told := Step(c, Event.Stop);
      && told.closing && told.link == (if c.socket then Closing else Stopped)
      && (c.socket ==> Step(told, TearDown).link == Stopped)
  {
  }

  /** Once stopped it stays stopped, and unavailable, until it is started again. */
  lemma {:induction false} StaysStopped(c: Client, e: Event)
    requires Invariant(c) && c.link == Stopped && !e.Start?
    ensures Step(c, e).link == Stopped && !Step(c, e).connected
  {
    StepKeeps(c, e);
    match e {
      case Submit =>
      case Resume(k) =>
      case _ =>
    }
  }

  // ----- what becomes of a request -----

  /** A request goes on the wire, and is listed, exactly if the client is available; otherwise nothing happens. */
  lemma {:induction false} AcceptedExactly(c: Client)
    requires Invariant(c)
    ensures var after, n := Step(c, Submit), |c.requests|;
      if !c.connected then after == c
      else
        && after.log.sent == c.log.sent + [(c.log.connection, IdOf(n))]
        && |after.requests| == n + 1 && after.requests[..n] == c.requests && after.requests[n].phase == Sending
        && after.requests[n].future == Waiting && after.requests[n].interruption == Undisturbed
        && IdOf(n) in after.pending && after.pending[IdOf(n)] == n
  {
  }

  /** A request is waiting for its reply and nothing has happened to it. */
  predicate Waits(c: Client, k: nat) {
    && k < |c.requests| && c.requests[k].phase == Awaiting
    && c.requests[k].future == Waiting && c.requests[k].interruption == Undisturbed
  }

  predicate EndsWith(c: Client, k: nat, outcome: Outcome) {
    k < |c.requests| && c.requests[k].phase == Finished(outcome) && IdOf(k) !in c.pending
  }

  /** A request that could not be sent fails at once; one that was sent waits; no timer runs until then. */
  lemma {:induction false} SendingExactly(c: Client, k: nat)
    requires Invariant(c) && k < |c.requests| && c.requests[k].phase == Sending
    requires c.requests[k].interruption == Undisturbed
    ensures EndsWith(Step(c, SendFails(k)), k, Unreachable)
    ensures c.requests[k].future == Waiting ==> Waits(Step(c, SendDone(k)), k)
    ensures Step(c, Interrupt(k, Expired)) == c
  {
  }

  lemma {:induction false} ResumedEnds(c: Client, k: nat, outcome: Outcome)
    requires k < |c.requests| && c.requests[k].CanResume() && c.requests[k].Ending() == outcome
    ensures EndsWith(Step(c, Resume(k)), k, outcome)
  {
  }

  /** The reply that bears its id is the caller's, as an error if it is one. */
  lemma {:induction false} ReplyIsGiven(c: Client, k: nat, m: Message, now: nat)
    requires Invariant(c) && Waits(c, k) && c.link == Reading && m.id == Some(IdOf(k))
    ensures EndsWith(Step(Step(c, Arrive(m, now)), Resume(k)), k, if m.kind == "error" then Refused(m) else Answered(m))
  {
    assert Entry(c, k, c.requests[k]);
    IdsDiffer(c.pending[IdOf(k)], k);
    ResumedEnds(Step(c, Arrive(m, now)), k, if m.kind == "error" then Refused(m) else Answered(m));
  }

  /** A caller whose time is up is told so, and one that gives up is let go. */
  lemma {:induction false} InterruptionIsGiven(c: Client, k: nat)
    requires Invariant(c) && Waits(c, k)
    ensures EndsWith(Step(Step(c, Interrupt(k, Expired)), Resume(k)), k, TimedOut)
    ensures EndsWith(Step(Step(c, Interrupt(k, Abandoned)), Resume(k)), k, Withdrawn)
  {
    ResumedEnds(Step(c, Interrupt(k, Expired)), k, TimedOut);
    ResumedEnds(Step(c, Interrupt(k, Abandoned)), k, Withdrawn);
  }

  lemma {:induction false} TearingDownBreaks(c: Client, k: nat)
    requires Waits(c, k) && IdOf(k) in c.pending && c.link == Closing
    ensures var after := Step(c, TearDown);
      |after.requests| == |c.requests| && after.requests[k] == c.requests[k].(future := Broken)
  {
  }

  /** When the connection goes, everyone waiting is told. */
  lemma {:induction false} LossIsGiven(c: Client, k: nat)
    requires Invariant(c) && Waits(c, k) && (c.link == Reading || c.link == Closing)
    ensures var closing := if c.link == Reading then Step(c, ReadEnds) else c;
      EndsWith(Step(Step(closing, TearDown), Resume(k)), k, LinkLost)
  {
    assert Entry(c, k, c.requests[k]);
    var closing := if c.link == Reading then Step(c, ReadEnds) else c;
    TearingDownBreaks(closing, k);
    ResumedEnds(Step(closing, TearDown), k, LinkLost);
  }

  /** And nobody waits but while there is a connection to wait on. */
  lemma {:induction false} WaitingNeedsAConnection(c: Client, k: nat)
    requires Invariant(c) && Waits(c, k)
    ensures c.link == Reading || c.link == Closing
  {
    assert Entry(c, k, c.requests[k]);
  }
}
