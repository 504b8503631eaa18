/**
 * What every interleaving of requests, replies, events, timeouts, cancellations
 * and reconnections keeps.
 */
module ClientLaws {
  import opened Wrappers
  import opened Backoff
  import opened Powers
  import opened Ids
  import opened ClientSide
  import opened Sequences

  function Run(c: Client, events: seq<Event>): Client {
    if events == [] then c else Step(Run(c, Front(events)), Last(events))
  }

  // ----- the connection -----

  /** The connection's fields agree, and only connections that were established count as dropped. */
  predicate Linked(c: Client) {
    && (c.socket <==> c.link == Greeting || c.link == Reading || c.link == Closing)
    && (c.connectedSince.Some? ==> c.link == Reading || c.link == Closing)
    && (c.link == Reading ==> c.connectedSince.Some?)
    && (c.state.Some? || c.connected || c.pending != map[] ==> c.connectedSince.Some?)
    && c.log.established == c.disconnects + (if c.connectedSince.Some? then 1 else 0)
    && c.backoff == Widened(INITIAL_BACKOFF, MAX_BACKOFF, c.log.waits)
  }

  /** Listeners hear of changes only, and have heard of the last one. */
  predicate ToldOfChanges(c: Client) {
    && (forall i :: 0 <= i < |c.log.told| ==> c.log.told[i] == (i % 2 == 0))
    && c.connected == (|c.log.told| % 2 == 1)
  }

  // ----- the requests -----

  /** Ids count up, an id goes on the wire once, and every entry leads to the request that bears its id. */
  ghost predicate Numbered(c: Client) {
    && c.nextId == |c.requests| == |c.log.sent|
    && (forall k :: 0 <= k < |c.requests| ==> c.log.sent[k] == (c.requests[k].connection, IdOf(k)))
    && (forall id :: id in c.pending ==> c.pending[id] < |c.requests| && id == IdOf(c.pending[id]))
  }

  predicate Silent(received: seq<(nat, Message)>, id: string, from: nat, to: nat) {
    forall j :: from <= j < to && j < |received| ==> received[j].1.id != Some(id)
  }

  /** The message at `at` is the first bearing the request's id since it was sent, and came by the same connection. */
  predicate FirstReply(received: seq<(nat, Message)>, k: nat, r: Request, m: Message, at: nat) {
    && r.since <= at < |received| && received[at] == (r.connection, m) && m.id == Some(IdOf(k))
    && Silent(received, IdOf(k), r.since, at)
  }

  predicate Heard(received: seq<(nat, Message)>, k: nat, r: Request) {
    match r.future
    case Settled(m, at) => FirstReply(received, k, r, m, at)
    case Waiting => r.phase.Finished? || Silent(received, IdOf(k), r.since, |received|)
    case Cancelled => r.interruption != Undisturbed
    case Broken => true
  }

  /** A request is answered only by the message bearing its id; every other ending is an error with its own cause. */
  predicate Fits(r: Request, outcome: Outcome) {
    match outcome
    case Answered(m) => r.future.Settled? && r.future.message == m && m.kind != "error"
    case Refused(m) => r.future.Settled? && r.future.message == m && m.kind == "error"
    case TimedOut => r.interruption == Expired
    case LinkLost => r.future == Broken
    case Withdrawn => r.interruption == Abandoned
    case Unreachable => true
  }

  predicate Entry(c: Client, k: nat, r: Request) {
    && r.since <= |c.log.received| && r.connection <= c.log.connection
    && (c.link == Greeting ==> r.connection < c.log.connection)
    && (IdOf(k) in c.pending <==> !r.phase.Finished? && c.connectedSince.Some? && r.connection == c.log.connection)
    && (r.future == Waiting && !r.phase.Finished? ==> IdOf(k) in c.pending)
    && Heard(c.log.received, k, r)
    && (r.phase.Finished? ==> Fits(r, r.phase.outcome))
  }

  predicate Entries(c: Client) {
    forall k :: 0 <= k < |c.requests| ==> Entry(c, k, c.requests[k])
  }

  ghost predicate Invariant(c: Client) {
    Linked(c) && ToldOfChanges(c) && Numbered(c) && Entries(c)
  }

  // ----- each step keeps them -----

  lemma {:induction false} SubmittedKeeps(c: Client)
    requires Invariant(c)
    ensures Invariant(Submitted(c).0)
  {
    var (after, ok) := Submitted(c);
    if ok {
      var n := c.nextId;
      forall k | 0 <= k < n ensures IdOf(k) != IdOf(n) {
        IdsDiffer(k, n);
      }
      forall k | 0 <= k < |after.requests| ensures Entry(after, k, after.requests[k]) {
        if k < n {
          assert Entry(c, k, c.requests[k]);
        }
      }
    }
  }

  /** A change to one request that leaves its entry alone. */
  lemma {:induction false} OneChanged(c: Client, k: nat, r: Request)
    requires Invariant(c) && k < |c.requests|
    requires r.connection == c.requests[k].connection && Entry(c, k, r)
    ensures Invariant(c.(requests := c.requests[k := r]))
  {
    var after := c.(requests := c.requests[k := r]);
    forall j | 0 <= j < |after.requests| ensures Entry(after, j, after.requests[j]) {
      assert Entry(c, j, c.requests[j]);
    }
  }

  lemma {:induction false} EndedKeeps(c: Client, k: nat, outcome: Outcome)
    requires Invariant(c) && k < |c.requests| && !c.requests[k].phase.Finished? && Fits(c.requests[k], outcome)
    ensures Invariant(Ended(c, k, outcome))
  {
    var after := Ended(c, k, outcome);
    forall j | 0 <= j < |after.requests| ensures Entry(after, j, after.requests[j]) {
      assert Entry(c, j, c.requests[j]);
      IdsDiffer(j, k);
    }
  }

  lemma {:induction false} ResumedKeeps(c: Client, k: nat)
    requires Invariant(c)
    ensures Invariant(Resumed(c, k))
  {
    if k < |c.requests| && c.requests[k].CanResume() {
      assert Entry(c, k, c.requests[k]);
      EndedKeeps(c, k, c.requests[k].Ending());
    }
  }

  lemma {:induction false} InterruptedKeeps(c: Client, k: nat, why: Interruption)
    requires Invariant(c)
    ensures Invariant(Interrupted(c, k, why))
  {
    if k < |c.requests| {
      var after := Interrupted(c, k, why);
      var r := after.requests[k];
      assert Entry(c, k, c.requests[k]);
      assert after == c.(requests := c.requests[k := r]);
      OneChanged(c, k, r);
    }
  }

  lemma {:induction false} SendingKeeps(c: Client, k: nat)
    requires Invariant(c)
    ensures Invariant(DoneSending(c, k)) && Invariant(FailedSending(c, k))
  {
    if k < |c.requests| && c.requests[k].phase == Sending && c.requests[k].interruption == Undisturbed {
      assert Entry(c, k, c.requests[k]);
      OneChanged(c, k, c.requests[k].(phase := Awaiting));
      EndedKeeps(c, k, Unreachable);
    }
  }

  lemma {:induction false} AvailableKeeps(c: Client, available: bool)
    requires ToldOfChanges(c)
    ensures ToldOfChanges(Available(c, available)) && Available(c, available).connected == available
  {
  }

  /** Logging a message concerns only the request it is addressed to. */
  lemma {:induction false} HeardLater(received: seq<(nat, Message)>, k: nat, r: Request, next: (nat, Message))
    requires Heard(received, k, r) && r.since <= |received|
    requires r.future == Waiting && !r.phase.Finished? ==> next.1.id != Some(IdOf(k))
    ensures Heard(received + [next], k, r)
  {
  }

  lemma {:induction false} EntryLater(c: Client, k: nat, r: Request, m: Message)
    requires Entry(c, k, r) && (r.future == Waiting && !r.phase.Finished? ==> m.id != Some(IdOf(k)))
    ensures Entry(Logged(c, m), k, r)
  {
    HeardLater(c.log.received, k, r, (c.log.connection, m));
  }

  lemma {:induction false} Replying(c: Client, k: nat, r: Request, m: Message)
    requires Entry(c, k, r) && r.future == Waiting && m.id == Some(IdOf(k)) && m.id.value in c.pending
    ensures Entry(Logged(c, m), k, r.(future := Settled(m, |c.log.received|)))
  {
    var received := c.log.received;
    assert Silent(received, IdOf(k), r.since, |received|);
    assert FirstReply(received + [(c.log.connection, m)], k, r, m, |received|);
  }

  lemma {:induction false} RepliedEntries(c: Client, m: Message)
    requires Numbered(c) && Entries(c) && m.id.Some? && m.id.value in c.pending
    ensures Entries(Replied(c, c.pending[m.id.value], m))
  {
    var k := c.pending[m.id.value];
    var after := Replied(c, k, m);
    forall j | 0 <= j < |after.requests| ensures Entry(after, j, after.requests[j]) {
      var r := c.requests[j];
      assert Entry(c, j, r);
      IdsDiffer(j, k);
      if j == k && r.future == Waiting {
        Replying(c, k, r, m);
      } else {
        EntryLater(c, j, r, m);
      }
    }
  }

  lemma {:induction false} LoggedEntries(c: Client, m: Message)
    requires Entries(c) && (m.id.None? || m.id.value !in c.pending)
    ensures Entries(Logged(c, m))
  {
    var after := Logged(c, m);
    forall j | 0 <= j < |after.requests| ensures Entry(after, j, after.requests[j]) {
      assert Entry(c, j, c.requests[j]);
      EntryLater(c, j, c.requests[j], m);
    }
  }

  /** Nothing that concerns the requests has changed. */
  predicate Apart(c: Client, after: Client) {
    && after.requests == c.requests && after.pending == c.pending && after.nextId == c.nextId
    && after.log.sent == c.log.sent && after.log.received == c.log.received && after.log.connection == c.log.connection
    && after.connectedSince.Some? == c.connectedSince.Some? && (after.link == Greeting ==> c.link == Greeting)
  }

  lemma {:induction false} ApartKeeps(c: Client, after: Client)
    requires Numbered(c) && Entries(c) && Apart(c, after)
    ensures Numbered(after) && Entries(after)
  {
    forall k | 0 <= k < |after.requests| ensures Entry(after, k, after.requests[k]) {
      assert Entry(c, k, c.requests[k]);
    }
  }

  lemma {:induction false} RepliedKeeps(c: Client, m: Message)
    requires Invariant(c) && m.id.Some? && m.id.value in c.pending
    ensures Invariant(Replied(c, c.pending[m.id.value], m))
  {
    RepliedEntries(c, m);
  }

  lemma {:induction false} NoticedLinked(c: Client, m: Message, now: nat)
    requires Linked(c) && ToldOfChanges(c) && c.link == Reading
    ensures Linked(Noticed(c, m, now)) && ToldOfChanges(Noticed(c, m, now)) && Apart(c, Noticed(c, m, now))
  {
    if m.kind == "device_state" {
      AvailableKeeps(c.(state := m.state), m.state != Some("faulted"));
    }
  }

  lemma {:induction false} NoticedKeeps(c: Client, m: Message, now: nat)
    requires Invariant(c) && c.link == Reading
    ensures Invariant(Noticed(c, m, now))
  {
    NoticedLinked(c, m, now);
    ApartKeeps(c, Noticed(c, m, now));
  }

  lemma {:induction false} LoggedKeeps(c: Client, m: Message)
    requires Invariant(c) && (m.id.None? || m.id.value !in c.pending)
    ensures Invariant(Logged(c, m))
  {
    LoggedEntries(c, m);
  }

  lemma {:induction false} DispatchedKeeps(c: Client, m: Message, now: nat)
    requires Invariant(c)
    ensures Invariant(Dispatched(c, m, now))
  {
    if c.link == Reading {
      if m.id.Some? && m.id.value in c.pending {
        RepliedKeeps(c, m);
      } else {
        LoggedKeeps(c, m);
        NoticedKeeps(Logged(c, m), m, now);
      }
    }
  }

  lemma {:induction false} TornDownKeeps(c: Client)
    requires Invariant(c)
    ensures Invariant(TornDown(c))
  {
    var after := TornDown(c);
    AvailableKeeps(Disconnected(c), false);
    forall k | 0 <= k < |after.requests| ensures Entry(after, k, after.requests[k]) {
      assert Entry(c, k, c.requests[k]);
    }
  }

  lemma {:induction false} OpenedKeeps(c: Client)
    requires Invariant(c)
    ensures Invariant(Opened(c))
  {
    var after := Opened(c);
    forall k | 0 <= k < |after.requests| ensures Entry(after, k, after.requests[k]) {
      assert Entry(c, k, c.requests[k]);
    }
  }

  lemma {:induction false} GreetedKeeps(c: Client, status: Message, now: nat)
    requires Invariant(c)
    ensures Invariant(Greeted(c, status, now))
  {
    var after := Greeted(c, status, now);
    forall k | 0 <= k < |after.requests| ensures Entry(after, k, after.requests[k]) {
      assert Entry(c, k, c.requests[k]);
    }
  }

  lemma {:induction false} StartedKeeps(c: Client)
    requires Invariant(c)
    ensures Invariant(Started(c))
  {
    ApartKeeps(c, Started(c));
  }

  lemma {:induction false} WokenKeeps(c: Client)
    requires Invariant(c)
    ensures Invariant(Woken(c))
  {
    ApartKeeps(c, Woken(c));
  }

  lemma {:induction false} ReadEndsKeeps(c: Client)
    requires Invariant(c) && (c.link == Greeting || c.link == Reading)
    ensures Invariant(c.(link := Closing))
  {
    ApartKeeps(c, c.(link := Closing));
  }

  lemma {:induction false} HaltedKeeps(c: Client)
    requires Invariant(c)
    ensures Invariant(Halted(c))
  {
    var told := c.(closing := true);
    ApartKeeps(c, told);
    if c.link == Connecting {
      TornDownKeeps(told);
    } else {
      ApartKeeps(c, Halted(c));
    }
  }

  lemma {:induction false} StepKeeps(c: Client, e: Event)
    requires Invariant(c)
    ensures Invariant(Step(c, e))
  {
    match e {
      case Submit => SubmittedKeeps(c);
      case SendDone(k) => SendingKeeps(c, k);
      case SendFails(k) => SendingKeeps(c, k);
      case Interrupt(k, why) => InterruptedKeeps(c, k, why);
      case Resume(k) => ResumedKeeps(c, k);
      case Open => OpenedKeeps(c);
      case Greet(status, now) => GreetedKeeps(c, status, now);
      case Arrive(m, now) => DispatchedKeeps(c, m, now);
      case ConnectFails => TornDownKeeps(c);
      case TearDown => TornDownKeeps(c);
      case Start => StartedKeeps(c);
      case ReadEnds =>
        if c.link == Greeting || c.link == Reading {
          ReadEndsKeeps(c);
        }
      case Wake => WokenKeeps(c);
      case Stop => HaltedKeeps(c);
    }
  }

  // ----- what that comes to -----

  /**
   * In every state the client can reach: ids are never reused; a request that was answered was
   * answered by the first message bearing its id since it was sent, by the connection it was sent
   * over; and the diagnostics and the waits are what the connection's history says.
   */
  lemma {:induction false} Reachable(events: seq<Event>)
    ensures Invariant(Run(FRESH, events))
  {
    if events != [] {
      Reachable(Front(events));
      StepKeeps(Run(FRESH, Front(events)), Last(events));
    }
  }

  /** The reply a caller is given, or the error it is refused with, is its own. */
  lemma {:induction false} RepliesAreCorrelated(events: seq<Event>, k: nat, m: Message)
    requires var requests := Run(FRESH, events).requests;
      k < |requests| && (requests[k].phase == Finished(Answered(m)) || requests[k].phase == Finished(Refused(m)))
    ensures var c := Run(FRESH, events);
      exists at :: FirstReply(c.log.received, k, c.requests[k], m, at)
  {
    Reachable(events);
    var c := Run(FRESH, events);
    assert Entry(c, k, c.requests[k]);
    assert FirstReply(c.log.received, k, c.requests[k], m, c.requests[k].future.at);
  }

  lemma {:induction false} IdsAreNeverReused(events: seq<Event>, i: nat, j: nat)
    requires var sent := Run(FRESH, events).log.sent; i < |sent| && j < |sent| && sent[i].1 == sent[j].1
    ensures i == j
  {
    Reachable(events);
    IdsDiffer(i, j);
  }

  /** Ending one request, or settling it, does nothing to another. */
  lemma {:induction false} OthersUntouched(c: Client, j: nat, k: nat, outcome: Outcome, m: Message)
    requires j < |c.requests| && k < |c.requests| && j != k
    ensures Ended(c, j, outcome).requests[k] == c.requests[k]
    ensures |Replied(c, j, m).requests| == |c.requests| && Replied(c, j, m).requests[k] == c.requests[k]
  {
  }

  lemma {:induction false} FinishedIsNotDisturbed(c: Client, j: nat, k: nat, why: Interruption)
    requires k < |c.requests| && c.requests[k].phase.Finished?
    ensures |Interrupted(c, j, why).requests| == |c.requests| && Interrupted(c, j, why).requests[k] == c.requests[k]
  {
  }

  lemma {:induction false} FinishedIsNotSending(c: Client, j: nat, k: nat)
    requires k < |c.requests| && c.requests[k].phase.Finished?
    ensures |DoneSending(c, j).requests| == |c.requests| && DoneSending(c, j).requests[k] == c.requests[k]
    ensures |FailedSending(c, j).requests| == |c.requests| && FailedSending(c, j).requests[k] == c.requests[k]
    ensures |Resumed(c, j).requests| == |c.requests| && Resumed(c, j).requests[k] == c.requests[k]
  {
  }

  lemma {:induction false} FinishedIsNotListed(c: Client, k: nat)
    requires Invariant(c) && k < |c.requests| && c.requests[k].phase.Finished?
    ensures IdOf(k) !in c.pending
  {
    assert Entry(c, k, c.requests[k]);
  }

  lemma {:induction false} FinishedIsNotBroken(c: Client, k: nat)
    requires k < |c.requests| && IdOf(k) !in c.pending
    ensures |TornDown(c).requests| == |c.requests| && TornDown(c).requests[k] == c.requests[k]
  {
  }

  lemma {:induction false} FinishedIsNotSettled(c: Client, k: nat, m: Message, now: nat)
    requires Numbered(c) && k < |c.requests| && IdOf(k) !in c.pending
    ensures |Dispatched(c, m, now).requests| == |c.requests| && Dispatched(c, m, now).requests[k] == c.requests[k]
  {
    if m.id.Some? && m.id.value in c.pending {
      assert m.id.value == IdOf(c.pending[m.id.value]);
      OthersUntouched(c, c.pending[m.id.value], k, Unreachable, m);
    }
  }

  /** A request completes at most once: whatever happens next, a finished one is left as it is. */
  lemma {:induction false} FinishedStays(c: Client, e: Event, k: nat)
    requires Invariant(c) && k < |c.requests| && c.requests[k].phase.Finished?
    ensures k < |Step(c, e).requests| && Step(c, e).requests[k] == c.requests[k]
  {
    FinishedIsNotListed(c, k);
    match e {
      case SendDone(j) => FinishedIsNotSending(c, j, k);
      case SendFails(j) => FinishedIsNotSending(c, j, k);
      case Resume(j) => FinishedIsNotSending(c, j, k);
      case Interrupt(j, why) => FinishedIsNotDisturbed(c, j, k, why);
      case Arrive(m, now) => FinishedIsNotSettled(c, k, m, now);
      case ConnectFails => FinishedIsNotBroken(c, k);
      case TearDown => FinishedIsNotBroken(c, k);
      case Stop => FinishedIsNotBroken(c.(closing := true), k);
      case _ =>
    }
  }

  /** The moment a connection is over nobody is listed, nobody waits, and the link is down or being made again. */
  lemma {:induction false} NobodyOutlivesTheConnection(events: seq<Event>, k: nat)
    requires var c := Run(FRESH, events); c.connectedSince.None? && k < |c.requests|
    ensures var c := Run(FRESH, events);
      && c.pending == map[] && !c.connected && c.state.None?
      && (!c.requests[k].phase.Finished? ==> c.requests[k].future != Waiting)
      && (c.requests[k].phase == Awaiting ==> c.requests[k].CanResume())
  {
    Reachable(events);
    var c := Run(FRESH, events);
    assert Entry(c, k, c.requests[k]);
  }

  /** Nobody waits on a future that no dispatch can settle: an unfinished wait is listed under its id. */
  lemma {:induction false} NobodyIsForgotten(events: seq<Event>, k: nat)
    requires var c := Run(FRESH, events);
      k < |c.requests| && c.requests[k].phase == Awaiting && !c.requests[k].CanResume()
    ensures var c := Run(FRESH, events);
      IdOf(k) in c.pending && c.pending[IdOf(k)] == k && c.requests[k].connection == c.log.connection
  {
    Reachable(events);
    var c := Run(FRESH, events);
    assert Entry(c, k, c.requests[k]);
    IdsDiffer(c.pending[IdOf(k)], k);
  }

  /** The wait after n others in a row: a second doubled n times, at most a minute. */
  lemma {:induction false} WaitIsPower(events: seq<Event>)
    ensures var c := Run(FRESH, events);
      c.backoff == if TwoTo(c.log.waits) < 60 then TwoTo(c.log.waits) else 60
  {
    Reachable(events);
    WidenedIsPower(INITIAL_BACKOFF, MAX_BACKOFF, Run(FRESH, events).log.waits);
  }

  /** A daemon whose radio is already faulted when greeted counts as available until it says so again. */
  lemma {:induction false} FaultedGreetingIsAvailable(now: nat)
    ensures var faulted := Some("faulted");
      var greeted := Run(FRESH, [Start, Open, Greet(Message(Some(HELLO), "status", faulted), now)]);
      greeted.connected && greeted.state == faulted
  {
    var greet := Greet(Message(Some(HELLO), "status", Some("faulted")), now);
    assert Front([Start, Open, greet]) == [Start, Open];
    assert Front([Start, Open]) == [Start];
    assert Front([Start]) == [];
  }
}
