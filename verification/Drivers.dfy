/** The driver object. Its methods may be called in any order; what each
    promises is about the state and its history, not about the environment. */
module Drivers {
  import opened Wire
  import opened Exchanges
  import opened DriverStates
  import opened Duplicates
  import Coap

  datatype SendResult = Sent | SoftError | TransportError

  /** A reply given to a confirmable message. */
  datatype Reply = Reply(origin: Origin, messageId: u16, message: Coap.CoapMessage)

  /** What an unmatched message turns out to be: nothing known, a notification
      for the application, or a joiner's relayed payload, which gives rise to
      any number of events. */
  datatype Notice = Unrelated | Notification | RelayRx(events: nat)

  /** How an exchange came out: it failed, or it was answered with a message
      that may report a state. */
  datatype Outcome = Failed | Response(state: Option<ResultCode>)

  /** What wakes the driver. */
  datatype Operation =
    | Request(request: Outbound, id: nat)
    | Cancel(id: nat)
    | Control(control: Outbound, kind: Kind)
    | Timers
    | Receive(message: Coap.CoapMessage, origin: Origin, state: Option<ResultCode>, notice: Notice)
    | Dropped
    | Ended(reason: CloseReason)
    | Reopened

  /** Only an answered keep-alive is published. */
  function Answer(kind: Kind, outcome: Outcome): seq<Event> {
    if kind.KeepAlive? && outcome.Response? && outcome.state.Some? then [KeepAliveResponse(outcome.state.value)] else []
  }

  /** Why completing an exchange ends the session, if it does. */
  function EndedBy(kind: Kind, outcome: Outcome): Option<CloseReason> {
    match kind
    case KeepAlive =>
      (match outcome
       case Response(Some(Accepted)) => None
       case Response(Some(Rejected)) => Some(KeepAliveRejected)
       case Response(Some(StillPending)) => Some(KeepAlivePending)
       case _ => Some(KeepAliveFailed))
    case Resign => Some(Resigned)
    case _ => None
  }

  /** A Reset fails the exchange it answers. */
  function OutcomeOf(m: Coap.CoapMessage, state: Option<ResultCode>): Outcome {
    if m.kind == Coap.Reset then Failed else Response(state)
  }

  /** The events a notice gives rise to. */
  function News(notice: Notice): seq<Event> {
    match notice
    case Unrelated => []
    case Notification => [Notified]
    case RelayRx(events) => seq(events, _ => JoinerEvent)
  }

  function EmptyAck(messageId: u16): Coap.CoapMessage {
    Coap.CoapMessage(Coap.Acknowledgement, Coap.EMPTY, messageId, [], [], [])
  }

  function EmptyChanged(m: Coap.CoapMessage): Coap.CoapMessage {
    Coap.CoapMessage(Coap.Acknowledgement, Coap.CHANGED, m.messageId, m.token, [], [])
  }

  predicate IsResponse(m: Coap.CoapMessage) {
    m.code as int / 32 in {2, 4, 5}
  }

  predicate IsEmptyFor(m: Coap.CoapMessage, messageId: u16) {
    m.code == Coap.EMPTY && m.messageId == messageId && m.token == [] && m.options == [] && m.payload == []
  }

  /** An empty acknowledgement of a pending request, on its route. */
  predicate Acks(m: Coap.CoapMessage, proxied: bool, p: Pending) {
    p.proxied == proxied && m.kind == Coap.Acknowledgement && IsEmptyFor(m, p.messageId)
  }

  /** A Reset of a pending request or a response with its token, on its route. */
  predicate Completes(m: Coap.CoapMessage, proxied: bool, p: Pending) {
    && p.proxied == proxied
    && ((m.kind == Coap.Reset && IsEmptyFor(m, p.messageId)) || (IsResponse(m) && m.token == p.token))
  }

  ghost predicate FirstToAck(m: Coap.CoapMessage, proxied: bool, inFlight: seq<Pending>, i: int) {
    0 <= i < |inFlight| && Acks(m, proxied, inFlight[i]) && forall j :: 0 <= j < i ==> !Acks(m, proxied, inFlight[j])
  }

  ghost predicate FirstToComplete(m: Coap.CoapMessage, proxied: bool, inFlight: seq<Pending>, i: int) {
    && 0 <= i < |inFlight| && Completes(m, proxied, inFlight[i])
    && forall j :: 0 <= j < i ==> !Completes(m, proxied, inFlight[j])
  }

  /** A state of the driver with the replies it remembers and gave. */
  datatype Moment = Moment(state: State, log: seq<Answered>, replies: seq<Reply>)

  /** What becomes of a confirmable message that arrives at time `at`, if it is
      among the newest 64 unexpired answered ones: it gets the same reply again
      and has no other effect, save that a broken link ends the session. */
  ghost predicate Repeats(m: Coap.CoapMessage, origin: Origin, at: nat, s: Moment, t: Moment) {
    var newest := Newest(Unexpired(s.log, at));
    && AtMostOnce(newest)
    && match Found(newest, origin, m.messageId)
       case None => true
       case Some(reply) => SameAgain(s, t, at, Reply(origin, m.messageId, reply))
  }

  ghost predicate SameAgain(s: Moment, t: Moment, at: nat, reply: Reply) {
    && t.replies == s.replies + [reply] && t.log == s.log
    && t.state.closed in {None, Some(TransportFailed)} && t.state.events == s.state.events + Loss(s.state, t.state)
    && (t.state.closed.None? ==> t.state == s.state.(now := at))
  }

  /** The replies given to confirmable messages. */
  class Outbox {
    ghost var replies: seq<Reply>

    constructor ()
      ensures replies == []
    {
      replies := [];
    }
  }

  class Driver {
    /** Why the session ended, once it has. */
    var closed: Option<CloseReason>
    var inFlight: seq<Pending>
    var queued: seq<Queued>
    var nextMessageId: u16
    /** The last reading of the clock. */
    var now: nat
    /** What was published. */
    var events: seq<Event>
    var serials: nat
    ghost var consumed: seq<nat>
    ghost var firstSent: seq<nat>
    ghost var sends: map<nat, seq<nat>>
    const answered: AnsweredMessages
    const outbox: Outbox

    ghost function Value(): State
      reads this
    {
      State(closed, inFlight, queued, now, events, serials, consumed, firstSent, sends)
    }

    constructor ()
      ensures Value() == Initial() && Cached() && fresh(answered) && fresh(outbox)
    {
      closed, inFlight, queued, nextMessageId, now := None, [], [], 0, 0;
      events, serials, consumed, firstSent, sends := [], 0, [], [], map[];
      answered := new AnsweredMessages();
      outbox := new Outbox();
    }

    /** The record of answered messages is in order. */
    ghost predicate Cached()
      reads this, answered
    {
      answered.Valid() && answered.since <= now
    }

    /** Everything the history of a run is about. */
    ghost function Snapshot(): Moment
      reads this, answered, outbox
    {
      Moment(Value(), answered.log, outbox.replies)
    }

    // ---- The environment ----

    method ReadClock()
      modifies this`now
      ensures now >= old(now)
    {
      var t: nat :| t >= now;
      now := t;
    }

    /** `assign_identity`: the next message ID and a token no exchange in flight
        uses. */
    method AssignIdentity() returns (messageId: u16, token: bytes)
      modifies this`nextMessageId
      ensures !Uses(inFlight, token) && messageId == (old(nextMessageId) + 1) % 0x1_0000
    {
      nextMessageId := (nextMessageId + 1) % 0x1_0000;
      messageId := nextMessageId;
      ghost var unused := UnusedTokenExists(inFlight);
      token :| !Uses(inFlight, token);
    }

    /** `wire_message`: a proxied request is wrapped under an identity of its
        own, which can fail. */
    method WireMessage(proxied: bool) returns (ok: bool)
      modifies this`nextMessageId
    {
      ok := true;
      if proxied {
        ok := *;
        if ok {
          var _, _ := AssignIdentity();
        }
      }
    }

    // ---- Sending ----

    method SendQueued()
      requires Valid(Value())
      modifies this
      ensures Valid(Value()) && Onward(old(Value()), Value(), 0) && Settled(Value())
      ensures Places(Value()) == Places(old(Value()))
      decreases if closed.None? then 1 else 0, |queued|, 1
    {
      hide Valid, Onward, Places, Applications;
      ghost var start := Value();
      OnwardSame(start);
      while Applications(inFlight) < MAX_APPLICATION_IN_FLIGHT
        invariant Valid(Value()) && Onward(start, Value(), 0) && Places(Value()) == Places(start)
        invariant closed.None? ==> start.closed.None?
        invariant |queued| <= |start.queued|
        decreases |queued|
      {
        if queued == [] {
          return;
        }
        ghost var before := Value();
        var next := queued[0];
        PopKeeps(before);
        queued := queued[1..];
        ghost var popped := Value();
        Start(next.request, next.completion);
        StartedFromQueue(start, before, popped, Value(), next.completion.serial);
        if closed.Some? {
          ClosedIsSettled(Value());
          return;
        }
      }
      FullIsSettled(Value());
    }

    /** Sends a request and tracks its response. */
    method Start(request: Outbound, completion: Completion)
      requires Valid(Value()) && closed.None? && Startable(Value(), completion)
      modifies this
      ensures Valid(Value()) && Onward(old(Value()), Value(), 1)
      ensures Places(Value()) == Places(old(Value())) + multiset{completion.serial}
      ensures Settled(old(Value())) && !completion.kind.Caller? ==> Settled(Value())
      decreases if closed.None? then 1 else 0, |queued|, 4
    {
      hide Valid, Onward, Places, Applications, Settled, FirstSent, Increasing, NewPending;
      ghost var start := Value();
      var messageId, token := AssignIdentity();
      var wrapped := WireMessage(request.proxied);
      OnwardSame(start);
      if !wrapped {
        Complete(completion, Failed);
        Weaken(start, Value(), 0);
        return;
      }
      ReadClock();
      ghost var read := Value();
      ClockKeeps(start, read);
      var result: SendResult := *;
      if result != Sent {
        FailSend(completion, result == TransportError);
        OnwardTwice(start, read, Value(), 0, 0);
        Weaken(start, Value(), 0);
        return;
      }
      SentKeeps(read, completion);
      if completion.kind.Caller? {
        firstSent := firstSent + [completion.serial];
      }
      sends := sends[completion.serial := [now]];
      ghost var sent := Value();
      FirstSentIs(read, sent, completion);
      OnwardTwice(start, read, sent, 0, 0);
      SettledToo(start, sent);
      if !request.expectResponse {
        Complete(completion, Response(None));
        OnwardTwice(start, sent, Value(), 0, 0);
        Weaken(start, Value(), 0);
        return;
      }
      Track(request, completion, messageId, token);
      OnwardTwice(start, sent, Value(), 0, 1);
    }

    /** Waits for the response to a request just sent. */
    method Track(request: Outbound, completion: Completion, messageId: u16, token: bytes)
      requires Valid(Value()) && closed.None? && !Uses(inFlight, token) && NotInFlight(inFlight, completion.serial)
      requires completion.serial in sends && sends[completion.serial] == [now]
      requires completion.kind.Caller? ==> Applications(inFlight) == 0
      modifies this
      ensures Valid(Value()) && Onward(old(Value()), Value(), 1)
      ensures Places(Value()) == Places(old(Value())) + multiset{completion.serial}
      ensures Settled(old(Value())) ==> Settled(Value())
    {
      hide Valid, Onward, Places, Applications, Settled, NewPending, NotInFlight;
      ghost var start := Value();
      var draw: nat :| true;
      var pending := NewPending(request, completion, messageId, token, draw, now);
      TrackedFromStart(start, request, completion, messageId, token, draw);
      PendingIs(request, completion, messageId, token, draw, now);
      PushKeeps(start, pending);
      inFlight := inFlight + [pending];
      PushedSettled(start, Value());
    }

    /** A transport failure ends the session before the request fails. */
    method FailSend(completion: Completion, transport: bool)
      requires Valid(Value())
      modifies this
      ensures Valid(Value()) && Onward(old(Value()), Value(), 0)
      ensures Places(Value()) == Places(old(Value())) + multiset{completion.serial}
      ensures Settled(old(Value())) && !completion.kind.Caller? ==> Settled(Value())
      ensures transport ==> closed.Some?
      decreases if closed.None? then 1 else 0, |queued|, 3
    {
      hide Valid, Onward, Places, Settled;
      ghost var start := Value();
      OnwardSame(start);
      if transport {
        EndSession(TransportFailed);
      }
      ghost var middle := Value();
      OnwardSame(middle);
      OpenAndQueue(start, middle);
      Complete(completion, Failed);
      OpenAndQueue(middle, Value());
      OnwardTwice(start, middle, Value(), 0, 0);
    }

    // ---- Completing ----

    /** Hands the outcome to whoever waits. A finished application request lets
        the next one go; an answered keep-alive is published; a failed or
        refused one and any resignation end the session. */
    method Complete(completion: Completion, outcome: Outcome)
      requires Valid(Value())
      modifies this
      ensures Valid(Value()) && Onward(Heard(old(Value()), Answer(completion.kind, outcome)), Value(), 0)
      ensures Answer(completion.kind, outcome) == [] ==> Onward(old(Value()), Value(), 0)
      ensures Places(Value()) == Places(old(Value())) + multiset{completion.serial}
      ensures completion.kind.Caller? || Settled(old(Value())) ==> Settled(Value())
      ensures completion.serial in consumed
      ensures !completion.kind.Caller? ==>
                closed == if old(closed).Some? then old(closed) else EndedBy(completion.kind, outcome)
      decreases if closed.None? then 1 else 0, |queued|, 2
    {
      hide Valid, Onward, Places, Settled;
      HeardNothing(Value());
      ghost var start := Heard(Value(), Answer(completion.kind, outcome));
      HeardKeeps(Value(), Answer(completion.kind, outcome));
      events := events + Answer(completion.kind, outcome);
      if completion.kind.Resign? {
        EndSession(Resigned);
        ghost var middle := Value();
        ConsumeKeeps(middle, completion.serial);
        consumed := consumed + [completion.serial];
        OnwardTwice(start, middle, Value(), 0, 0);
        ClosedIsSettled(Value());
        return;
      }
      ConsumeKeeps(start, completion.serial);
      consumed := consumed + [completion.serial];
      ghost var middle := Value();
      SettledToo(start, middle);
      OnwardSame(middle);
      if completion.kind.Caller? {
        SendQueued();
      } else if EndedBy(completion.kind, outcome).Some? {
        EndSession(EndedBy(completion.kind, outcome).value);
      }
      OnwardTwice(start, middle, Value(), 0, 0);
      ConsumedGrows(middle, Value(), completion.serial);
    }

    /** Ends the session unless it has ended: fails everything outstanding, and
        publishes the loss unless the application ended the session. */
    method EndSession(reason: CloseReason)
      requires Valid(Value())
      modifies this
      ensures Valid(Value()) && Onward(old(Value()), Value(), 0) && Settled(Value())
      ensures closed == if old(closed).Some? then old(closed) else Some(reason)
      ensures Places(Value()) == Places(old(Value()))
      decreases if closed.None? then 1 else 0, |queued|, 1
    {
      hide Valid, Onward, Places;
      ghost var start := Value();
      if closed.Some? {
        OnwardSame(start);
        return;
      }
      closed := Some(reason);
      DrainKeeps(start, Some(reason));
      var completions := Completions(inFlight, queued);
      inFlight, queued := [], [];
      ghost var drained := Value();
      FailAll(completions);
      ghost var failed := Value();
      if reason != Resigned {
        events := events + [SessionLost(reason)];
      }
      EndedOnward(start, drained, failed, Value());
      ClosedIsSettled(Value());
    }

    /** Fails what was drained. */
    method FailAll(completions: seq<Completion>)
      requires Valid(Value()) && queued == []
      modifies this
      ensures Valid(Value()) && Onward(old(Value()), Value(), 0) && queued == []
      ensures Places(Value()) == Places(old(Value())) + multiset(CompletionSerials(completions))
      decreases if closed.None? then 1 else 0, |queued|, 3
    {
      hide Valid, Onward, Places;
      ghost var start := Value();
      OnwardSame(start);
      assert CompletionSerials(completions[..0]) == [];
      for i := 0 to |completions|
        invariant Valid(Value()) && Onward(start, Value(), 0) && queued == [] && (closed.None? ==> start.closed.None?)
        invariant Places(Value()) == Places(start) + multiset(CompletionSerials(completions[..i]))
      {
        ghost var before := Value();
        Complete(completions[i], Failed);
        OpenAndQueue(before, Value());
        OnwardTwice(start, before, Value(), 0, 0);
        assert completions[..i + 1] == completions[..i] + [completions[i]];
        assert CompletionSerials(completions[..i + 1]) == CompletionSerials(completions[..i]) + [completions[i].serial];
      }
      assert completions[..|completions|] == completions;
    }

    // ---- Operations ----

    /** Queues an application request, sending it when the slot is free. */
    method Submit(request: Outbound, id: nat)
      requires Ready(Value()) && closed.None?
      modifies this
      ensures Ready(Value()) && serials == old(serials) + 1 && now >= old(now)
      ensures events == old(events) + Loss(old(Value()), Value())
    {
      hide Valid, Onward, Places;
      EnqueueKeeps(Value(), request, id);
      queued := queued + [Queued(request, Completion(Caller(id), serials))];
      serials := serials + 1;
      ghost var middle := Value();
      SendQueued();
      SameSerials(middle, Value());
    }

    /** Forgets the request `id`, queued or in flight, if there is one. */
    method Withdraw(id: nat) returns (found: bool)
      requires Ready(Value())
      modifies this
      ensures Ready(Value()) && serials == old(serials) && now >= old(now)
      ensures events == old(events) + Loss(old(Value()), Value())
      ensures found <==> old(HasCaller(inFlight, queued, id))
    {
      hide Valid, Onward, Places, Settled;
      ghost var start := Value();
      for i := 0 to |queued|
        invariant Value() == start
        invariant forall j :: 0 <= j < i ==> queued[j].completion.kind != Caller(id)
      {
        if queued[i].completion.kind == Caller(id) {
          UnqueueKeeps(start, i);
          queued := Without(queued, i);
          Forget(start.queued[i].completion.serial);
          return true;
        }
      }
      for i := 0 to |inFlight|
        invariant Value() == start
        invariant forall j :: 0 <= j < i ==> inFlight[j].completion.kind != Caller(id)
      {
        if inFlight[i].completion.kind == Caller(id) {
          RemoveKeeps(start, i);
          inFlight := Without(inFlight, i);
          Forget(start.inFlight[i].completion.serial);
          return true;
        }
      }
      found := false;
    }

    /** A withdrawn request is consumed, and the next one may go. */
    method Forget(ghost serial: nat)
      requires Valid(Value()) && Places(Value()) + multiset{serial} == UpTo(serials)
      modifies this
      ensures Ready(Value()) && serials == old(serials) && now >= old(now)
      ensures events == old(events) + Loss(old(Value()), Value())
    {
      hide Valid, Onward, Places;
      ConsumeKeeps(Value(), serial);
      consumed := consumed + [serial];
      ghost var middle := Value();
      SendQueued();
      SameSerials(middle, Value());
    }

    /** A petition, keep-alive or resignation. */
    method StartControl(request: Outbound, kind: Kind)
      requires Ready(Value()) && closed.None? && !kind.Caller?
      modifies this
      ensures Ready(Value()) && serials == old(serials) + 1 && now >= old(now)
      ensures events == old(events) + Loss(old(Value()), Value())
    {
      hide Valid, Onward, Places, Settled;
      ControlKeeps(Value());
      var completion := Completion(kind, serials);
      serials := serials + 1;
      ghost var middle := Value();
      Start(request, completion);
      SameSerials(middle, Value());
    }

    /** The border agent closed an unpetitioned session: everything fails, but
        the session can be reopened. */
    method PeerClosed()
      requires Ready(Value()) && closed.None?
      modifies this
      ensures Ready(Value()) && serials == old(serials) && queued == [] && now >= old(now)
      ensures events == old(events) + Loss(old(Value()), Value())
    {
      hide Valid, Onward, Places;
      ghost var start := Value();
      DrainKeeps(start, None);
      var completions := Completions(inFlight, queued);
      inFlight, queued := [], [];
      ghost var middle := Value();
      FailAll(completions);
      SameSerials(middle, Value());
    }

    /** Retransmits and expires what is due at the time the pass begins. */
    method RunExchangeTimers() returns (pass: nat)
      requires Ready(Value()) && closed.None?
      modifies this
      ensures Ready(Value()) && serials == old(serials) && now >= pass >= old(now)
      ensures events == old(events) + Loss(old(Value()), Value())
      ensures closed.None? ==> AllRest(inFlight, 0, pass)
      ensures closed.None? ==> forall k :: 0 <= k < |old(inFlight)| ==>
                           PassedOver(old(inFlight)[k], old(Value()), Value(), pass)
    {
      hide Valid, Onward, Places, Settled, Passing, PassedOver, Retried;
      ghost var start := Value();
      ReadClock();
      pass := now;
      PassStarts(start, Value(), pass);
      InFlightDistinct(start);
      var index := 0;
      ghost var done := 0;
      while index < |inFlight|
        invariant Passing(start, Value(), index, done, pass)
        decreases |queued| + |inFlight| - index
      {
        ghost var s := Value();
        PassingFacts(start, s, index, done, pass);
        var pending := inFlight[index];
        if pending.deadline <= pass {
          RemoveKeeps(s, index);
          inFlight := Without(inFlight, index);
          ghost var t := Value();
          Complete(pending.completion, Failed);
          SameSerials(t, Value());
          if closed.Some? {
            ClosedIsSettled(Value());
            return;
          }
          PassExpires(start, s, t, Value(), index, done, pass);
          Shrinks(t, Value());
          done := done + 1;
        } else if RetryDue(pending, pass) {
          var result: SendResult := *;
          var wrapped := WireMessage(pending.proxied);
          if wrapped && result == TransportError {
            EndSession(TransportFailed);
            SameSerials(s, Value());
            return;
          }
          PassRetries(start, s, index, done, pass);
          sends := sends[pending.completion.serial := sends[pending.completion.serial] + [pass]];
          inFlight := inFlight[index := Retried(pending, pass)];
          index, done := index + 1, done + 1;
        } else {
          PassSkips(start, s, index, done, pass);
          done := if done < |start.inFlight| then done + 1 else done;
          index := index + 1;
        }
      }
      ghost var s := Value();
      PassingFacts(start, s, index, done, pass);
      SendQueued();
      SameSerials(s, Value());
      if closed.None? {
        PassEnds(start, s, Value(), index, done, pass);
      }
    }

    // ---- Incoming messages ----

    /** Stops retransmitting the request that `m` acknowledges. */
    method Acknowledge(m: Coap.CoapMessage, proxied: bool) returns (matched: bool)
      requires Ready(Value())
      modifies this`inFlight
      ensures Ready(Value()) && |inFlight| == |old(inFlight)|
      ensures matched <==> exists i :: 0 <= i < |old(inFlight)| && Acks(m, proxied, old(inFlight)[i])
      ensures matched ==> exists i :: FirstToAck(m, proxied, old(inFlight), i)
                                      && inFlight == old(inFlight)[i := old(inFlight)[i].(retryAt := None)]
      ensures !matched ==> inFlight == old(inFlight)
    {
      hide Valid, Places, Settled, Acks;
      ghost var start := Value();
      for i := 0 to |inFlight|
        invariant Value() == start
        invariant forall j :: 0 <= j < i ==> !Acks(m, proxied, inFlight[j])
      {
        if Acks(m, proxied, inFlight[i]) {
          AcknowledgeKeeps(start, i);
          assert FirstToAck(m, proxied, start.inFlight, i);
          inFlight := inFlight[i := inFlight[i].(retryAt := None)];
          return true;
        }
      }
      matched := false;
    }

    /** Takes the exchange `m` answers out of flight: the first it completes,
        and the only one its token can belong to. */
    method TakeAnswered(m: Coap.CoapMessage, proxied: bool) returns (taken: Option<Completion>)
      requires Valid(Value())
      modifies this`inFlight
      ensures Valid(Value()) && (taken.None? ==> inFlight == old(inFlight))
      ensures taken.None? ==> forall i :: 0 <= i < |inFlight| ==> !Completes(m, proxied, inFlight[i])
      ensures taken.Some? ==> Places(Value()) + multiset{taken.value.serial} == Places(old(Value()))
      ensures taken.Some? ==> exists i :: FirstToComplete(m, proxied, old(inFlight), i)
                                          && taken.value == old(inFlight)[i].completion
                                          && inFlight == Without(old(inFlight), i)
                                          && (m.token == old(inFlight)[i].token ==>
                                                forall j :: 0 <= j < |old(inFlight)| && j != i ==>
                                                              old(inFlight)[j].token != m.token)
      ensures taken.Some? && !taken.value.kind.Caller? && Settled(old(Value())) ==> Settled(Value())
    {
      hide Valid, Places, Completes, Applications;
      ghost var start := Value();
      for i := 0 to |inFlight|
        invariant Value() == start
        invariant forall j :: 0 <= j < i ==> !Completes(m, proxied, inFlight[j])
      {
        if Completes(m, proxied, inFlight[i]) {
          RemoveKeeps(start, i);
          InFlightDistinct(start);
          assert FirstToComplete(m, proxied, start.inFlight, i);
          taken := Some(inFlight[i].completion);
          inFlight := Without(inFlight, i);
          return;
        }
      }
      taken := None;
    }

    /** Sends a reply; only a broken link keeps it from going out. */
    method SendReply(reply: Reply) returns (ok: bool)
      modifies this`nextMessageId, outbox
      ensures outbox.replies == old(outbox.replies) + [reply]
    {
      if reply.origin != BorderAgent {
        var _, _ := AssignIdentity();
      }
      outbox.replies := outbox.replies + [reply];
      ok := *;
    }

    /** Answers a confirmable message for the first time. */
    method GiveReply(reply: Reply) returns (ok: bool)
      requires Cached() && Found(answered.entries, reply.origin, reply.messageId).None?
      modifies this`nextMessageId, this`now, answered, outbox
      ensures Cached() && now >= old(now)
      ensures outbox.replies == old(outbox.replies) + [reply]
      ensures ok ==> answered.log == old(answered.log) + [Answered(reply.origin, reply.messageId, reply.message, now)]
      ensures !ok ==> answered.log == old(answered.log)
    {
      hide Found;
      ok := SendReply(reply);
      if ok {
        ReadClock();
        answered.Remember(reply.origin, reply.messageId, reply.message, now);
      }
    }

    /** The reply an earlier copy of `m` got, if the record still has it. */
    method LookUp(m: Coap.CoapMessage, origin: Origin) returns (reply: Option<Coap.CoapMessage>)
      requires Cached()
      modifies this`now, answered
      ensures Cached() && now >= old(now) && answered.log == old(answered.log)
      ensures m.kind != Coap.Confirmable ==> reply.None?
      ensures m.kind == Coap.Confirmable ==>
                && reply == Found(Newest(Unexpired(answered.log, now)), origin, m.messageId)
                && reply == Found(answered.entries, origin, m.messageId)
                && AtMostOnce(Newest(Unexpired(answered.log, now)))
    {
      reply := None;
      if m.kind == Coap.Confirmable {
        ReadClock();
        reply := answered.ReplyTo(origin, m.messageId, now);
      }
    }

    /** The session ends for a reason outside the exchanges. */
    method Finish(reason: CloseReason)
      requires Valid(Value()) && Accounted(Value())
      modifies this
      ensures Ready(Value()) && serials == old(serials) && now >= old(now)
      ensures closed == if old(closed).Some? then old(closed) else Some(reason)
      ensures events == old(events) + Loss(old(Value()), Value())
    {
      hide DriverStates.Valid, Onward, Places, Settled;
      ghost var start := Value();
      EndSession(reason);
      SameSerials(start, Value());
    }

    /** Completes an exchange that was answered, acknowledging the answer first
        if it asks for that. When the acknowledgement cannot be sent, the
        completion is dropped with its reply channel, which counts as consumed,
        and the session ends. */
    method Conclude(m: Coap.CoapMessage, origin: Origin, state: Option<ResultCode>, completion: Completion)
      returns (acknowledged: bool)
      requires Valid(Value()) && Places(Value()) + multiset{completion.serial} == UpTo(serials) && Cached()
      requires m.kind == Coap.Confirmable ==> Found(answered.entries, origin, m.messageId).None?
      requires completion.kind.Caller? || Settled(Value())
      modifies this, answered, outbox
      ensures Ready(Value()) && Cached() && serials == old(serials) && now >= old(now)
      ensures var news := if acknowledged then Answer(completion.kind, OutcomeOf(m, state)) else [];
              events == old(events) + news + Loss(old(Value()), Value())
      ensures old(answered.log) <= answered.log
      ensures !acknowledged ==> m.kind == Coap.Confirmable
                                && closed == if old(closed).Some? then old(closed) else Some(TransportFailed)
      ensures acknowledged && !completion.kind.Caller? ==>
                closed == if old(closed).Some? then old(closed) else EndedBy(completion.kind, OutcomeOf(m, state))
    {
      hide DriverStates.Valid, Onward, Places, Settled, Found, AnsweredMessages.Valid, Answer, EndedBy;
      ghost var start := Value();
      acknowledged := true;
      if m.kind == Coap.Confirmable {
        acknowledged := GiveReply(Reply(origin, m.messageId, EmptyAck(m.messageId)));
        ClockKeeps(start, Value());
        if !acknowledged {
          ConsumeKeeps(Value(), completion.serial);
          consumed := consumed + [completion.serial];
          assert events + [] == events;
          Finish(TransportFailed);
          return;
        }
      }
      ghost var middle := Heard(Value(), Answer(completion.kind, OutcomeOf(m, state)));
      Complete(completion, OutcomeOf(m, state));
      SameSerials(middle, Value());
    }

    /** A message that answers nothing: a notification is published before it is
        answered. */
    method Unsolicited(m: Coap.CoapMessage, origin: Origin, notice: Notice)
      requires Ready(Value()) && Cached() && closed.None?
      requires m.kind == Coap.Confirmable ==> Found(answered.entries, origin, m.messageId).None?
      modifies this, answered, outbox
      ensures Ready(Value()) && Cached() && serials == old(serials) && now >= old(now)
      ensures events == old(events) + News(notice) + Loss(old(Value()), Value())
      ensures closed in {None, Some(TransportFailed)} && old(answered.log) <= answered.log
    {
      hide DriverStates.Valid, Onward, Places, Settled, Found, AnsweredMessages.Valid;
      HeardNothing(Value());
      HeardKeeps(Value(), News(notice));
      events := events + News(notice);
      HeardNothing(Value());
      match notice {
        case Unrelated => return;
        case Notification =>
        case RelayRx(_) =>
          var relayed: SendResult := *;
          if relayed == TransportError {
            Finish(TransportFailed);
          }
          if relayed != Sent {
            return;
          }
      }
      if m.kind == Coap.Confirmable {
        ghost var start := Value();
        var reply := if origin == BorderAgent then EmptyAck(m.messageId) else EmptyChanged(m);
        var ok := GiveReply(Reply(origin, m.messageId, reply));
        ClockKeeps(start, Value());
        if !ok {
          Finish(TransportFailed);
        }
      }
    }

    /** `route_incoming` on a decoded message. A confirmable message that was
        answered before gets the same reply again and has no other effect, save
        that a broken link ends the session. */
    method Route(m: Coap.CoapMessage, origin: Origin, state: Option<ResultCode>, notice: Notice)
      returns (at: nat, ghost news: seq<Event>)
      requires Ready(Value()) && Cached() && closed.None?
      modifies this, answered, outbox
      ensures Ready(Value()) && Cached() && serials == old(serials) && now >= at >= old(now)
      ensures events == old(events) + news + Loss(old(Value()), Value()) && NoLoss(news)
      ensures news == [] || news == News(notice) || exists code :: news == [KeepAliveResponse(code)]
      ensures old(answered.log) <= answered.log
      ensures m.kind == Coap.Confirmable ==> Repeats(m, origin, at, old(Snapshot()), Snapshot())
    {
      hide DriverStates.Valid, Onward, Places, Settled, Found, AnsweredMessages.Valid, Newest, Unexpired, Completes,
           Acks, Answer, News;
      ghost var start := Value();
      news := [];
      var proxied := origin != BorderAgent;
      var reply := LookUp(m, origin);
      at := now;
      ClockKeeps(start, Value());
      assert events + [] + [] == events;
      if reply.Some? {
        var ok := SendReply(Reply(origin, m.messageId, reply.value));
        if !ok {
          Finish(TransportFailed);
        }
        return;
      }
      var matched := Acknowledge(m, proxied);
      if matched {
        return;
      }
      var taken := TakeAnswered(m, proxied);
      if taken.Some? {
        var acknowledged := Conclude(m, origin, state, taken.value);
        AnswerTells(taken.value.kind, OutcomeOf(m, state));
        news := if acknowledged then Answer(taken.value.kind, OutcomeOf(m, state)) else [];
      } else {
        Unsolicited(m, origin, notice);
        NewsIsNoLoss(notice);
        news := News(notice);
      }
    }

    /** A connect-only session is opened again. */
    method Reopen()
      requires Cached()
      modifies answered
      ensures Cached() && answered.log == MeshOnly(old(answered.entries))
    {
      hide MeshOnly;
      answered.ForgetBorderAgent();
    }

    /** The driver loop, for any sequence of things that wake it. */
    method Run(operations: seq<Operation>) returns (ghost history: seq<Moment>)
      requires Value() == Initial() && Cached()
      modifies this, answered, outbox
      ensures Ready(Value()) && Cached()
      ensures forall k: nat :: Places(Value())[k] == if k < serials then 1 else 0
      ensures Applications(inFlight) <= MAX_APPLICATION_IN_FLIGHT && TokensDistinct(inFlight)
      ensures Increasing(firstSent) && AllFew(sends)
      ensures LossIsLast(Value())
      ensures Records(operations, history) && history[0] == old(Snapshot()) && history[|history| - 1] == Snapshot()
    {
      hide DriverStates.Valid, Settled, AnsweredMessages.Valid, Places, UpTo, Loss, LossIsLast, Stepped, Repeats;
      InitialReady();
      history := [Snapshot()];
      for i := 0 to |operations|
        invariant Ready(Value()) && Cached() && LossIsLast(Value())
        invariant |history| == i + 1 && history[0] == old(Snapshot()) && history[i] == Snapshot()
        invariant AllStepped(operations, history)
      {
        if closed.Some? {
          break;
        }
        ghost var before, moment := Value(), Snapshot();
        ghost var news: seq<Event> := [];
        assert before.events + news == before.events;
        match operations[i] {
          case Request(request, id) => Submit(request, id);
          case Cancel(id) => var _ := Withdraw(id);
          case Control(request, kind) =>
            if !kind.Caller? {
              StartControl(request, kind);
            } else {
              LossNever(before);
            }
          case Timers => var _ := RunExchangeTimers();
          case Receive(m, origin, state, notice) =>
            var at;
            at, news := Route(m, origin, state, notice);
            SteppedByRoute(operations[i], moment, Snapshot(), at);
          case Dropped => PeerClosed();
          case Ended(reason) => Finish(reason);
          case Reopened =>
            Reopen();
            LossNever(before);
        }
        if !operations[i].Receive? {
          SteppedOtherwise(operations[i], moment, Snapshot());
        }
        OneMoreStep(operations, history, Snapshot());
        history := history + [Snapshot()];
        LossStaysLast(before, Value(), news);
      }
      ReadyFacts(Value());
      forall k: nat ensures Places(Value())[k] == if k < serials then 1 else 0 {
        UpToOnce(serials, k);
      }
    }
  }

  // ---- The history of a run ----

  /** The record of replies only grows until the session is reopened, and
      repeated confirmable messages add nothing. */
  ghost predicate Stepped(op: Operation, s: Moment, t: Moment) {
    && s.state.closed.None? && (op != Reopened ==> s.log <= t.log)
    && (op.Receive? && op.message.kind == Coap.Confirmable ==>
          exists at :: s.state.now <= at <= t.state.now && Repeats(op.message, op.origin, at, s, t))
  }

  ghost predicate AllStepped(operations: seq<Operation>, history: seq<Moment>) {
    && 1 <= |history| <= |operations| + 1
    && forall i :: 0 <= i < |history| - 1 ==> Stepped(operations[i], history[i], history[i + 1])
  }

  /** The states of a run: one after every operation, until the session ends. */
  ghost predicate Records(operations: seq<Operation>, history: seq<Moment>) {
    && AllStepped(operations, history)
    && (|history| <= |operations| ==> history[|history| - 1].state.closed.Some?)
  }

  lemma SteppedByRoute(op: Operation, s: Moment, t: Moment, at: nat)
    requires op.Receive? && s.state.closed.None? && s.log <= t.log && s.state.now <= at <= t.state.now
    requires op.message.kind == Coap.Confirmable ==> Repeats(op.message, op.origin, at, s, t)
    ensures Stepped(op, s, t)
  {
    hide Repeats;
  }

  lemma SteppedOtherwise(op: Operation, s: Moment, t: Moment)
    requires !op.Receive? && s.state.closed.None? && (op != Reopened ==> s.log == t.log)
    ensures Stepped(op, s, t)
  {
  }

  lemma OneMoreStep(operations: seq<Operation>, history: seq<Moment>, t: Moment)
    requires AllStepped(operations, history) && |history| <= |operations|
    requires Stepped(operations[|history| - 1], history[|history| - 1], t)
    ensures AllStepped(operations, history + [t])
  {
    hide Stepped;
    var all := history + [t];
    forall i | 0 <= i < |all| - 1 ensures Stepped(operations[i], all[i], all[i + 1]) {
      if i < |history| - 1 {
        assert all[i + 1] == history[i + 1];
      }
    }
  }

  lemma {:induction false} LogGrows(operations: seq<Operation>, history: seq<Moment>, i: nat, j: nat)
    requires AllStepped(operations, history) && i <= j < |history|
    requires forall k :: i <= k < j ==> operations[k] != Reopened
    ensures history[i].log <= history[j].log
    decreases j
  {
    if i < j {
      LogGrows(operations, history, i, j - 1);
      assert Stepped(operations[j - 1], history[j - 1], history[j]);
    }
  }

  /** Over every run: once a confirmable message was answered, every copy of it
      that arrives before the session is reopened, before the reply expires and
      before 64 newer replies were given gets the same reply again. It completes
      no exchange, publishes no event and is not remembered anew; if the link
      breaks under the reply, the session ends, and its loss is all that is
      published. */
  lemma AnsweredOnce(operations: seq<Operation>, history: seq<Moment>, i: nat, k: nat, j: nat)
    requires Records(operations, history) && i <= j < |history| - 1 && k < |history[i].log|
    requires forall n :: i <= n < j ==> operations[n] != Reopened
    requires operations[j].Receive? && operations[j].message.kind == Coap.Confirmable
    requires Answers(history[i].log[k], operations[j].origin, operations[j].message.messageId)
    requires !Expired(history[i].log[k], history[j + 1].state.now) && |history[j].log| <= k + MAX_REMEMBERED
    ensures var s, t, a := history[j], history[j + 1], history[i].log[k];
            && t.replies == s.replies + [Reply(a.origin, a.messageId, a.reply)] && t.log == s.log
            && (t.state.closed.None? ==> t.state == s.state.(now := t.state.now))
            && (t.state.closed.Some? ==>
                  && t.state.closed == Some(TransportFailed)
                  && t.state.events == s.state.events + [SessionLost(TransportFailed)])
  {
    hide Newest, Unexpired, AtMostOnce, Found;
    var s, t, a := history[j], history[j + 1], history[i].log[k];
    LogGrows(operations, history, i, j);
    assert s.log[k] == a;
    assert Stepped(operations[j], s, t);
    var at :| s.state.now <= at <= t.state.now && Repeats(operations[j].message, operations[j].origin, at, s, t);
    StillNewest(s.log, k, at);
    FoundIsOwn(Newest(Unexpired(s.log, at)), a);
  }

  ghost predicate NoLoss(events: seq<Event>) {
    forall i :: 0 <= i < |events| ==> !events[i].SessionLost?
  }

  /** The loss of the session is published once, with its reason and as the last
      event, exactly when the session has ended other than by resigning. */
  ghost predicate LossIsLast(s: State) {
    if s.closed.Some? && s.closed.value != Resigned then
      && s.events != [] && s.events[|s.events| - 1] == SessionLost(s.closed.value)
      && NoLoss(s.events[..|s.events| - 1])
    else NoLoss(s.events)
  }

  lemma AnswerTells(kind: Kind, outcome: Outcome)
    ensures var news := Answer(kind, outcome);
            NoLoss(news) && (news == [] || exists code :: news == [KeepAliveResponse(code)])
  {
  }

  lemma NewsIsNoLoss(notice: Notice)
    ensures NoLoss(News(notice))
  {
  }

  lemma LossStaysLast(s: State, t: State, news: seq<Event>)
    requires s.closed.None? && LossIsLast(s) && NoLoss(news) && t.events == s.events + news + Loss(s, t)
    ensures LossIsLast(t)
  {
    assert NoLoss(s.events + news);
    if Loss(s, t) != [] {
      assert t.events[..|t.events| - 1] == s.events + news;
    } else {
      assert t.events == s.events + news;
    }
  }

  lemma LossNever(s: State)
    ensures s.events == s.events + [] + Loss(s, s)
  {
  }

  // ---- Steps of the methods ----

  function CompletionSerials(completions: seq<Completion>): seq<nat> {
    seq(|completions|, i requires 0 <= i < |completions| => completions[i].serial)
  }

  function Completions(inFlight: seq<Pending>, queued: seq<Queued>): seq<Completion> {
    seq(|inFlight|, i requires 0 <= i < |inFlight| => inFlight[i].completion)
    + seq(|queued|, i requires 0 <= i < |queued| => queued[i].completion)
  }

  /** A completion whose request may be sent: never sent before, and the next
      in submission order when it is an application request. */
  ghost predicate Startable(s: State, c: Completion) {
    && c.serial !in s.sends && c.serial < s.serials
    && (forall i :: 0 <= i < |s.queued| ==> s.queued[i].completion.serial != c.serial)
    && (c.kind.Caller? ==> Applications(s.inFlight) == 0
                           && Increasing(s.firstSent + [c.serial] + QueuedSerials(s.queued)))
  }

  /** Between operations. */
  ghost predicate Ready(s: State) {
    Valid(s) && Accounted(s) && Settled(s)
  }

  /** An open session nothing was asked of yet. */
  ghost function Initial(): State {
    State(None, [], [], 0, [], 0, [], [], map[])
  }

  lemma ReadyFacts(s: State)
    requires Ready(s)
    ensures Applications(s.inFlight) <= MAX_APPLICATION_IN_FLIGHT && TokensDistinct(s.inFlight)
    ensures Increasing(s.firstSent) && AllFew(s.sends)
  {
    hide Applications, TokensDistinct, AllFew, AllTracked, UpTo, Places;
    Prefix(s.firstSent, QueuedSerials(s.queued));
  }

  lemma InitialReady()
    ensures Ready(Initial()) && LossIsLast(Initial())
  {
  }

  lemma PendingIs(request: Outbound, c: Completion, messageId: u16, token: bytes, draw: nat, now: nat)
    ensures var p := NewPending(request, c, messageId, token, draw, now); p.completion == c && p.token == token
  {
  }

  lemma FirstSentIs(s: State, t: State, c: Completion)
    requires t == s.(firstSent := if c.kind.Caller? then s.firstSent + [c.serial] else s.firstSent,
                     sends := s.sends[c.serial := [s.now]])
    ensures t == FirstSent(s, c)
  {
  }

  lemma ConsumedGrows(s: State, t: State, serial: nat)
    requires Onward(s, t, 0) && serial in s.consumed
    ensures serial in t.consumed
  {
    assert forall i :: 0 <= i < |s.consumed| ==> t.consumed[i] == s.consumed[i];
  }

  lemma InFlightDistinct(s: State)
    requires Valid(s)
    ensures SerialsDistinct(s.inFlight) && TokensDistinct(s.inFlight)
  {
  }

  lemma PassingFacts(start: State, s: State, index: nat, done: nat, now: nat)
    requires Passing(start, s, index, done, now)
    ensures Valid(s) && s.closed.None? && Places(s) == Places(start) && s.serials == start.serials
            && index <= |s.inFlight|
    ensures now <= s.now && s.events == start.events && (start.closed.None? ==> Loss(start, s) == [])
  {
    hide Valid, Places, PassedOver, Untouched;
  }

  lemma Shrinks(s: State, t: State)
    requires Onward(s, t, 0)
    ensures |t.queued| + |t.inFlight| <= |s.queued| + |s.inFlight|
  {
  }

  lemma SameSerials(s: State, t: State)
    requires Onward(s, t, 0) || Onward(s, t, 1)
    ensures t.serials == s.serials && t.now >= s.now && t.events == s.events + Loss(s, t)
    ensures s.closed.Some? ==> t.closed == s.closed
  {
  }

  /** A handle request `id` is queued or in flight. */
  predicate HasCaller(inFlight: seq<Pending>, queued: seq<Queued>, id: nat) {
    || (exists i :: 0 <= i < |queued| && queued[i].completion.kind == Caller(id))
    || (exists i :: 0 <= i < |inFlight| && inFlight[i].completion.kind == Caller(id))
  }

  lemma OnwardSame(s: State)
    ensures Onward(s, s, 0)
  {
  }

  lemma Weaken(s: State, t: State, a: nat)
    requires Onward(s, t, a)
    ensures Onward(s, t, a + 1)
  {
  }

  lemma ClockKeeps(s: State, t: State)
    requires Valid(s) && t == s.(now := t.now) && t.now >= s.now
    ensures Valid(t) && Onward(s, t, 0) && Places(t) == Places(s) && (Settled(s) ==> Settled(t))
  {
  }

  lemma ClosedIsSettled(s: State)
    requires s.closed.Some?
    ensures Settled(s)
  {
  }

  lemma FullIsSettled(s: State)
    requires Valid(s) && (Applications(s.inFlight) >= MAX_APPLICATION_IN_FLIGHT || s.queued == [])
    ensures Settled(s)
  {
  }

  lemma SettledToo(s: State, t: State)
    requires t.closed.None? == s.closed.None? && t.queued == s.queued && t.inFlight == s.inFlight
    ensures Settled(s) ==> Settled(t)
  {
  }

  lemma PushedSettled(s: State, t: State)
    requires t == s.(inFlight := t.inFlight) && Applications(t.inFlight) >= Applications(s.inFlight) && Valid(t)
    ensures Settled(s) ==> Settled(t)
  {
  }

  lemma OpenAndQueue(s: State, t: State)
    requires Onward(s, t, 0)
    ensures (t.closed.None? ==> s.closed.None?) && |t.queued| <= |s.queued|
  {
  }

  lemma PopKeeps(s: State)
    requires Valid(s) && s.queued != [] && Applications(s.inFlight) < MAX_APPLICATION_IN_FLIGHT
    ensures var t := s.(queued := s.queued[1..]);
            && Valid(t) && t.closed.None? && Startable(t, s.queued[0].completion)
            && Places(s) == Places(t) + multiset{s.queued[0].completion.serial}
  {
    hide Applications, Places, Tracked, FewSends, TokensDistinct;
    Popped(s);
    var t, first := s.(queued := s.queued[1..]), s.queued[0].completion.serial;
    var all := s.firstSent + [first] + QueuedSerials(t.queued);
    forall i | 0 <= i < |t.queued| ensures t.queued[i].completion.serial != first {
      assert all[|s.firstSent|] == first && all[|s.firstSent| + 1 + i] == t.queued[i].completion.serial;
    }
  }

  lemma StartedFromQueue(start: State, before: State, popped: State, after: State, serial: nat)
    requires Onward(start, before, 0) && before.queued != [] && popped == before.(queued := before.queued[1..])
    requires Onward(popped, after, 1) && Places(before) == Places(popped) + multiset{serial}
    requires Places(after) == Places(popped) + multiset{serial}
    ensures Onward(start, after, 0) && Places(after) == Places(before) && |after.queued| < |before.queued|
  {
    hide Places;
    assert Onward(before, after, 0);
    OnwardTwice(start, before, after, 0, 0);
  }

  /** What an answer makes known. */
  ghost function Heard(s: State, news: seq<Event>): State {
    s.(events := s.events + news)
  }

  lemma HeardNothing(s: State)
    ensures Heard(s, []) == s
  {
    assert s.events + [] == s.events;
  }

  lemma HeardKeeps(s: State, news: seq<Event>)
    ensures var t := Heard(s, news); (Valid(s) ==> Valid(t)) && (Settled(s) ==> Settled(t)) && Places(t) == Places(s)
  {
  }

  /** Closing, failing everything and then publishing the loss. */
  lemma EndedOnward(start: State, drained: State, failed: State, ended: State)
    requires start.closed.None? && drained.closed.Some? && Valid(failed) && Onward(drained, failed, 0)
    requires drained == start.(closed := drained.closed, inFlight := [], queued := [])
    requires ended == Heard(failed, Loss(start, drained))
    ensures Valid(ended) && Onward(start, ended, 0) && Places(ended) == Places(failed)
    ensures ended.closed == drained.closed
  {
    HeardKeeps(failed, Loss(start, drained));
  }

  /** Emptying flight and queue leaves every completion to be failed. */
  lemma DrainKeeps(s: State, closed: Option<CloseReason>)
    requires Valid(s) && s.closed.None?
    ensures var t := s.(closed := closed, inFlight := [], queued := []);
            && Valid(t)
            && Places(s) == Places(t) + multiset(CompletionSerials(Completions(s.inFlight, s.queued)))
  {
    hide Tracked, FewSends, Increasing, Serials, QueuedSerials, Completions, CompletionSerials;
    DrainedSerials(s.inFlight, s.queued);
    Prefix(s.firstSent, QueuedSerials(s.queued));
    assert s.firstSent + [] == s.firstSent;
  }

  lemma DrainedSerials(inFlight: seq<Pending>, queued: seq<Queued>)
    ensures CompletionSerials(Completions(inFlight, queued)) == Serials(inFlight) + QueuedSerials(queued)
    ensures Serials([]) == [] && QueuedSerials([]) == []
  {
  }

  lemma Prefix(a: seq<nat>, b: seq<nat>)
    requires Increasing(a + b)
    ensures Increasing(a)
  {
    forall i, j | 0 <= i < j < |a| ensures a[i] < a[j] {
      assert (a + b)[i] < (a + b)[j];
    }
  }
}
