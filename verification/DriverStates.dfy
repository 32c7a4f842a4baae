/** The session driver's exchange engine: one application request in flight, a
    queue behind it, session-control exchanges beside it, and the timers. What
    the link, the clock and the peers do is left open. */
module DriverStates {
  import opened Wire
  import opened Retransmission
  import opened Exchanges

  const MAX_APPLICATION_IN_FLIGHT := 1

  /** Why a session ended. */
  datatype CloseReason =
    | Resigned
    | KeepAliveRejected
    | KeepAlivePending
    | KeepAliveFailed
    | ByPeer
    | TransportFailed

  /** The state a keep-alive response reports. */
  datatype ResultCode = Accepted | Rejected | StillPending

  /** What is published to the application. */
  datatype Event = KeepAliveResponse(code: ResultCode) | SessionLost(reason: CloseReason) | Notified | JoinerEvent

  /** The driver's state with its history: what was published, how many completions were handed in,
      which were consumed and in what order, in what order application requests
      were first sent, and when each request was sent. */
  datatype State = State(
    closed: Option<CloseReason>, inFlight: seq<Pending>, queued: seq<Queued>, now: nat, events: seq<Event>,
    serials: nat, consumed: seq<nat>, firstSent: seq<nat>, sends: map<nat, seq<nat>>)

  ghost predicate AllCallers(queued: seq<Queued>, serials: nat) {
    forall i :: 0 <= i < |queued| ==> queued[i].completion.kind.Caller? && queued[i].completion.serial < serials
  }

  ghost predicate Unsent(queued: seq<Queued>, sends: map<nat, seq<nat>>) {
    forall i :: 0 <= i < |queued| ==> queued[i].completion.serial !in sends
  }

  ghost predicate Below(sends: map<nat, seq<nat>>, serials: nat) {
    forall k :: k in sends ==> k < serials
  }

  ghost predicate SerialsDistinct(inFlight: seq<Pending>) {
    forall i, j :: 0 <= i < j < |inFlight| ==> inFlight[i].completion.serial != inFlight[j].completion.serial
  }

  ghost predicate NotInFlight(inFlight: seq<Pending>, serial: nat) {
    forall i :: 0 <= i < |inFlight| ==> inFlight[i].completion.serial != serial
  }

  ghost predicate AllBelow(s: seq<nat>, serials: nat) {
    forall i :: 0 <= i < |s| ==> s[i] < serials
  }

  /** The invariant but for a session that was just closed. */
  ghost predicate Core(s: State) {
    && Applications(s.inFlight) <= MAX_APPLICATION_IN_FLIGHT && TokensDistinct(s.inFlight)
    && SerialsDistinct(s.inFlight) && AllBelow(s.firstSent, s.serials)
    && AllCallers(s.queued, s.serials) && Increasing(s.firstSent + QueuedSerials(s.queued))
    && Unsent(s.queued, s.sends) && Below(s.sends, s.serials)
    && AllTracked(s.inFlight, s.sends) && AllFew(s.sends)
  }

  ghost predicate Valid(s: State) {
    Core(s) && (s.closed.Some? ==> s.inFlight == [] && s.queued == [])
  }

  /** No queued request waits for a free slot. */
  ghost predicate Settled(s: State) {
    s.closed.None? ==> s.queued == [] || Applications(s.inFlight) == MAX_APPLICATION_IN_FLIGHT
  }

  ghost function Places(s: State): multiset<nat> {
    Everywhere(s.inFlight, s.queued, s.consumed)
  }

  /** Between operations each completion handed in is in exactly one place. */
  ghost predicate Accounted(s: State) {
    Places(s) == UpTo(s.serials)
  }

  /** The loss of a session is published, unless the application ended it. */
  function Loss(s: State, t: State): seq<Event> {
    if s.closed.None? && t.closed.Some? && t.closed.value != Resigned then [SessionLost(t.closed.value)] else []
  }

  /** What nested sending and completing may change: the session may end, which
      is published once; otherwise exchanges are only added, none of them due,
      and the history only grows. */
  ghost predicate Onward(s: State, t: State, extra: nat) {
    && (s.closed.Some? ==> t.closed == s.closed) && t.events == s.events + Loss(s, t)
    && t.now >= s.now && t.serials == s.serials
    && |t.queued| <= |s.queued| && |t.queued| + |t.inFlight| <= |s.queued| + |s.inFlight| + extra
    && (t.closed.None? ==> s.inFlight <= t.inFlight && AllRest(t.inFlight, |s.inFlight|, s.now))
    && (forall k :: k in s.sends ==> k in t.sends && t.sends[k] == s.sends[k])
    && s.firstSent <= t.firstSent && s.consumed <= t.consumed
  }

  lemma OnwardTwice(s: State, t: State, w: State, a: nat, b: nat)
    requires Onward(s, t, a) && Onward(t, w, b)
    ensures Onward(s, w, a + b)
  {
    if w.closed.None? {
      forall i | |s.inFlight| <= i < |w.inFlight| ensures Rests(w.inFlight[i], s.now) {
        if i < |t.inFlight| {
          assert w.inFlight[i] == t.inFlight[i];
          assert Rests(t.inFlight[i], s.now);
        } else {
          assert Rests(w.inFlight[i], t.now);
        }
      }
    }
  }

  /** A request popped off the queue is the next one in submission order. */
  lemma Popped(s: State)
    requires Core(s) && s.queued != []
    ensures var t := s.(queued := s.queued[1..]);
            && Core(t) && Increasing(s.firstSent + [s.queued[0].completion.serial] + QueuedSerials(t.queued))
            && s.queued[0].completion.serial !in s.sends
            && Places(s) == Places(t) + multiset{s.queued[0].completion.serial}
  {
    hide Tracked, FewSends, Applications;
    var t := s.(queued := s.queued[1..]);
    var first := s.queued[0].completion.serial;
    assert QueuedSerials(s.queued) == [first] + QueuedSerials(t.queued);
    var all := s.firstSent + QueuedSerials(s.queued);
    assert s.firstSent + [first] + QueuedSerials(t.queued) == all;
    Skipped(s.firstSent, first, QueuedSerials(t.queued));
  }

  lemma Skipped(a: seq<nat>, x: nat, b: seq<nat>)
    requires Increasing(a + [x] + b)
    ensures Increasing(a + b) && multiset([x] + b) == multiset(b) + multiset{x}
  {
    var all := a + [x] + b;
    forall i, j | 0 <= i < j < |a + b| ensures (a + b)[i] < (a + b)[j] {
      var p, q := if i < |a| then i else i + 1, if j < |a| then j else j + 1;
      assert (a + b)[i] == all[p] && (a + b)[j] == all[q];
    }
  }

  // ---- One request started ----

  /** The state once a request was sent for the first time. */
  ghost function FirstSent(s: State, c: Completion): State {
    s.(firstSent := if c.kind.Caller? then s.firstSent + [c.serial] else s.firstSent,
       sends := s.sends[c.serial := [s.now]])
  }

  lemma SentKeeps(s: State, c: Completion)
    requires Valid(s) && c.serial !in s.sends && c.serial < s.serials
    requires forall i :: 0 <= i < |s.queued| ==> s.queued[i].completion.serial != c.serial
    requires c.kind.Caller? ==> Increasing(s.firstSent + [c.serial] + QueuedSerials(s.queued))
    ensures Valid(FirstSent(s, c)) && Onward(s, FirstSent(s, c), 0) && Places(FirstSent(s, c)) == Places(s)
    ensures NotInFlight(s.inFlight, c.serial)
  {
    hide Applications, TokensDistinct, Increasing, Follows;
    var t := FirstSent(s, c);
    forall i | 0 <= i < |s.inFlight| ensures Tracked(s.inFlight[i], t.sends) {
      assert Tracked(s.inFlight[i], s.sends);
    }
  }

  /** The exchange tracked for the response. */
  function NewPending(request: Outbound, c: Completion, messageId: u16, token: bytes, draw: nat, now: nat): Pending {
    var schedule := if request.confirmable then Some(Randomized(draw)) else None;
    Pending(messageId, token, request.proxied, schedule,
            if request.confirmable then Some(now + Randomized(draw).timeout) else None, now + EXCHANGE_TIMEOUT, c)
  }

  lemma TrackedFromStart(s: State, request: Outbound, c: Completion, messageId: u16, token: bytes, draw: nat)
    requires c.serial in s.sends && s.sends[c.serial] == [s.now]
    ensures var p := NewPending(request, c, messageId, token, draw, s.now); Tracked(p, s.sends) && Rests(p, s.now)
  {
    FirstSend(draw, s.now);
  }

  lemma PushKeeps(s: State, p: Pending)
    requires Valid(s) && s.closed.None? && Tracked(p, s.sends) && Rests(p, s.now) && !Uses(s.inFlight, p.token)
    requires p.completion.kind.Caller? ==> Applications(s.inFlight) == 0
    requires NotInFlight(s.inFlight, p.completion.serial)
    ensures var t := s.(inFlight := s.inFlight + [p]);
            && Valid(t) && Onward(s, t, 1) && Places(t) == Places(s) + multiset{p.completion.serial}
            && Applications(t.inFlight) == Applications(s.inFlight) + if p.completion.kind.Caller? then 1 else 0
  {
    hide Tracked, FewSends, Applications, Increasing;
    var t := s.(inFlight := s.inFlight + [p]);
    ApplicationsSplit(s.inFlight, [p]);
    OneApplication(p);
    assert Serials(t.inFlight) == Serials(s.inFlight) + [p.completion.serial];
  }

  /** Taking one exchange out of flight. */
  lemma RemoveKeeps(s: State, i: nat)
    requires Valid(s) && i < |s.inFlight|
    ensures var t := s.(inFlight := Without(s.inFlight, i));
            && Valid(t) && Places(s) == Places(t) + multiset{s.inFlight[i].completion.serial}
            && Applications(s.inFlight)
               == Applications(t.inFlight) + if s.inFlight[i].completion.kind.Caller? then 1 else 0
  {
    hide Tracked, FewSends, Applications, Increasing;
    var t := s.(inFlight := Without(s.inFlight, i));
    ApplicationsWithout(s.inFlight, i);
    SerialsWithout(s.inFlight, i);
    SplitMultiset(Serials(s.inFlight), i);
    forall a, b | 0 <= a < b < |t.inFlight|
      ensures t.inFlight[a].token != t.inFlight[b].token
      ensures t.inFlight[a].completion.serial != t.inFlight[b].completion.serial
    {
      var p, q := if a < i then a else a + 1, if b < i then b else b + 1;
      assert t.inFlight[a] == s.inFlight[p] && t.inFlight[b] == s.inFlight[q];
    }
  }

  /** Taking one request out of the queue. */
  lemma UnqueueKeeps(s: State, i: nat)
    requires Valid(s) && i < |s.queued|
    ensures var t := s.(queued := Without(s.queued, i));
            Valid(t) && Places(s) == Places(t) + multiset{s.queued[i].completion.serial}
  {
    hide Tracked, FewSends, Applications;
    var t := s.(queued := Without(s.queued, i));
    QueuedWithout(s.queued, i);
    SplitMultiset(QueuedSerials(s.queued), i);
    var q := QueuedSerials(s.queued);
    assert s.firstSent + q == (s.firstSent + q[..i]) + [q[i]] + q[i + 1..];
    Skipped(s.firstSent + q[..i], q[i], q[i + 1..]);
    assert (s.firstSent + q[..i]) + q[i + 1..] == s.firstSent + Without(q, i);
  }

  lemma ConsumeKeeps(s: State, serial: nat)
    requires Valid(s)
    ensures var t := s.(consumed := s.consumed + [serial]);
            Valid(t) && Onward(s, t, 0) && Places(t) == Places(s) + multiset{serial}
  {
    hide Tracked, FewSends, Applications, Increasing, TokensDistinct;
  }

  // ---- Timers ----

  predicate RetryDue(p: Pending, now: nat) {
    p.retryAt.Some? && p.retryAt.value <= now
  }

  /** An exchange whose request was just sent again. */
  function Retried(p: Pending, now: nat): Pending
    requires p.retransmit.Some?
  {
    var s := Retransmitted(p.retransmit.value);
    p.(retransmit := Some(s), retryAt := if Timeout(s).Some? then Some(now + Timeout(s).value) else None)
  }

  ghost function AfterRetry(s: State, i: nat, now: nat): State
    requires i < |s.inFlight| && s.inFlight[i].retransmit.Some? && s.inFlight[i].completion.serial in s.sends
  {
    var p := s.inFlight[i];
    s.(inFlight := s.inFlight[i := Retried(p, now)],
       sends := s.sends[p.completion.serial := s.sends[p.completion.serial] + [now]])
  }

  /** Sending again on a due timer keeps the schedule of that exchange. */
  lemma RetriedTracked(p: Pending, times: seq<nat>, sends: map<nat, seq<nat>>, now: nat)
    requires p.completion.serial in sends && sends[p.completion.serial] == times && Tracked(p, sends)
    requires FewSends(times) && RetryDue(p, now) && p.deadline > now
    ensures p.retransmit.Some? && FewSends(times + [now])
    ensures Tracked(Retried(p, now), sends[p.completion.serial := times + [now]])
    ensures Rests(Retried(p, now), now)
  {
    var s := p.retransmit.value;
    var initial :| Follows(s, times, initial);
    NextSend(s, times, initial, now);
    SendsBounded(Retransmitted(s), times + [now], initial);
    var after := sends[p.completion.serial := times + [now]];
    assert after[p.completion.serial] == times + [now];
    assert Follows(Retransmitted(s), times + [now], initial);
  }

  lemma RetryKeeps(s: State, i: nat, now: nat)
    requires Valid(s) && i < |s.inFlight| && RetryDue(s.inFlight[i], now) && s.inFlight[i].deadline > now
    ensures s.inFlight[i].retransmit.Some? && s.inFlight[i].completion.serial in s.sends
    ensures var t := AfterRetry(s, i, now);
            && Valid(t) && Places(t) == Places(s) && (Settled(s) ==> Settled(t))
            && Rests(t.inFlight[i], now)
  {
    hide Increasing, Follows, Rests;
    var p := s.inFlight[i];
    assert Tracked(p, s.sends);
    RetriedTracked(p, s.sends[p.completion.serial], s.sends, now);
    var t := AfterRetry(s, i, now);
    forall j | 0 <= j < |t.inFlight| ensures Tracked(t.inFlight[j], t.sends) {
      if j != i {
        assert Tracked(s.inFlight[j], s.sends);
      }
    }
    assert Serials(t.inFlight) == Serials(s.inFlight);
    ApplicationsUpdated(s.inFlight, i, t.inFlight[i]);
  }

  lemma ApplicationsUpdated(inFlight: seq<Pending>, i: nat, p: Pending)
    requires i < |inFlight| && p.completion == inFlight[i].completion
    ensures Applications(inFlight[i := p]) == Applications(inFlight)
  {
    hide Applications;
    ApplicationsWithout(inFlight, i);
    ApplicationsWithout(inFlight[i := p], i);
    assert Without(inFlight[i := p], i) == Without(inFlight, i);
  }

  /** Stopping the timer of an acknowledged exchange. */
  lemma AcknowledgeKeeps(s: State, i: nat)
    requires Valid(s) && i < |s.inFlight|
    ensures var t := s.(inFlight := s.inFlight[i := s.inFlight[i].(retryAt := None)]);
            Valid(t) && Places(t) == Places(s) && (Settled(s) ==> Settled(t))
  {
    hide Increasing, FewSends, Follows;
    var t := s.(inFlight := s.inFlight[i := s.inFlight[i].(retryAt := None)]);
    assert Tracked(s.inFlight[i], s.sends);
    assert Serials(t.inFlight) == Serials(s.inFlight);
    ApplicationsUpdated(s.inFlight, i, t.inFlight[i]);
  }

  // ---- New work ----

  /** A new request at the back of the queue. */
  lemma EnqueueKeeps(s: State, request: Outbound, id: nat)
    requires Valid(s) && s.closed.None?
    ensures var c := Completion(Caller(id), s.serials);
            var t := s.(queued := s.queued + [Queued(request, c)], serials := s.serials + 1);
            && Valid(t) && (Accounted(s) ==> Accounted(t))
  {
    hide Applications, Tracked, FewSends, TokensDistinct, SerialsDistinct;
    var c := Completion(Caller(id), s.serials);
    var t := s.(queued := s.queued + [Queued(request, c)], serials := s.serials + 1);
    assert QueuedSerials(t.queued) == QueuedSerials(s.queued) + [s.serials];
    assert s.firstSent + QueuedSerials(t.queued) == s.firstSent + QueuedSerials(s.queued) + [s.serials];
  }

  /** A new session-control request may be sent at once. */
  lemma ControlKeeps(s: State)
    requires Valid(s)
    ensures var t := s.(serials := s.serials + 1);
            && Valid(t) && s.serials !in t.sends
            && (forall i :: 0 <= i < |t.queued| ==> t.queued[i].completion.serial != s.serials)
            && (Accounted(s) ==> UpTo(t.serials) == Places(t) + multiset{s.serials}) && (Settled(s) ==> Settled(t))
  {
    hide Applications, Tracked, FewSends, TokensDistinct, SerialsDistinct, Increasing;
  }

  // ---- A timer pass ----

  /** What a pass does to one exchange: a due retry is sent once, an expired
      exchange is completed. */
  ghost predicate PassedOver(p: Pending, before: State, after: State, now: nat) {
    var serial := p.completion.serial;
    && serial in before.sends && serial in after.sends
    && after.sends[serial] == before.sends[serial] + (if p.deadline > now && RetryDue(p, now) then [now] else [])
    && (p.deadline <= now ==> serial in after.consumed)
  }

  ghost predicate Untouched(p: Pending, before: State, after: State) {
    var serial := p.completion.serial;
    serial in before.sends && serial in after.sends && after.sends[serial] == before.sends[serial]
  }

  /** A pass over `start` has reached position `index` of `s` and has dealt with
      the first `done` exchanges; what follows the others was started by it. */
  ghost predicate Passing(start: State, s: State, index: nat, done: nat, now: nat) {
    var n := |start.inFlight|;
    && Valid(s) && s.closed.None? && Places(s) == Places(start) && s.serials == start.serials && now <= s.now
    && s.events == start.events
    && done <= n && index + (n - done) <= |s.inFlight|
    && (forall k :: done <= k < n ==> s.inFlight[index + k - done] == start.inFlight[k])
    && (forall i :: 0 <= i < index ==> Rests(s.inFlight[i], now))
    && AllRest(s.inFlight, index + (n - done), now)
    && (forall k :: 0 <= k < done ==> PassedOver(start.inFlight[k], start, s, now))
    && (forall k :: done <= k < n ==> Untouched(start.inFlight[k], start, s))
  }

  lemma PassStarts(start: State, s: State, now: nat)
    requires Valid(start) && start.closed.None? && s == start.(now := now) && now >= start.now
    ensures Passing(start, s, 0, 0, now)
  {
    hide Applications, FewSends, Follows;
    forall k | 0 <= k < |start.inFlight| ensures Untouched(start.inFlight[k], start, s) {
      assert Tracked(start.inFlight[k], start.sends);
    }
  }

  /** Nothing is due at this position. */
  lemma PassSkips(start: State, s: State, index: nat, done: nat, now: nat)
    requires Passing(start, s, index, done, now) && index < |s.inFlight| && Rests(s.inFlight[index], now)
    ensures Passing(start, s, index + 1, if done < |start.inFlight| then done + 1 else done, now)
  {
    hide Valid, Places;
    if done < |start.inFlight| {
      assert s.inFlight[index + done - done] == start.inFlight[done];
      assert Untouched(start.inFlight[done], start, s);
    }
  }

  /** What is due belongs to the exchanges the pass began with. */
  lemma DueIsOld(start: State, s: State, index: nat, done: nat, now: nat)
    requires Passing(start, s, index, done, now) && index < |s.inFlight| && !Rests(s.inFlight[index], now)
    ensures done < |start.inFlight| && s.inFlight[index] == start.inFlight[done]
  {
    hide Valid, Places, PassedOver, Untouched;
    if done < |start.inFlight| {
      assert s.inFlight[index + done - done] == start.inFlight[done];
    }
  }

  lemma PassRetries(start: State, s: State, index: nat, done: nat, now: nat)
    requires Passing(start, s, index, done, now) && index < |s.inFlight|
    requires RetryDue(s.inFlight[index], now) && s.inFlight[index].deadline > now
    requires SerialsDistinct(start.inFlight)
    ensures s.inFlight[index].retransmit.Some? && s.inFlight[index].completion.serial in s.sends
    ensures Passing(start, AfterRetry(s, index, now), index + 1, done + 1, now)
  {
    hide Valid, Places, Tracked;
    DueIsOld(start, s, index, done, now);
    RetryKeeps(s, index, now);
    var t := AfterRetry(s, index, now);
    var p := start.inFlight[done];
    assert Untouched(p, start, s);
    forall k | 0 <= k < |start.inFlight| && k != done
      ensures k < done ==> PassedOver(start.inFlight[k], start, t, now)
      ensures k > done ==> Untouched(start.inFlight[k], start, t)
    {
      assert start.inFlight[k].completion.serial != p.completion.serial;
      if k < done {
        assert PassedOver(start.inFlight[k], start, s, now);
      } else {
        assert Untouched(start.inFlight[k], start, s);
      }
    }
  }

  /** An expired exchange was taken out and completed, which may have started
      others. */
  lemma PassExpires(start: State, s: State, t: State, w: State, index: nat, done: nat, now: nat)
    requires Passing(start, s, index, done, now) && index < |s.inFlight| && s.inFlight[index].deadline <= now
    requires t == s.(inFlight := Without(s.inFlight, index)) && w.closed.None? && Valid(w) && Onward(t, w, 0)
    requires Places(w) == Places(t) + multiset{s.inFlight[index].completion.serial}
    requires s.inFlight[index].completion.serial in w.consumed
    ensures Passing(start, w, index, done + 1, now)
  {
    hide Valid, Places, RetryDue;
    DueIsOld(start, s, index, done, now);
    assert Untouched(start.inFlight[done], start, s);
    RemovePlaces(s, index);
    var n := |start.inFlight|;
    forall k | done + 1 <= k < n ensures w.inFlight[index + k - done - 1] == start.inFlight[k] {
      assert s.inFlight[index + k - done] == start.inFlight[k];
      assert t.inFlight[index + k - done - 1] == s.inFlight[index + k - done];
    }
    PassRests(start, s, t, w, index, done, now);
    forall k | 0 <= k < n
      ensures k <= done ==> PassedOver(start.inFlight[k], start, w, now)
      ensures k > done ==> Untouched(start.inFlight[k], start, w)
    {
      if k < done {
        assert PassedOver(start.inFlight[k], start, s, now);
      } else {
        assert Untouched(start.inFlight[k], start, s);
      }
    }
  }

  lemma RemovePlaces(s: State, i: nat)
    requires Valid(s) && i < |s.inFlight|
    ensures Places(s) == Places(s.(inFlight := Without(s.inFlight, i))) + multiset{s.inFlight[i].completion.serial}
  {
    hide Valid;
    RemoveKeeps(s, i);
  }

  lemma PassRests(start: State, s: State, t: State, w: State, index: nat, done: nat, now: nat)
    requires Passing(start, s, index, done, now) && index < |s.inFlight| && done < |start.inFlight|
    requires t == s.(inFlight := Without(s.inFlight, index)) && w.closed.None? && Onward(t, w, 0)
    ensures forall i :: 0 <= i < index ==> Rests(w.inFlight[i], now)
    ensures AllRest(w.inFlight, index + (|start.inFlight| - done - 1), now)
  {
    hide Valid, Places, PassedOver, Untouched;
    var n := |start.inFlight|;
    forall i | 0 <= i < index ensures Rests(w.inFlight[i], now) {
      assert w.inFlight[i] == t.inFlight[i] == s.inFlight[i];
    }
    forall i | index + (n - done - 1) <= i < |w.inFlight| ensures Rests(w.inFlight[i], now) {
      if i < |t.inFlight| {
        assert w.inFlight[i] == t.inFlight[i] == s.inFlight[i + 1];
        assert Rests(s.inFlight[i + 1], now);
      } else {
        assert Rests(w.inFlight[i], t.now);
      }
    }
  }

  /** At the end of the pass nothing is due, also after the last sending. */
  lemma PassEnds(start: State, s: State, w: State, index: nat, done: nat, now: nat)
    requires Passing(start, s, index, done, now) && index == |s.inFlight|
    requires w.closed.None? && Onward(s, w, 0)
    ensures AllRest(w.inFlight, 0, now)
    ensures forall k :: 0 <= k < |start.inFlight| ==> PassedOver(start.inFlight[k], start, w, now)
  {
    hide Valid, Places, RetryDue;
    forall i | 0 <= i < |w.inFlight| ensures Rests(w.inFlight[i], now) {
      if i < |s.inFlight| {
        assert w.inFlight[i] == s.inFlight[i];
      } else {
        assert Rests(w.inFlight[i], s.now);
      }
    }
    forall k | 0 <= k < |start.inFlight| ensures PassedOver(start.inFlight[k], start, w, now) {
      assert PassedOver(start.inFlight[k], start, s, now);
    }
  }
}
