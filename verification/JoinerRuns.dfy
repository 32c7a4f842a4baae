/** What holds over every run of a joiner session, whatever is relayed to it. */
module JoinerRuns {
  import opened Wire
  import opened Records
  import opened Framing
  import opened Flights
  import opened Suites
  import opened Protection
  import opened Joiner
  import SH = ServerHandshakes
  import SD = ServerDriver
  import Hello
  import Coap
  import JoinFin

  // ---- Reading the log ----

  function SealIn(n: Note): seq<Record> {
    match n
    case Out(Transmit(records, _)) => EpochOne(records)
    case _ => []
  }

  /** Every protected record transmitted. */
  function Seals(log: seq<Note>): seq<Record> {
    if log == [] then [] else Seals(log[..|log| - 1]) + SealIn(log[|log| - 1])
  }

  /** The handler's answers. */
  function Answers(log: seq<Note>): seq<bool> {
    if log == [] then [] else
    Answers(log[..|log| - 1]) + match log[|log| - 1] case Asked(answer) => [answer] case _ => []
  }

  /** The decisions announced to the application. */
  function Decisions(log: seq<Note>): seq<bool> {
    if log == [] then [] else
    Decisions(log[..|log| - 1]) + match log[|log| - 1] case Out(Decided(accepted, _)) => [accepted] case _ => []
  }

  /** ServerHello, ServerKeyExchange and ServerHelloDone. */
  predicate IsFlight(n: Note) {
    n.Out? && n.event.Transmit? && |n.event.records| == 3
  }

  /** ChangeCipherSpec and Finished. */
  predicate IsLastFlight(n: Note) {
    n.Out? && n.event.Transmit? && |n.event.records| == 2
  }

  predicate IsDone(n: Note) {
    n == Out(HandshakeDone)
  }

  /** A JOIN_FIN.rsp. */
  predicate IsResponse(n: Note) {
    n.Out? && n.event.Transmit? && |n.event.records| == 1 && n.event.records[0].header.epoch == 1
  }

  function Count(p: Note -> bool, log: seq<Note>): nat {
    if log == [] then 0 else Count(p, log[..|log| - 1]) + if p(log[|log| - 1]) then 1 else 0
  }

  lemma Grow(log: seq<Note>, n: Note)
    ensures Seals(log + [n]) == Seals(log) + SealIn(n)
    ensures Answers(log + [n]) == Answers(log) + match n case Asked(answer) => [answer] case _ => []
    ensures Decisions(log + [n]) == Decisions(log) + match n case Out(Decided(accepted, _)) => [accepted] case _ => []
  {
    assert (log + [n])[..|log|] == log;
  }

  lemma CountGrows(p: Note -> bool, log: seq<Note>, n: Note)
    ensures Count(p, log + [n]) == Count(p, log) + if p(n) then 1 else 0
  {
    assert (log + [n])[..|log|] == log;
  }

  lemma Recount(log: seq<Note>, n: Note)
    ensures Seals(log + [n]) == Seals(log) + SealIn(n)
    ensures Answers(log + [n]) == Answers(log) + match n case Asked(answer) => [answer] case _ => []
    ensures Decisions(log + [n]) == Decisions(log) + match n case Out(Decided(accepted, _)) => [accepted] case _ => []
    ensures Count(IsFlight, log + [n]) == Count(IsFlight, log) + if IsFlight(n) then 1 else 0
    ensures Count(IsLastFlight, log + [n]) == Count(IsLastFlight, log) + if IsLastFlight(n) then 1 else 0
    ensures Count(IsDone, log + [n]) == Count(IsDone, log) + if IsDone(n) then 1 else 0
  {
    hide Seals, Answers, Decisions, Count;
    Grow(log, n);
    CountGrows(IsFlight, log, n);
    CountGrows(IsLastFlight, log, n);
    CountGrows(IsDone, log, n);
  }

  // ---- What each transmission is ----

  ghost predicate SealedUnder(e: Env, keys: Keys, r: Record) {
    exists text ::
      Protect(e.suite.cipher, r.header.contentType, 1, r.header.sequence, keys.serverKey, keys.serverIv, text)
      == Ok(r)
  }

  /** A protected JOIN_FIN.rsp with the given answer. */
  ghost predicate ResponseRecord(e: Env, keys: Keys, answer: bool, r: Record) {
    exists id, token, text ::
      && Coap.Encoded(JoinFin.Response(id, token, answer)) == Ok(text)
      && Protect(e.suite.cipher, ApplicationData, 1, r.header.sequence, keys.serverKey, keys.serverIv, text) == Ok(r)
  }

  ghost predicate Form(e: Env, keys: Option<Keys>, decision: Option<bool>, n: Note) {
    match n
    case Out(Transmit(records, kek)) =>
      || (!kek && EpochZero(records) && |records| in {1, 3})
      || (!kek && |records| == 2 && records[0].header.epoch == 0 && keys.Some?
          && records[1].header.contentType == Handshake && SealedUnder(e, keys.value, records[1]))
      || (|records| == 1 && keys.Some? && decision == Some(kek) && ResponseRecord(e, keys.value, kek, records[0]))
    case _ => true
  }

  // ---- The invariant ----

  /** The client's Finished covered the transcript before it, and ours the
      transcript including it. */
  ghost predicate Verified(e: Env, s: Joiner) {
    s.keys.Some? && exists h, m, seqNo, f ::
      && SH.VerifyClientFinished(e.suite, h, m, s.keys.value).Ok?
      && SH.BuildServerFinished(e.suite, SH.VerifyClientFinished(e.suite, h, m, s.keys.value).value, seqNo,
                                s.keys.value)
         == Ok((s.handshake, f))
  }

  ghost predicate StateOk(e: Env, s: Joiner) {
    && s.epoch1 <= SEQUENCE_LIMIT && s.flightRetransmissions <= MAX_DUPLICATE_RETRANSMISSIONS
    && s.finishedRetransmissions <= MAX_DUPLICATE_RETRANSMISSIONS
    && (s.phase == AwaitingClientFlight ==> |s.flight| == 3 && EpochZero(s.flight))
    && (Established(s) ==> Verified(e, s))
    && (!Established(s) ==> s.epoch1 == 0 && s.decision.None?)
    && (s.phase == Finalized ==> s.decision.Some?)
  }

  ghost predicate Counted(s: Joiner, log: seq<Note>) {
    && |Seals(log)| == s.epoch1 && (forall i :: 0 <= i < |Seals(log)| ==> Seals(log)[i].header.sequence == i)
    && Answers(log) == (if s.decision.Some? then [s.decision.value] else [])
    && Decisions(log) == (if s.phase == Finalized && s.decision.Some? then [s.decision.value] else [])
    && Count(IsFlight, log) <= s.flightRetransmissions + (if s.phase == AwaitingClientHello then 0 else 1)
    && Count(IsLastFlight, log) <= s.finishedRetransmissions + Count(IsDone, log)
  }

  /** The keys records have been protected with. */
  ghost function SendKeys(s: Joiner): Option<Keys> {
    if Established(s) then s.keys else None
  }

  ghost predicate Formed(e: Env, s: Joiner, log: seq<Note>) {
    forall i :: 0 <= i < |log| ==> Form(e, SendKeys(s), s.decision, log[i])
  }

  ghost predicate HasDone(log: seq<Note>) {
    exists i :: 0 <= i < |log| && IsDone(log[i])
  }

  ghost predicate HasAuthenticated(log: seq<Note>) {
    exists i :: 0 <= i < |log| && log[i] == Authenticated
  }

  ghost predicate Ordered(s: Joiner, log: seq<Note>) {
    && (forall i :: 0 <= i < |log| && IsResponse(log[i]) ==> HasDone(log[..i]))
    && (forall i, j :: 0 <= i < j < |log| && log[i] == Authenticated ==> !IsLastFlight(log[j]))
    && (Established(s) ==> HasDone(log))
    && (HasAuthenticated(log) ==> s.finished == [] && Established(s))
  }

  ghost predicate Inv(e: Env, s: Joiner, log: seq<Note>) {
    StateOk(e, s) && Counted(s, log) && Formed(e, s, log) && Ordered(s, log)
  }

  function Rank(p: Phase): nat {
    match p
    case AwaitingClientHello => 0
    case AwaitingClientFlight => 1
    case Connected => 2
    case Finalized => 3
  }

  /** The phase never moves back, the keys stay once a record was protected
      with them, and a decision stays once made. */
  ghost predicate Evolves(s: Joiner, t: Joiner) {
    && Rank(s.phase) <= Rank(t.phase)
    && (Established(s) ==> t.keys == s.keys)
    && (s.decision.Some? ==> t.decision == s.decision)
    && s.epoch1 <= t.epoch1
  }

  lemma VerifiedToo(e: Env, s: Joiner, t: Joiner)
    requires Verified(e, s) && t.keys == s.keys && t.handshake == s.handshake
    ensures Verified(e, t)
  {
  }

  // ---- Adding notes ----

  lemma FormedGrows(e: Env, s: Joiner, t: Joiner, log: seq<Note>, notes: seq<Note>)
    requires Formed(e, s, log) && Evolves(s, t)
    requires forall i :: 0 <= i < |notes| ==> Form(e, SendKeys(t), t.decision, notes[i])
    ensures Formed(e, t, log + notes)
  {
    hide SealedUnder, ResponseRecord, EpochZero;
    assert forall i :: 0 <= i < |log| ==> Form(e, SendKeys(t), t.decision, log[i]);
  }

  /** What may be added without upsetting the order. */
  ghost predicate Fitting(s: Joiner, t: Joiner, log: seq<Note>, notes: seq<Note>) {
    && (Established(s) ==> Established(t))
    && (forall i :: 0 <= i < |notes| && IsResponse(notes[i]) ==> Established(s))
    && (forall i :: 0 <= i < |notes| && IsLastFlight(notes[i]) ==> !HasAuthenticated(log) && !HasAuthenticated(notes))
    && (Established(t) ==> Established(s) || HasDone(notes))
    && (HasAuthenticated(log) || HasAuthenticated(notes) ==> t.finished == [] && Established(t))
  }

  lemma OrderedGrows(s: Joiner, t: Joiner, log: seq<Note>, notes: seq<Note>)
    requires Ordered(s, log) && Fitting(s, t, log, notes)
    ensures Ordered(t, log + notes)
  {
    var all := log + notes;
    forall i | 0 <= i < |all| && IsResponse(all[i]) ensures HasDone(all[..i]) {
      if i < |log| {
        assert all[..i] == log[..i];
      } else {
        assert notes[i - |log|] == all[i];
        var j :| 0 <= j < |log| && IsDone(log[j]);
        assert all[..i][j] == log[j];
      }
    }
    forall i, j | 0 <= i < j < |all| && all[i] == Authenticated ensures !IsLastFlight(all[j]) {
      if j >= |log| {
        assert notes[j - |log|] == all[j];
        if i >= |log| {
          assert notes[i - |log|] == Authenticated;
        }
      }
    }
    if Established(t) {
      if Established(s) {
        var j :| 0 <= j < |log| && IsDone(log[j]);
        assert IsDone(all[j]);
      } else {
        var j :| 0 <= j < |notes| && IsDone(notes[j]);
        assert IsDone(all[|log| + j]);
      }
    }
    if HasAuthenticated(all) {
      var j :| 0 <= j < |all| && all[j] == Authenticated;
      if j >= |log| {
        assert notes[j - |log|] == Authenticated;
      }
    }
  }

  lemma OrderedByOne(s: Joiner, t: Joiner, log: seq<Note>, n: Note)
    requires Ordered(s, log) && (Established(s) ==> Established(t))
    requires IsResponse(n) ==> Established(s)
    requires IsLastFlight(n) ==> s.finished != [] || !Established(s)
    requires Established(t) ==> Established(s)
    requires n == Authenticated ==> t.finished == [] && Established(s)
    requires Established(s) && s.finished == [] ==> t.finished == []
    ensures Ordered(t, log + [n])
  {
    OrderedGrows(s, t, log, [n]);
  }

  /** Nothing was added, and the state moved within the limits. */
  lemma InvQuiet(e: Env, s: Joiner, t: Joiner, log: seq<Note>)
    requires Inv(e, s, log) && StateOk(e, t) && Evolves(s, t)
    requires t.phase == s.phase && t.epoch1 == s.epoch1 && t.decision == s.decision && t.finished == s.finished
    requires t.flightRetransmissions >= s.flightRetransmissions
             && t.finishedRetransmissions >= s.finishedRetransmissions
    ensures Inv(e, t, log + [])
  {
    assert log + [] == log;
  }

  lemma Appended(log: seq<Note>, a: seq<Note>, b: seq<Note>)
    ensures log + a + b == log + (a + b)
  {
  }

  lemma LastIsSealed(records: seq<Record>)
    requires 1 <= |records| <= 2 && records[|records| - 1].header.epoch == 1
    requires |records| == 2 ==> records[0].header.epoch == 0
    ensures EpochOne(records) == [records[|records| - 1]]
  {
    PlainIsUnsealed(records[..|records| - 1]);
  }

  /** A plaintext transmission. */
  lemma InvPlain(e: Env, s: Joiner, t: Joiner, log: seq<Note>, records: seq<Record>)
    requires Inv(e, s, log) && StateOk(e, t) && Evolves(s, t) && !Established(t)
    requires EpochZero(records) && |records| in {1, 3}
    requires var before := s.flightRetransmissions + (if s.phase == AwaitingClientHello then 0 else 1);
             var after := t.flightRetransmissions + (if t.phase == AwaitingClientHello then 0 else 1);
             if |records| == 3 then after == before + 1 else after == before
    requires t.finishedRetransmissions == s.finishedRetransmissions
    ensures Inv(e, t, log + [Out(Transmit(records, false))])
  {
    hide SealedUnder, ResponseRecord, Verified, Seals, Answers, Decisions, Count, Ordered, EpochOne;
    var n := Out(Transmit(records, false));
    PlainIsUnsealed(records);
    Recount(log, n);
    FormedGrows(e, s, t, log, [n]);
    OrderedByOne(s, t, log, n);
  }

  /** The handler was asked. */
  lemma InvAsked(e: Env, s: Joiner, log: seq<Note>, answer: bool)
    requires Inv(e, s, log) && Established(s) && s.decision.None?
    ensures Inv(e, s.(decision := Some(answer)), log + [Asked(answer)]) && Evolves(s, s.(decision := Some(answer)))
  {
    hide SealedUnder, ResponseRecord, Verified, Seals, Answers, Decisions, Count, Ordered;
    var t, n := s.(decision := Some(answer)), Asked(answer);
    VerifiedToo(e, s, t);
    Recount(log, n);
    FormedGrows(e, s, t, log, [n]);
    OrderedByOne(s, t, log, n);
  }

  /** An application record passed authentication. */
  lemma InvAuthenticated(e: Env, s: Joiner, t: Joiner, log: seq<Note>)
    requires Inv(e, s, log) && Established(s) && t == s.(window := t.window, finished := [])
    ensures Inv(e, t, log + [Authenticated]) && Evolves(s, t)
  {
    hide SealedUnder, ResponseRecord, Verified, Seals, Answers, Decisions, Count, Ordered;
    var n := Authenticated;
    VerifiedToo(e, s, t);
    Recount(log, n);
    FormedGrows(e, s, t, log, [n]);
    OrderedByOne(s, t, log, n);
  }

  /** A protected handshake record was read. */
  lemma InvUnsealed(e: Env, s: Joiner, t: Joiner, log: seq<Note>, messages: seq<Message>)
    requires Inv(e, s, log) && s.phase == AwaitingClientFlight && t == s.(window := t.window)
    ensures Inv(e, t, log + [Unsealed(messages)]) && Evolves(s, t)
    ensures !HasAuthenticated(log + [Unsealed(messages)])
  {
    hide SealedUnder, ResponseRecord, Verified, Seals, Answers, Decisions, Count;
    var n := Unsealed(messages);
    Recount(log, n);
    FormedGrows(e, s, t, log, [n]);
    OrderedByOne(s, t, log, n);
  }

  /** Our Finished again. */
  lemma InvRepeat(e: Env, s: Joiner, t: Joiner, log: seq<Note>, records: seq<Record>)
    requires Inv(e, s, log) && Established(s) && s.finished != [] && s.epoch1 < SEQUENCE_LIMIT
    requires s.finishedRetransmissions < MAX_DUPLICATE_RETRANSMISSIONS
    requires t == s.(finishedRetransmissions := s.finishedRetransmissions + 1, epoch0 := t.epoch0,
                       epoch1 := s.epoch1 + 1)
    requires |records| == 2 && records[0].header.epoch == 0 && records[1].header.epoch == 1
    requires records[1].header.contentType == Handshake && records[1].header.sequence == s.epoch1
    requires s.keys.Some? && SealedUnder(e, s.keys.value, records[1])
    ensures Inv(e, t, log + [Out(Transmit(records, false))]) && Evolves(s, t)
  {
    hide SealedUnder, ResponseRecord, Verified, Seals, Answers, Decisions, Count, Ordered, EpochOne;
    var n := Out(Transmit(records, false));
    VerifiedToo(e, s, t);
    LastIsSealed(records);
    Recount(log, n);
    FormedGrows(e, s, t, log, [n]);
    OrderedByOne(s, t, log, n);
  }

  /** The client's Finished was verified and ours went out. */
  lemma InvFinished(e: Env, s: Joiner, t: Joiner, log: seq<Note>, records: seq<Record>)
    requires Inv(e, s, log) && !HasAuthenticated(log) && s.epoch1 < SEQUENCE_LIMIT
    requires s.phase == AwaitingClientFlight || s.phase == Connected
    requires t == s.(phase := Connected, handshake := t.handshake, finished := t.finished, epoch0 := t.epoch0,
                     epoch1 := s.epoch1 + 1)
    requires |records| == 2 && records[0].header.epoch == 0 && records[1].header.epoch == 1
    requires records[1].header.contentType == Handshake && records[1].header.sequence == s.epoch1
    requires t.keys.Some? && Verified(e, t) && SealedUnder(e, t.keys.value, records[1])
    ensures var after := log + [Out(Transmit(records, false)), Out(HandshakeDone)];
            Inv(e, t, after) && !HasAuthenticated(after)
    ensures Evolves(s, t)
  {
    hide SealedUnder, ResponseRecord, Verified, Seals, Answers, Decisions, Count, Ordered, EpochOne;
    var n, m := Out(Transmit(records, false)), Out(HandshakeDone);
    LastIsSealed(records);
    Recount(log, n);
    Recount(log + [n], m);
    assert log + [n] + [m] == log + [n, m];
    FormedGrows(e, s, t, log, [n, m]);
    DoneAdded(s, t, log, records);
  }

  lemma DoneAdded(s: Joiner, t: Joiner, log: seq<Note>, records: seq<Record>)
    requires Ordered(s, log) && !HasAuthenticated(log) && Established(t) && |records| == 2
    ensures var after := log + [Out(Transmit(records, false)), Out(HandshakeDone)];
            Ordered(t, after) && !HasAuthenticated(after)
  {
    var notes := [Out(Transmit(records, false)), Out(HandshakeDone)];
    assert IsDone(notes[1]);
    OrderedGrows(s, t, log, notes);
  }

  /** A JOIN_FIN.rsp went out. */
  lemma InvSent(e: Env, s: Joiner, t: Joiner, log: seq<Note>, r: Record)
    requires Inv(e, s, log) && Established(s) && s.decision.Some? && s.epoch1 < SEQUENCE_LIMIT
    requires t == s.(epoch1 := s.epoch1 + 1)
    requires r.header.epoch == 1 && r.header.sequence == s.epoch1
    requires s.keys.Some? && ResponseRecord(e, s.keys.value, s.decision.value, r)
    ensures Inv(e, t, log + [Out(Transmit([r], s.decision.value))]) && Evolves(s, t)
  {
    hide SealedUnder, ResponseRecord, Verified, Seals, Answers, Decisions, Count, Ordered, EpochOne;
    var n := Out(Transmit([r], s.decision.value));
    VerifiedToo(e, s, t);
    LastIsSealed([r]);
    Recount(log, n);
    FormedGrows(e, s, t, log, [n]);
    OrderedByOne(s, t, log, n);
  }

  /** The first answer was announced. */
  lemma InvDecided(e: Env, s: Joiner, t: Joiner, log: seq<Note>, info: JoinFin.Info)
    requires Inv(e, s, log) && s.phase == Connected && s.decision.Some? && t == s.(phase := Finalized)
    ensures Inv(e, t, log + [Out(Decided(s.decision.value, info))]) && Evolves(s, t)
  {
    hide SealedUnder, ResponseRecord, Verified, Seals, Answers, Decisions, Count, Ordered;
    var n := Out(Decided(s.decision.value, info));
    VerifiedToo(e, s, t);
    Recount(log, n);
    FormedGrows(e, s, t, log, [n]);
    OrderedByOne(s, t, log, n);
  }

  // ---- The handlers ----

  ghost predicate KeepsAs(e: Env, s: Joiner, log: seq<Note>, o: Outcome, t: Joiner) {
    Inv(e, t, log + o.log) && Evolves(s, t) && (o.ok ==> t == o.state)
  }

  /** The invariant goes on; a session that failed is dropped, so its log alone
      matters then. */
  ghost predicate Keeps(e: Env, s: Joiner, log: seq<Note>, o: Outcome) {
    exists t :: KeepsAs(e, s, log, o, t)
  }

  lemma KeepsQuiet(e: Env, s: Joiner, t: Joiner, log: seq<Note>, ok: bool)
    requires Inv(e, s, log) && StateOk(e, t) && Evolves(s, t)
    requires t.phase == s.phase && t.epoch1 == s.epoch1 && t.decision == s.decision && t.finished == s.finished
    requires t.flightRetransmissions >= s.flightRetransmissions
             && t.finishedRetransmissions >= s.finishedRetransmissions
    ensures Keeps(e, s, log, Outcome(t, [], ok))
  {
    hide Inv, StateOk, Evolves;
    InvQuiet(e, s, t, log);
    assert KeepsAs(e, s, log, Outcome(t, [], ok), t);
  }

  lemma InvOf(e: Env, s: Joiner, log: seq<Note>, o: Outcome)
    requires Keeps(e, s, log, o) && o.ok
    ensures Inv(e, o.state, log + o.log) && Evolves(s, o.state)
  {
  }

  lemma KeepsThen(e: Env, s: Joiner, log: seq<Note>, o: Outcome, next: Outcome)
    requires Keeps(e, s, log, o)
    requires o.ok ==> Keeps(e, o.state, log + o.log, next)
    ensures Keeps(e, s, log, Then(o, next))
  {
    hide Inv;
    var t :| KeepsAs(e, s, log, o, t);
    if o.ok {
      Appended(log, o.log, next.log);
      var w :| KeepsAs(e, o.state, log + o.log, next, w);
      assert KeepsAs(e, s, log, Then(o, next), w);
    }
  }

  lemma FlightHasThree(messages: seq<Message>, next: u64)
    requires |messages| == 3 && SD.FlightOf(messages, next).Ok?
    ensures |SD.FlightOf(messages, next).value.0| == 3 && EpochZero(SD.FlightOf(messages, next).value.0)
  {
    hide Encode;
    var a := messages[1..];
    var b := a[1..];
    assert b[1..] == [];
    var n1 := WrappingIncrement(next);
    var n2 := WrappingIncrement(n1);
    assert SD.FlightOf(messages, next).value.0 == [SD.FlightOf(messages, next).value.0[0]] + SD.FlightOf(a, n1).value.0;
    assert SD.FlightOf(a, n1).value.0 == [SD.FlightOf(a, n1).value.0[0]] + SD.FlightOf(b, n2).value.0;
    assert SD.FlightOf(b, n2).value.0 == [SD.FlightOf(b, n2).value.0[0]] + [];
  }

  lemma AcceptKeeps(e: Env, s: Joiner, log: seq<Note>, m: Message, sequence: u64, v: nat)
    requires e.suite.curve.order > 0 && Inv(e, s, log) && s.phase == AwaitingClientHello
    ensures Keeps(e, s, log, Accept(e, s, m, sequence, v))
  {
    hide Counted, Formed, Ordered, Verified, SD.FlightOf, SD.Answer;
    var answer := SD.Answer(e.suite, s.handshake, m, v);
    if answer.Ok? && SD.FlightOf(answer.value.1, sequence).Ok? {
      AnswerHasThree(e.suite, s.handshake, m, v);
      FlightHasThree(answer.value.1, sequence);
      var t := Accept(e, s, m, sequence, v).state;
      InvPlain(e, s, t, log, t.flight);
      assert KeepsAs(e, s, log, Accept(e, s, m, sequence, v), t);
    } else {
      KeepsQuiet(e, s, s, log, false);
    }
  }

  lemma AnswerHasThree(s: Suite, h: SH.ServerHandshake, m: Message, v: nat)
    requires s.curve.order > 0
    ensures SD.Answer(s, h, m, v).Ok? ==> |SD.Answer(s, h, m, v).value.1| == 3
  {
    hide SH.HandleClientHello, SH.BuildServerHello, SH.BuildServerKeyExchange, SH.BuildServerHelloDone;
  }

  lemma PlaintextKeeps(e: Env, s: Joiner, log: seq<Note>, m: Message, sequence: u64, v: nat)
    requires e.suite.curve.order > 0 && Inv(e, s, log)
    ensures Keeps(e, s, log, Plaintext(e, s, m, sequence, v))
  {
    hide Counted, Formed, Ordered, Verified, Accept, Renumbered, SH.HandleClientKeyExchange, SH.DeriveKeys,
         Hello.DecodeClientHello, Keeps;
    var o := Plaintext(e, s, m, sequence, v);
    if m.kind == ClientHello && s.phase == AwaitingClientHello {
      AcceptKeeps(e, s, log, m, sequence, v);
      if o.log != [] && |o.log| == 1 && o != Accept(e, s, m, sequence, v) {
        VerifyKeeps(e, s, log, o.log[0].event.records[0]);
      }
      KeepsQuiet(e, s, s, log, false);
    } else if m.kind == ClientHello && s.phase == AwaitingClientFlight && o.log != [] {
      RenumberedZero(s.flight, s.epoch0);
      ResendKeeps(e, s, o.state, log);
    } else {
      KeepsQuiet(e, s, o.state, log, o.ok);
    }
  }

  lemma VerifyKeeps(e: Env, s: Joiner, log: seq<Note>, r: Record)
    requires Inv(e, s, log) && s.phase == AwaitingClientHello && r.header.epoch == 0
    ensures Keeps(e, s, log, Outcome(s, [Out(Transmit([r], false))], true))
  {
    hide Counted, Formed, Ordered, Verified;
    InvPlain(e, s, s, log, [r]);
    assert KeepsAs(e, s, log, Outcome(s, [Out(Transmit([r], false))], true), s);
  }

  lemma ResendKeeps(e: Env, s: Joiner, t: Joiner, log: seq<Note>)
    requires Inv(e, s, log) && s.phase == AwaitingClientFlight
    requires s.flightRetransmissions < MAX_DUPLICATE_RETRANSMISSIONS && |t.flight| == 3 && EpochZero(t.flight)
    requires t == s.(flightRetransmissions := s.flightRetransmissions + 1, flight := t.flight, epoch0 := t.epoch0)
    ensures Keeps(e, s, log, Outcome(t, [Out(Transmit(t.flight, false))], true))
  {
    hide Counted, Formed, Ordered, Verified;
    InvPlain(e, s, t, log, t.flight);
    assert KeepsAs(e, s, log, Outcome(t, [Out(Transmit(t.flight, false))], true), t);
  }

  lemma {:induction false} PlaintextsKeep(
    e: Env, s: Joiner, log: seq<Note>, messages: seq<Message>, sequence: u64, v: nat)
    requires e.suite.curve.order > 0 && Inv(e, s, log)
    ensures Keeps(e, s, log, Plaintexts(e, s, messages, sequence, v))
    decreases |messages|
  {
    hide Inv, Plaintext, Evolves, Keeps;
    if messages == [] {
      KeepsNothing(e, s, log, true);
    } else {
      PlaintextKeeps(e, s, log, messages[0], sequence, v);
      var o := Plaintext(e, s, messages[0], sequence, v);
      if o.ok {
        InvOf(e, s, log, o);
        PlaintextsKeep(e, o.state, log + o.log, messages[1..], sequence, v);
      }
      KeepsThen(e, s, log, o, Plaintexts(e, o.state, messages[1..], sequence, v));
    }
  }

  lemma KeepsNothing(e: Env, s: Joiner, log: seq<Note>, ok: bool)
    requires Inv(e, s, log)
    ensures Keeps(e, s, log, Outcome(s, [], ok))
  {
    hide Counted, Formed, Ordered, Verified;
    KeepsQuiet(e, s, s, log, ok);
  }

  /** A record protected now carries the current counter. */
  lemma SealFacts(e: Env, s: Joiner, contentType: ContentType, text: bytes, r: Record)
    requires Seal(e.suite.cipher, s, contentType, text) == Ok(r)
    ensures s.keys.Some? && s.epoch1 < SEQUENCE_LIMIT && WrappingIncrement(s.epoch1) == s.epoch1 + 1
    ensures r.header.epoch == 1 && r.header.sequence == s.epoch1 && r.header.contentType == contentType
    ensures SealedUnder(e, s.keys.value, r)
  {
    hide Protect;
  }

  lemma FlightFacts(e: Env, s: Joiner)
    ensures var (t, flight) := FinishedFlight(e.suite.cipher, s);
            && t == s.(epoch0 := t.epoch0, epoch1 := t.epoch1)
            && (flight.Err? ==> t.epoch1 == s.epoch1)
            && (flight.Ok? ==> && s.keys.Some? && s.epoch1 < SEQUENCE_LIMIT && t.epoch1 == s.epoch1 + 1
                               && |flight.value| == 2 && flight.value[0].header.epoch == 0
                               && flight.value[1].header.epoch == 1 && flight.value[1].header.contentType == Handshake
                               && flight.value[1].header.sequence == s.epoch1
                               && SealedUnder(e, s.keys.value, flight.value[1]))
  {
    hide Seal, SealedUnder;
    if s.keys.Some? {
      var t := s.(epoch0 := WrappingIncrement(s.epoch0));
      if Seal(e.suite.cipher, t, Handshake, t.finished).Ok? {
        SealFacts(e, t, Handshake, t.finished, Seal(e.suite.cipher, t, Handshake, t.finished).value);
      }
    }
  }

  lemma ClientFinishedKeeps(e: Env, s: Joiner, log: seq<Note>, m: Message)
    requires Inv(e, s, log) && !HasAuthenticated(log) && (s.phase == AwaitingClientFlight || s.phase == Connected)
    ensures var o := ClientFinished(e, s, m);
            && Keeps(e, s, log, o)
            && (o.ok ==> && !HasAuthenticated(log + o.log)
                         && (o.state.phase == AwaitingClientFlight || o.state.phase == Connected))
  {
    hide Counted, Formed, Ordered, Verified, SH.VerifyClientFinished, SH.BuildServerFinished, Encode, FinishedFlight,
         SealedUnder, HasAuthenticated;
    var o := ClientFinished(e, s, m);
    if m.kind != Finished {
      KeepsNothing(e, s, log, true);
      assert log + [] == log;
    } else if s.keys.Some? && s.clientHello.Some?
              && SH.VerifyClientFinished(e.suite, s.handshake, m, s.keys.value).Ok? {
      var keys := s.keys.value;
      var h := SH.VerifyClientFinished(e.suite, s.handshake, m, keys).value;
      var number := (s.clientHello.value.messageSeq + 3) % 0x1_0000;
      var built := SH.BuildServerFinished(e.suite, h, number, keys);
      if built.Ok? && Encode(built.value.1).Ok? {
        var b := s.(handshake := built.value.0, finished := Encode(built.value.1).value);
        FlightFacts(e, b);
        if FinishedFlight(e.suite.cipher, b).1.Ok? {
          VerifiedNow(e, s, m, number, o.state);
          InvFinished(e, s, o.state, log, FinishedFlight(e.suite.cipher, b).1.value);
          assert KeepsAs(e, s, log, o, o.state);
        }
      }
    }
    if !o.ok {
      FailKeeps(e, s, log, o);
    }
  }

  lemma FailKeeps(e: Env, s: Joiner, log: seq<Note>, o: Outcome)
    requires Inv(e, s, log) && !o.ok && o.log == []
    ensures Keeps(e, s, log, o)
  {
    hide Inv;
    assert log + [] == log;
    assert KeepsAs(e, s, log, o, s);
  }

  lemma VerifiedNow(e: Env, s: Joiner, m: Message, number: u16, t: Joiner)
    requires s.keys.Some? && t.keys == s.keys && SH.VerifyClientFinished(e.suite, s.handshake, m, s.keys.value).Ok?
    requires var h := SH.VerifyClientFinished(e.suite, s.handshake, m, s.keys.value).value;
             var built := SH.BuildServerFinished(e.suite, h, number, s.keys.value);
             built.Ok? && t.handshake == built.value.0
    ensures Verified(e, t)
  {
    hide SH.VerifyClientFinished, SH.BuildServerFinished;
  }

  lemma {:induction false} ClientFinishedsKeep(e: Env, s: Joiner, log: seq<Note>, messages: seq<Message>)
    requires Inv(e, s, log) && !HasAuthenticated(log) && (s.phase == AwaitingClientFlight || s.phase == Connected)
    ensures Keeps(e, s, log, ClientFinisheds(e, s, messages))
    decreases |messages|
  {
    hide Inv, ClientFinished, Evolves, Keeps;
    if messages == [] {
      KeepsNothing(e, s, log, true);
    } else {
      ClientFinishedKeeps(e, s, log, messages[0]);
      var o := ClientFinished(e, s, messages[0]);
      if o.ok {
        InvOf(e, s, log, o);
        ClientFinishedsKeep(e, o.state, log + o.log, messages[1..]);
      }
      KeepsThen(e, s, log, o, ClientFinisheds(e, o.state, messages[1..]));
    }
  }

  lemma EncryptedKeeps(e: Env, s: Joiner, log: seq<Note>, record: Record)
    requires Inv(e, s, log)
    ensures Keeps(e, s, log, Encrypted(e, s, record))
  {
    hide Counted, Formed, Verified, ClientFinisheds, Open, Messages, Keeps;
    KeepsNothing(e, s, log, true);
    KeepsNothing(e, s, log, false);
    var t := AfterOpen(e.suite.cipher, s, record);
    if s.phase == AwaitingClientFlight {
      assert !HasAuthenticated(log);
      KeepsQuiet(e, s, t, log, false);
      QuietInv(e, s, t, log);
      var text := Opened(e.suite.cipher, s, record);
      if text.Ok? && text.value.Some? {
        var plain := NewRecord(Handshake, 1, 0, text.value.value);
        if plain.Ok? && Messages(plain.value).Ok? {
          var messages := Messages(plain.value).value;
          InvUnsealed(e, s, t, log, messages);
          KeepsState(e, s, t, log, Outcome(t, [Unsealed(messages)], true));
          ClientFinishedsKeep(e, t, log + [Unsealed(messages)], messages);
          KeepsThen(e, s, log, Outcome(t, [Unsealed(messages)], true), ClientFinisheds(e, t, messages));
        }
      }
    }
  }

  lemma QuietInv(e: Env, s: Joiner, t: Joiner, log: seq<Note>)
    requires Inv(e, s, log) && t == s.(window := t.window)
    ensures Inv(e, t, log) && Evolves(s, t)
  {
  }

  lemma RespondKeeps(e: Env, s: Joiner, log: seq<Note>, request: Coap.CoapMessage, info: JoinFin.Info)
    requires Inv(e, s, log) && Established(s) && s.decision.Some?
    ensures Keeps(e, s, log, Respond(e, s, request, info))
  {
    hide Inv, Seal, Coap.Encoded, Evolves, Keeps, ResponseRecord;
    var o := Respond(e, s, request, info);
    var text := Coap.Encoded(JoinFin.Response(request.messageId, request.token, s.decision.value));
    if text.Err? || Seal(e.suite.cipher, s, ApplicationData, text.value).Err? {
      KeepsNothing(e, s, log, false);
    } else {
      var r := Seal(e.suite.cipher, s, ApplicationData, text.value).value;
      SealFacts(e, s, ApplicationData, text.value, r);
      ResponseSealed(e, s, request, text.value, r);
      var t := s.(epoch1 := s.epoch1 + 1);
      var n := Out(Transmit([r], s.decision.value));
      InvSent(e, s, t, log, r);
      if s.phase == Finalized {
        assert [n] + [] == [n];
        KeepsState(e, s, t, log, o);
      } else {
        var m := Out(Decided(s.decision.value, info));
        InvDecided(e, t, o.state, log + [n], info);
        assert log + [n] + [m] == log + ([n] + [m]);
        EvolvesOn(s, t, o.state);
        KeepsState(e, s, o.state, log, o);
      }
    }
  }

  lemma EvolvesOn(s: Joiner, t: Joiner, w: Joiner)
    requires Evolves(s, t) && Evolves(t, w)
    ensures Evolves(s, w)
  {
  }

  lemma KeepsState(e: Env, s: Joiner, t: Joiner, log: seq<Note>, o: Outcome)
    requires o.state == t && Inv(e, t, log + o.log) && Evolves(s, t)
    ensures Keeps(e, s, log, o)
  {
    hide Inv, Evolves;
    assert KeepsAs(e, s, log, o, t);
  }

  lemma ResponseSealed(e: Env, s: Joiner, request: Coap.CoapMessage, text: bytes, r: Record)
    requires s.decision.Some? && s.keys.Some?
    requires Coap.Encoded(JoinFin.Response(request.messageId, request.token, s.decision.value)) == Ok(text)
    requires Seal(e.suite.cipher, s, ApplicationData, text) == Ok(r) && r.header.sequence == s.epoch1
    ensures ResponseRecord(e, s.keys.value, s.decision.value, r)
  {
    hide Coap.Encoded, Protect;
  }

  lemma JoinFinKeeps(e: Env, s: Joiner, log: seq<Note>, plaintext: bytes, decide: JoinFin.Info -> bool)
    requires Inv(e, s, log) && Established(s)
    ensures Keeps(e, s, log, JoinFinRequest(e, s, plaintext, decide))
  {
    hide Inv, Respond, Coap.Decoded, JoinFin.Path, JoinFin.InfoFrom, Keeps;
    KeepsNothing(e, s, log, true);
    KeepsNothing(e, s, log, false);
    var request := Coap.Decoded(plaintext);
    if request.Ok? && JoinFin.InfoFrom(e.utf8, request.value.payload).Ok? {
      var info := JoinFin.InfoFrom(e.utf8, request.value.payload).value;
      if s.decision.Some? {
        RespondKeeps(e, s, log, request.value, info);
      } else {
        var answer := decide(info);
        var t := s.(decision := Some(answer));
        InvAsked(e, s, log, answer);
        KeepsState(e, s, t, log, Outcome(t, [Asked(answer)], true));
        RespondKeeps(e, t, log + [Asked(answer)], request.value, info);
        KeepsThen(e, s, log, Outcome(t, [Asked(answer)], true), Respond(e, t, request.value, info));
      }
    }
  }

  lemma AppDataKeeps(e: Env, s: Joiner, log: seq<Note>, record: Record, decide: JoinFin.Info -> bool)
    requires Inv(e, s, log)
    ensures Keeps(e, s, log, AppData(e, s, record, decide))
  {
    hide Inv, JoinFinRequest, Keeps, Open;
    KeepsNothing(e, s, log, true);
    var text := Opened(e.suite.cipher, s, record);
    if Established(s) && text.Ok? && text.value.Some? {
      var t := AfterOpen(e.suite.cipher, s, record).(finished := []);
      InvAuthenticated(e, s, t, log);
      KeepsState(e, s, t, log, Outcome(t, [Authenticated], true));
      JoinFinKeeps(e, t, log + [Authenticated], text.value.value, decide);
      KeepsThen(e, s, log, Outcome(t, [Authenticated], true), JoinFinRequest(e, t, text.value.value, decide));
    }
  }

  lemma OneRecordKeeps(e: Env, s: Joiner, log: seq<Note>, established: bool, record: Record, input: Input)
    requires e.suite.curve.order > 0 && Inv(e, s, log)
    ensures Keeps(e, s, log, OneRecord(e, s, established, record, input))
  {
    hide Inv, Plaintexts, Encrypted, AppData, Keeps, Messages, Opened, AfterOpen;
    KeepsNothing(e, s, log, true);
    KeepsNothing(e, s, log, false);
    CcsKeeps(e, s, log);
    FailKeeps(e, s, log, Fail(AfterOpen(e.suite.cipher, s, record)));
    EncryptedKeeps(e, s, log, record);
    AppDataKeeps(e, s, log, record, input.decide);
    if Messages(record).Ok? {
      PlaintextsKeep(e, s, log, Messages(record).value, record.header.sequence, input.v);
    }
  }

  lemma CcsKeeps(e: Env, s: Joiner, log: seq<Note>)
    requires Inv(e, s, log)
    ensures Keeps(e, s, log, Quiet(s.(sawChangeCipherSpec := true)))
  {
    hide Counted, Formed, Ordered;
    KeepsQuiet(e, s, s.(sawChangeCipherSpec := true), log, true);
  }

  lemma {:induction false} AllRecordsKeep(
    e: Env, s: Joiner, log: seq<Note>, established: bool, records: seq<Record>, input: Input)
    requires e.suite.curve.order > 0 && Inv(e, s, log)
    ensures Keeps(e, s, log, AllRecords(e, s, established, records, input))
    decreases |records|
  {
    hide Inv, OneRecord, Evolves, Keeps;
    if records == [] {
      KeepsNothing(e, s, log, true);
    } else {
      OneRecordKeeps(e, s, log, established, records[0], input);
      var o := OneRecord(e, s, established, records[0], input);
      if o.ok {
        InvOf(e, s, log, o);
        AllRecordsKeep(e, o.state, log + o.log, established, records[1..], input);
      }
      KeepsThen(e, s, log, o, AllRecords(e, o.state, established, records[1..], input));
    }
  }

  lemma AnswerRepeatKeeps(e: Env, s: Joiner, log: seq<Note>, records: seq<Record>)
    requires Inv(e, s, log)
    ensures Keeps(e, s, log, AnswerRepeat(e, s, records))
  {
    hide Counted, Formed, Ordered, Verified, FinishedFlight, Keeps, SealedUnder, IsClientFinishedFlight;
    KeepsNothing(e, s, log, true);
    var o := AnswerRepeat(e, s, records);
    if o.log != [] {
      var u := s.(finishedRetransmissions := s.finishedRetransmissions + 1);
      FlightFacts(e, u);
      InvRepeat(e, s, o.state, log, FinishedFlight(e.suite.cipher, u).1.value);
      KeepsState(e, s, o.state, log, o);
    } else if !o.ok {
      FailKeeps(e, s, log, o);
    }
  }

  lemma ReceivedKeeps(e: Env, s: Joiner, log: seq<Note>, input: Input)
    requires e.suite.curve.order > 0 && Inv(e, s, log)
    ensures Keeps(e, s, log, Received(e, s, input))
  {
    hide Inv, AllRecords, AnswerRepeat, Parsed, Evolves, Keeps;
    KeepsNothing(e, s, log, true);
    if Parsed(input.payload).Ok? {
      var records := Parsed(input.payload).value;
      AnswerRepeatKeeps(e, s, log, records);
      var o := AnswerRepeat(e, s, records);
      if o.ok {
        InvOf(e, s, log, o);
        AllRecordsKeep(e, o.state, log + o.log, Established(s), records, input);
      }
      KeepsThen(e, s, log, o, AllRecords(e, o.state, Established(s), records, input));
    }
  }

  // ---- Runs ----

  /** Feeding payloads one after the other, until one fails the session. */
  function Run(e: Env, s: Joiner, inputs: seq<Input>): Outcome
    requires e.suite.curve.order > 0
  {
    if inputs == [] then Quiet(s) else
    var before := Run(e, s, inputs[..|inputs| - 1]);
    Then(before, Received(e, before.state, inputs[|inputs| - 1]))
  }

  /** A session nothing has happened to. */
  predicate IsNew(s: Joiner) {
    s == New(s.handshake, s.cookieKey)
  }

  lemma NewKeeps(e: Env, s: Joiner)
    requires IsNew(s)
    ensures Inv(e, s, [])
  {
  }

  lemma {:induction false} RunKeeps(e: Env, s: Joiner, inputs: seq<Input>)
    requires e.suite.curve.order > 0 && IsNew(s)
    ensures Keeps(e, s, [], Run(e, s, inputs))
    decreases |inputs|
  {
    hide Inv, Received, Evolves, Keeps;
    NewKeeps(e, s);
    if inputs == [] {
      KeepsNothing(e, s, [], true);
    } else {
      RunKeeps(e, s, inputs[..|inputs| - 1]);
      var before := Run(e, s, inputs[..|inputs| - 1]);
      if before.ok {
        InvOf(e, s, [], before);
        ReceivedKeeps(e, before.state, [] + before.log, inputs[|inputs| - 1]);
      }
      KeepsThen(e, s, [], before, Received(e, before.state, inputs[|inputs| - 1]));
    }
  }

  /** The invariant of a run's log, under whatever state justifies it. */
  lemma LogOf(e: Env, s: Joiner, inputs: seq<Input>) returns (t: Joiner)
    requires e.suite.curve.order > 0 && IsNew(s)
    ensures Inv(e, t, Run(e, s, inputs).log) && (Run(e, s, inputs).ok ==> t == Run(e, s, inputs).state)
  {
    hide Inv, Run, Evolves;
    RunKeeps(e, s, inputs);
    var o := Run(e, s, inputs);
    t :| KeepsAs(e, s, [], o, t);
    assert [] + o.log == o.log;
  }

  lemma FormSealed(e: Env, keys: Keys, decision: Option<bool>, n: Note)
    requires Form(e, Some(keys), decision, n)
    ensures forall i :: 0 <= i < |SealIn(n)| ==> SealedUnder(e, keys, SealIn(n)[i])
  {
    hide Protect, Coap.Encoded, EpochOne;
    if n.Out? && n.event.Transmit? {
      var records := n.event.records;
      if EpochZero(records) {
        PlainIsUnsealed(records);
      } else {
        LastIsSealed(records);
      }
    }
  }

  lemma {:induction false} SealsUnder(e: Env, keys: Keys, decision: Option<bool>, log: seq<Note>)
    requires forall i :: 0 <= i < |log| ==> Form(e, Some(keys), decision, log[i])
    ensures forall i :: 0 <= i < |Seals(log)| ==> SealedUnder(e, keys, Seals(log)[i])
    decreases |log|
  {
    hide Form, SealedUnder, SealIn;
    if log != [] {
      SealsUnder(e, keys, decision, log[..|log| - 1]);
      FormSealed(e, keys, decision, log[|log| - 1]);
    }
  }

  /** Over every run the protected records are numbered 0, 1, 2, ... below
      2^48, so that no two share a nonce, and all are protected with the same
      keys. */
  lemma NoncesNeverRepeat(e: Env, s: Joiner, inputs: seq<Input>) returns (keys: Keys)
    requires e.suite.curve.order > 0 && IsNew(s)
    ensures var seals := Seals(Run(e, s, inputs).log);
            && |seals| <= SEQUENCE_LIMIT
            && (forall i :: 0 <= i < |seals| ==> seals[i].header.sequence == i && SealedUnder(e, keys, seals[i]))
            && forall i, j :: 0 <= i < j < |seals| ==>
                 Nonce(keys.serverIv, 1, seals[i].header.sequence) != Nonce(keys.serverIv, 1, seals[j].header.sequence)
  {
    hide Run, Ordered, Seals, Form, SealedUnder, Verified, Nonce;
    var t := LogOf(e, s, inputs);
    var log := Run(e, s, inputs).log;
    var zero: FixedIv := [0, 0, 0, 0];
    keys := Keys([], [], [], zero, zero);
    if Established(t) {
      EstablishedHasKeys(e, t);
      keys := t.keys.value;
      SealsUnder(e, keys, t.decision, log);
    }
    var seals := Seals(log);
    forall i, j | 0 <= i < j < |seals|
      ensures Nonce(keys.serverIv, 1, seals[i].header.sequence) != Nonce(keys.serverIv, 1, seals[j].header.sequence)
    {
      if Nonce(keys.serverIv, 1, i) == Nonce(keys.serverIv, 1, j) {
        NonceInjective(keys.serverIv, 1, i, j);
      }
    }
  }

  lemma EstablishedHasKeys(e: Env, s: Joiner)
    requires StateOk(e, s) && Established(s)
    ensures s.keys.Some?
  {
  }

  /** The handler is asked at most once, its answer is announced at most once,
      every JOIN_FIN.rsp carries that answer and follows a completed handshake,
      and the KEK goes with accepting responses and nothing else. */
  lemma OneDecision(e: Env, s: Joiner, inputs: seq<Input>)
    requires e.suite.curve.order > 0 && IsNew(s)
    ensures var log := Run(e, s, inputs).log;
            && |Answers(log)| <= 1 && |Decisions(log)| <= |Answers(log)|
            && (|Decisions(log)| == 1 ==> Decisions(log) == Answers(log))
            && (forall i :: 0 <= i < |log| && IsResponse(log[i]) ==>
                  && HasDone(log[..i]) && Answers(log) == [log[i].event.kek]
                  && exists keys :: ResponseRecord(e, keys, log[i].event.kek, log[i].event.records[0]))
            && (forall i :: 0 <= i < |log| && log[i].Out? && log[i].event.Transmit? && log[i].event.kek ==>
                  IsResponse(log[i]))
  {
    hide Run, Seals, Count, ResponseRecord, SealedUnder, Verified, HasDone, Answers, Decisions;
    var t := LogOf(e, s, inputs);
    var log := Run(e, s, inputs).log;
    forall i | 0 <= i < |log| && log[i].Out? && log[i].event.Transmit?
      ensures log[i].event.kek ==> IsResponse(log[i])
      ensures IsResponse(log[i]) ==>
                && Answers(log) == [log[i].event.kek]
                && exists keys :: ResponseRecord(e, keys, log[i].event.kek, log[i].event.records[0])
    {
      assert Form(e, SendKeys(t), t.decision, log[i]);
      ResponseForm(e, SendKeys(t), t.decision, log[i]);
    }
  }

  lemma ResponseForm(e: Env, keys: Option<Keys>, decision: Option<bool>, n: Note)
    requires Form(e, keys, decision, n) && n.Out? && n.event.Transmit?
    ensures n.event.kek ==> IsResponse(n)
    ensures IsResponse(n) ==> keys.Some? && decision == Some(n.event.kek)
                              && ResponseRecord(e, keys.value, n.event.kek, n.event.records[0])
  {
    hide Coap.Encoded, Protect;
  }

  /** Counting the flights against the completed handshakes. */
  lemma FlightsCounted(e: Env, s: Joiner, inputs: seq<Input>)
    requires e.suite.curve.order > 0 && IsNew(s)
    ensures var log := Run(e, s, inputs).log;
            && Count(IsFlight, log) <= 1 + MAX_DUPLICATE_RETRANSMISSIONS
            && Count(IsLastFlight, log) <= Count(IsDone, log) + MAX_DUPLICATE_RETRANSMISSIONS
            && forall i, j :: 0 <= i < j < |log| && log[i] == Authenticated ==> !IsLastFlight(log[j])
  {
    hide Run, Seals, Count, Form, Verified, Answers, Decisions, HasDone, HasAuthenticated;
    var t := LogOf(e, s, inputs);
  }

  /** From any point of a run on, the phase never moves back, keys a record was
      protected with stay, and a decision stays. */
  lemma {:induction false} RunEvolves(e: Env, s: Joiner, inputs: seq<Input>, k: nat)
    requires e.suite.curve.order > 0 && IsNew(s) && k <= |inputs| && Run(e, s, inputs).ok
    ensures Run(e, s, inputs[..k]).ok
    ensures var before, after := Run(e, s, inputs[..k]).state, Run(e, s, inputs).state;
            Evolves(before, after) && (before.epoch1 > 0 ==> after.keys == before.keys)
    decreases |inputs|
  {
    hide Inv, Received, Keeps;
    var after := Run(e, s, inputs);
    if k == |inputs| {
      assert inputs[..k] == inputs;
    } else {
      var shorter := inputs[..|inputs| - 1];
      var before := Run(e, s, shorter);
      assert shorter[..k] == inputs[..k];
      RunEvolves(e, s, shorter, k);
      RunKeeps(e, s, shorter);
      InvOf(e, s, [], before);
      ReceivedKeeps(e, before.state, [] + before.log, inputs[|inputs| - 1]);
      InvOf(e, before.state, [] + before.log, Received(e, before.state, inputs[|inputs| - 1]));
      RunKeeps(e, s, inputs[..k]);
      InvOf(e, s, [], Run(e, s, inputs[..k]));
      SentMeansEstablished(e, Run(e, s, inputs[..k]).state, [] + Run(e, s, inputs[..k]).log);
    }
  }

  lemma SentMeansEstablished(e: Env, s: Joiner, log: seq<Note>)
    requires Inv(e, s, log)
    ensures s.epoch1 > 0 ==> Established(s)
  {
  }

  lemma {:induction false} CountSplits(p: Note -> bool, a: seq<Note>, b: seq<Note>)
    ensures Count(p, a + b) == Count(p, a) + Count(p, b)
    decreases |b|
  {
    if b == [] {
      assert a + b == a;
    } else {
      assert (a + b)[..|a + b| - 1] == a + b[..|b| - 1];
      CountSplits(p, a, b[..|b| - 1]);
    }
  }
}
