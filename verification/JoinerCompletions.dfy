/** How often a joiner session reports a completed handshake, over every run. */
module JoinerCompletions {
  import opened Wire
  import opened Records
  import opened Framing
  import opened Flights
  import opened Protection
  import Replay
  import opened Joiner
  import opened JoinerRuns
  import SH = ServerHandshakes
  import SD = ServerDriver
  import Hello
  import Coap
  import JoinFin

  /** The number of Finished messages. */
  function FinishedIn(messages: seq<Message>): nat {
    if messages == [] then 0 else (if messages[0].kind == Finished then 1 else 0) + FinishedIn(messages[1..])
  }

  /** The Finished messages of all protected handshake records read. */
  function FinishedRead(log: seq<Note>): nat {
    if log == [] then 0 else
    FinishedRead(log[..|log| - 1])
    + match log[|log| - 1] case Unsealed(messages) => FinishedIn(messages) case _ => 0
  }

  /** A protected handshake record with a Finished in it. */
  predicate Accepting(n: Note) {
    n.Unsealed? && FinishedIn(n.messages) > 0
  }

  lemma ReadGrows(log: seq<Note>, n: Note)
    ensures FinishedRead(log + [n])
            == FinishedRead(log) + match n case Unsealed(messages) => FinishedIn(messages) case _ => 0
  {
    assert (log + [n])[..|log|] == log;
  }

  ghost predicate NoneRead(log: seq<Note>) {
    forall i :: 0 <= i < |log| ==> !log[i].Unsealed?
  }

  /** Notes that neither complete a handshake nor read a protected one. */
  ghost predicate Aside(log: seq<Note>) {
    NoneRead(log) && forall i :: 0 <= i < |log| ==> !IsDone(log[i])
  }

  lemma {:induction false} NoneReadCounts(log: seq<Note>, notes: seq<Note>)
    requires NoneRead(notes)
    ensures Count(Accepting, log + notes) == Count(Accepting, log)
    ensures FinishedRead(log + notes) == FinishedRead(log)
    decreases |notes|
  {
    hide Count, FinishedRead;
    if notes == [] {
      assert log + notes == log;
    } else {
      var rest, n := notes[..|notes| - 1], notes[|notes| - 1];
      NoneReadCounts(log, rest);
      assert log + notes == (log + rest) + [n];
      CountGrows(Accepting, log + rest, n);
      ReadGrows(log + rest, n);
    }
  }

  lemma {:induction false} AsideCounts(log: seq<Note>, notes: seq<Note>)
    requires Aside(notes)
    ensures Count(IsDone, log + notes) == Count(IsDone, log)
    ensures Count(Accepting, log + notes) == Count(Accepting, log)
    ensures FinishedRead(log + notes) == FinishedRead(log)
    decreases |notes|
  {
    hide Count, FinishedRead;
    NoneReadCounts(log, notes);
    if notes == [] {
      assert log + notes == log;
    } else {
      var rest, n := notes[..|notes| - 1], notes[|notes| - 1];
      AsideCounts(log, rest);
      assert log + notes == (log + rest) + [n];
      CountGrows(IsDone, log + rest, n);
    }
  }

  // ---- The invariant ----

  /** While the session lives, it has reported one completed handshake per
      Finished read, and all of them were in one record. */
  ghost predicate Reported(s: Joiner, log: seq<Note>) {
    && Count(IsDone, log) == FinishedRead(log)
    && Count(Accepting, log) == (if Established(s) then 1 else 0)
    && (!Established(s) ==> FinishedRead(log) == 0)
  }

  ghost predicate Bounded(log: seq<Note>) {
    Count(IsDone, log) <= FinishedRead(log) && Count(Accepting, log) <= 1
  }

  ghost predicate Goes(log: seq<Note>, o: Outcome) {
    Bounded(log + o.log) && (o.ok ==> Reported(o.state, log + o.log))
  }

  /** A step that has nothing to do with completing the handshake. */
  ghost predicate Unrelated(s: Joiner, o: Outcome) {
    Aside(o.log) && (o.ok ==> (Established(o.state) <==> Established(s)))
  }

  lemma UnrelatedGoes(s: Joiner, log: seq<Note>, o: Outcome)
    requires Reported(s, log) && Unrelated(s, o)
    ensures Goes(log, o)
  {
    hide Count, FinishedRead;
    AsideCounts(log, o.log);
  }

  lemma UnrelatedThen(s: Joiner, o: Outcome, next: Outcome)
    requires Unrelated(s, o) && (o.ok ==> Unrelated(o.state, next))
    ensures Unrelated(s, Then(o, next))
  {
  }

  lemma GoesThen(log: seq<Note>, o: Outcome, next: Outcome)
    requires Goes(log, o) && (o.ok ==> Goes(log + o.log, next))
    ensures Goes(log, Then(o, next))
  {
    hide Reported, Bounded;
    if o.ok {
      Appended(log, o.log, next.log);
    }
  }

  // ---- The handlers ----

  lemma PlaintextUnrelated(e: Env, s: Joiner, m: Message, sequence: u64, v: nat)
    requires e.suite.curve.order > 0
    ensures Unrelated(s, Plaintext(e, s, m, sequence, v))
  {
    hide SD.Answer, SD.FlightOf, Renumbered, SH.HandleClientKeyExchange, SH.DeriveKeys, Hello.DecodeClientHello,
         HelloVerify;
  }

  lemma {:induction false} PlaintextsUnrelated(e: Env, s: Joiner, messages: seq<Message>, sequence: u64, v: nat)
    requires e.suite.curve.order > 0
    ensures Unrelated(s, Plaintexts(e, s, messages, sequence, v))
    decreases |messages|
  {
    hide Plaintext;
    if messages != [] {
      var o := Plaintext(e, s, messages[0], sequence, v);
      PlaintextUnrelated(e, s, messages[0], sequence, v);
      PlaintextsUnrelated(e, o.state, messages[1..], sequence, v);
      UnrelatedThen(s, o, Plaintexts(e, o.state, messages[1..], sequence, v));
    }
  }

  lemma AppDataUnrelated(e: Env, s: Joiner, record: Record, decide: JoinFin.Info -> bool)
    ensures Unrelated(s, AppData(e, s, record, decide))
  {
    hide Open, Coap.Decoded, Coap.Encoded, JoinFin.Path, JoinFin.InfoFrom, Seal;
  }

  lemma AnswerRepeatUnrelated(e: Env, s: Joiner, records: seq<Record>)
    ensures Unrelated(s, AnswerRepeat(e, s, records))
  {
    hide Seal, IsClientFinishedFlight;
  }

  lemma DoneOnce(e: Env, s: Joiner, m: Message)
    ensures var o := ClientFinished(e, s, m);
            && NoneRead(o.log) && (!o.ok ==> o.log == [])
            && (o.ok ==> && Count(IsDone, o.log) == (if m.kind == Finished then 1 else 0)
                         && (Established(o.state) <==> Established(s) || m.kind == Finished))
  {
    hide SH.VerifyClientFinished, SH.BuildServerFinished, Encode, FinishedFlight;
    var o := ClientFinished(e, s, m);
    if m.kind == Finished && o.ok {
      assert o.log[..1] == [o.log[0]] && o.log[..1][..0] == [];
      assert Count(IsDone, o.log[..1]) == 0;
    }
    if m.kind == Finished && o.ok {
      FlightKeepsPhase(e, s, m);
    }
  }

  lemma FlightKeepsPhase(e: Env, s: Joiner, m: Message)
    requires m.kind == Finished && ClientFinished(e, s, m).ok
    ensures ClientFinished(e, s, m).state.phase == Connected
  {
    hide SH.VerifyClientFinished, SH.BuildServerFinished, Encode, FinishedFlight;
  }

  /** One protected record completes the handshake once for every Finished
      message in it, not once in all. */
  lemma {:induction false} DoneOncePerFinished(e: Env, s: Joiner, messages: seq<Message>)
    ensures var o := ClientFinisheds(e, s, messages);
            && NoneRead(o.log) && Count(IsDone, o.log) <= FinishedIn(messages)
            && (o.ok ==> && Count(IsDone, o.log) == FinishedIn(messages)
                         && (Established(o.state) <==> Established(s) || FinishedIn(messages) > 0))
    decreases |messages|
  {
    hide ClientFinished;
    if messages != [] {
      var o := ClientFinished(e, s, messages[0]);
      DoneOnce(e, s, messages[0]);
      DoneOncePerFinished(e, o.state, messages[1..]);
      CountSplits(IsDone, o.log, ClientFinisheds(e, o.state, messages[1..]).log);
    }
  }

  lemma RecordReports(e: Env, s: Joiner, t: Joiner, log: seq<Note>, messages: seq<Message>)
    requires Reported(s, log) && !Established(s) && t == s.(window := t.window)
    ensures Goes(log, Then(Outcome(t, [Unsealed(messages)], true), ClientFinisheds(e, t, messages)))
  {
    hide Count, FinishedRead, ClientFinisheds;
    var n, o := Unsealed(messages), ClientFinisheds(e, t, messages);
    DoneOncePerFinished(e, t, messages);
    CountGrows(IsDone, log, n);
    CountGrows(Accepting, log, n);
    ReadGrows(log, n);
    NoneReadCounts(log + [n], o.log);
    CountSplits(IsDone, log + [n], o.log);
    Appended(log, [n], o.log);
  }

  lemma EncryptedGoes(e: Env, s: Joiner, log: seq<Note>, record: Record)
    requires Reported(s, log)
    ensures Goes(log, Encrypted(e, s, record))
  {
    hide Count, FinishedRead, ClientFinisheds, Open, Messages, Reported, Goes, Replay.HasSeen, Replay.MarkSeen;
    UnrelatedGoes(s, log, Quiet(s));
    UnrelatedGoes(s, log, Fail(s));
    var t := AfterOpen(e.suite.cipher, s, record);
    UnrelatedGoes(s, log, Fail(t));
    if s.phase == AwaitingClientFlight {
      var text := Opened(e.suite.cipher, s, record);
      if text.Ok? && text.value.Some? {
        var plain := NewRecord(Handshake, 1, 0, text.value.value);
        if plain.Ok? && Messages(plain.value).Ok? {
          RecordReports(e, s, t, log, Messages(plain.value).value);
        }
      }
    }
  }

  lemma OneRecordGoes(e: Env, s: Joiner, log: seq<Note>, established: bool, record: Record, input: Input)
    requires e.suite.curve.order > 0 && Reported(s, log)
    ensures Goes(log, OneRecord(e, s, established, record, input))
  {
    hide Count, FinishedRead, Plaintexts, Encrypted, AppData, Messages, Opened, AfterOpen, Reported, Goes;
    UnrelatedGoes(s, log, Quiet(s));
    UnrelatedGoes(s, log, Fail(s));
    UnrelatedGoes(s, log, Quiet(s.(sawChangeCipherSpec := true)));
    UnrelatedGoes(s, log, Fail(AfterOpen(e.suite.cipher, s, record)));
    EncryptedGoes(e, s, log, record);
    AppDataUnrelated(e, s, record, input.decide);
    UnrelatedGoes(s, log, AppData(e, s, record, input.decide));
    if Messages(record).Ok? {
      var messages := Messages(record).value;
      PlaintextsUnrelated(e, s, messages, record.header.sequence, input.v);
      UnrelatedGoes(s, log, Plaintexts(e, s, messages, record.header.sequence, input.v));
    }
  }

  lemma {:induction false} AllRecordsGo(
    e: Env, s: Joiner, log: seq<Note>, established: bool, records: seq<Record>, input: Input)
    requires e.suite.curve.order > 0 && Reported(s, log)
    ensures Goes(log, AllRecords(e, s, established, records, input))
    decreases |records|
  {
    hide OneRecord, Reported, Bounded;
    if records == [] {
      UnrelatedGoes(s, log, Quiet(s));
    } else {
      var o := OneRecord(e, s, established, records[0], input);
      OneRecordGoes(e, s, log, established, records[0], input);
      if o.ok {
        AllRecordsGo(e, o.state, log + o.log, established, records[1..], input);
      }
      GoesThen(log, o, AllRecords(e, o.state, established, records[1..], input));
    }
  }

  lemma ReceivedGoes(e: Env, s: Joiner, log: seq<Note>, input: Input)
    requires e.suite.curve.order > 0 && Reported(s, log)
    ensures Goes(log, Received(e, s, input))
  {
    hide AllRecords, AnswerRepeat, Parsed, Reported, Bounded;
    UnrelatedGoes(s, log, Quiet(s));
    if Parsed(input.payload).Ok? {
      var records := Parsed(input.payload).value;
      var o := AnswerRepeat(e, s, records);
      AnswerRepeatUnrelated(e, s, records);
      UnrelatedGoes(s, log, o);
      if o.ok {
        AllRecordsGo(e, o.state, log + o.log, Established(s), records, input);
      }
      GoesThen(log, o, AllRecords(e, o.state, Established(s), records, input));
    }
  }

  lemma {:induction false} RunGoes(e: Env, s: Joiner, inputs: seq<Input>)
    requires e.suite.curve.order > 0 && IsNew(s)
    ensures Goes([], Run(e, s, inputs))
    decreases |inputs|
  {
    hide Received, Bounded;
    if inputs != [] {
      var before := Run(e, s, inputs[..|inputs| - 1]);
      RunGoes(e, s, inputs[..|inputs| - 1]);
      if before.ok {
        ReceivedGoes(e, before.state, [] + before.log, inputs[|inputs| - 1]);
      }
      GoesThen([], before, Received(e, before.state, inputs[|inputs| - 1]));
    } else {
      assert Reported(s, []);
      UnrelatedGoes(s, [], Quiet(s));
    }
  }

  // ---- Over every run ----

  /** No record read holds more than one Finished. */
  ghost predicate SingleFinished(log: seq<Note>) {
    forall i :: 0 <= i < |log| && log[i].Unsealed? ==> FinishedIn(log[i].messages) <= 1
  }

  lemma {:induction false} SingleOrMore(log: seq<Note>)
    ensures FinishedRead(log) >= Count(Accepting, log)
    ensures SingleFinished(log) <==> FinishedRead(log) == Count(Accepting, log)
    decreases |log|
  {
    if log != [] {
      var rest, n := log[..|log| - 1], log[|log| - 1];
      SingleOrMore(rest);
      assert log == rest + [n];
      assert SingleFinished(log) <==> SingleFinished(rest) && (n.Unsealed? ==> FinishedIn(n.messages) <= 1);
    }
  }

  /** At most one protected handshake record of a run holds a Finished. The
      handshake is reported complete at most once per Finished in it, and
      exactly once per Finished while the session lives; so it is reported at
      most once exactly when no record read holds two. */
  lemma CompletedOnceExactly(e: Env, s: Joiner, inputs: seq<Input>)
    requires e.suite.curve.order > 0 && IsNew(s)
    ensures var o := Run(e, s, inputs);
            && Count(Accepting, o.log) <= 1 && Count(IsDone, o.log) <= FinishedRead(o.log)
            && (o.ok ==> && Count(IsDone, o.log) == FinishedRead(o.log)
                         && (Count(IsDone, o.log) <= 1 <==> SingleFinished(o.log)))
            && (SingleFinished(o.log) ==> Count(IsDone, o.log) <= 1)
  {
    hide Run, Count, FinishedRead, SingleFinished;
    RunGoes(e, s, inputs);
    var o := Run(e, s, inputs);
    assert [] + o.log == o.log;
    SingleOrMore(o.log);
  }

  /** The server flight goes out at most five times. Finished flights go out at
      most four times more often than there are Finished messages in the one
      record that holds any, and none after an authenticated application
      record. */
  lemma FlightsBounded(e: Env, s: Joiner, inputs: seq<Input>)
    requires e.suite.curve.order > 0 && IsNew(s)
    ensures var log := Run(e, s, inputs).log;
            && Count(IsFlight, log) <= 1 + MAX_DUPLICATE_RETRANSMISSIONS
            && Count(Accepting, log) <= 1
            && Count(IsLastFlight, log) <= FinishedRead(log) + MAX_DUPLICATE_RETRANSMISSIONS
            && (SingleFinished(log) ==> Count(IsLastFlight, log) <= 1 + MAX_DUPLICATE_RETRANSMISSIONS)
            && forall i, j :: 0 <= i < j < |log| && log[i] == Authenticated ==> !IsLastFlight(log[j])
  {
    hide Run, Count, FinishedRead, SingleFinished;
    FlightsCounted(e, s, inputs);
    CompletedOnceExactly(e, s, inputs);
  }
}
