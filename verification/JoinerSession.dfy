/** The joiner session as the object the commissioner keeps per joiner. */
module JoinerSessions {
  import opened Wire
  import opened Records
  import opened Framing
  import opened Flights
  import opened Protection
  import opened Replay
  import opened ServerHandshakes
  import opened Joiner
  import SD = ServerDriver
  import Hello
  import Coap
  import JoinFin

  function EventOf(n: Note): seq<Event> {
    match n case Out(event) => [event] case _ => []
  }

  /** The events among the notes of a log. */
  function Events(log: seq<Note>): seq<Event> {
    if log == [] then [] else EventOf(log[0]) + Events(log[1..])
  }

  lemma {:induction false} EventsSplit(a: seq<Note>, b: seq<Note>)
    ensures Events(a + b) == Events(a) + Events(b)
    decreases |a|
  {
    hide EventOf;
    if a == [] {
      assert a + b == b;
      assert [] + Events(b) == Events(b);
    } else {
      assert (a + b)[1..] == a[1..] + b && (a + b)[0] == a[0];
      EventsSplit(a[1..], b);
      assert EventOf(a[0]) + (Events(a[1..]) + Events(b)) == (EventOf(a[0]) + Events(a[1..])) + Events(b);
    }
  }

  /** `before` already happened. */
  ghost function Following(before: seq<Note>, o: Outcome): Outcome {
    Outcome(o.state, before + o.log, o.ok)
  }

  lemma FollowingThen(before: seq<Note>, o: Outcome, next: Outcome)
    requires o.ok
    ensures Following(before, Then(o, next)) == Following(before + o.log, next)
  {
    assert before + (o.log + next.log) == before + o.log + next.log;
  }

  class JoinerSession {
    const env: Env
    const cookieKey: bytes
    var phase: Phase
    var handshake: ServerHandshake
    var keys: Option<Keys>
    var clientHello: Option<Message>
    var keyExchange: Option<Message>
    var flight: seq<Record>
    var finished: bytes
    var flightRetransmissions: nat
    var finishedRetransmissions: nat
    var window: Window
    var epoch0: u64
    var epoch1: u64
    var sawChangeCipherSpec: bool
    var decision: Option<bool>

    ghost function Value(): Joiner
      reads this
    {
      Joiner(phase, handshake, cookieKey, keys, clientHello, keyExchange, flight, finished, flightRetransmissions,
             finishedRetransmissions, window, epoch0, epoch1, sawChangeCipherSpec, decision)
    }

    constructor (env: Env, handshake: ServerHandshake, cookieKey: bytes)
      ensures Value() == New(handshake, cookieKey) && this.env == env
    {
      this.env, this.cookieKey, this.handshake := env, cookieKey, handshake;
      phase, keys, clientHello, keyExchange := AwaitingClientHello, None, None, None;
      flight, finished, flightRetransmissions, finishedRetransmissions := [], [], 0, 0;
      window, epoch0, epoch1, sawChangeCipherSpec, decision := Fresh, 0, 0, false, None;
    }

    method OpenRecord(record: Record) returns (r: Result<Option<bytes>>)
      modifies this
      ensures r == Opened(env.suite.cipher, old(Value()), record)
      ensures Value() == AfterOpen(env.suite.cipher, old(Value()), record)
    {
      if HasSeen(window, record.header.sequence) {
        return Ok(None);
      }
      if keys.None? {
        return Err;
      }
      var plaintext := Open(env.suite.cipher, record, keys.value.clientKey, keys.value.clientIv);
      if plaintext.Err? {
        return Err;
      }
      window := MarkSeen(window, record.header.sequence);
      r := Ok(Some(plaintext.value));
    }

    method BuildServerFinishedFlight() returns (r: Result<seq<Record>>)
      modifies this
      ensures (Value(), r) == FinishedFlight(env.suite.cipher, old(Value()))
    {
      if keys.None? {
        return Err;
      }
      var first := NewRecord(ChangeCipherSpec, 0, epoch0, [1]).value;
      epoch0 := WrappingIncrement(epoch0);
      var second :=
        Protect(env.suite.cipher, Handshake, 1, epoch1, keys.value.serverKey, keys.value.serverIv, finished);
      if second.Err? {
        return Err;
      }
      epoch1 := WrappingIncrement(epoch1);
      r := Ok([first, second.value]);
    }

    /** A ClientHello before the cookie exchange is over. */
    method HandleClientHello(m: Message, sequence: u64, v: nat) returns (ok: bool, events: seq<Event>)
      requires env.suite.curve.order > 0 && m.kind == ClientHello && phase == AwaitingClientHello
      modifies this
      ensures var o := Plaintext(env, old(Value()), m, sequence, v);
              ok == o.ok && (ok ==> events == Events(o.log) && Value() == o.state)
    {
      hide Accept, Hello.DecodeClientHello, HelloVerify, Renumbered, HandleClientKeyExchange, DeriveKeys;
      var hello := Hello.DecodeClientHello(m.body);
      if hello.Err? {
        return false, [];
      }
      if hello.value.cookie != env.suite.cookie(cookieKey, hello.value.random) {
        var request := HelloVerify(env, cookieKey, m, sequence, hello.value.random);
        if request.Err? {
          return false, [];
        }
        return true, [Transmit([request.value], false)];
      }
      ok, events := AcceptClientHello(m, sequence, v);
    }

    /** Answers a ClientHello that carries the cookie. */
    method AcceptClientHello(m: Message, sequence: u64, v: nat) returns (ok: bool, events: seq<Event>)
      requires env.suite.curve.order > 0
      modifies this
      ensures var o := Accept(env, old(Value()), m, sequence, v);
              ok == o.ok && (ok ==> events == Events(o.log) && Value() == o.state)
    {
      hide SD.Answer, SD.FlightOf;
      var answer := SD.Answer(env.suite, handshake, m, v);
      if answer.Err? {
        return false, [];
      }
      var built := SD.FlightOf(answer.value.1, sequence);
      if built.Err? {
        return false, [];
      }
      handshake, clientHello := answer.value.0, Some(m);
      flight, epoch0 := built.value.0, built.value.1;
      phase := AwaitingClientFlight;
      ok, events := true, [Transmit(flight, false)];
    }

    method HandleKeyExchange(m: Message) returns (ok: bool)
      requires env.suite.curve.order > 0 && m.kind == ClientKeyExchange && phase == AwaitingClientFlight
      modifies this
      ensures var o := Plaintext(env, old(Value()), m, 0, 0);
              ok == o.ok && o.log == [] && (ok ==> Value() == o.state)
    {
      hide HandleClientKeyExchange, DeriveKeys;
      ok := true;
      if keyExchange != Some(m) {
        var handled := HandleClientKeyExchange(env.suite, handshake, m);
        if handled.Err? {
          return false;
        }
        handshake := handled.value;
        var derived := DeriveKeys(env.suite, handshake);
        if derived.Err? {
          return false;
        }
        keys, keyExchange := Some(derived.value), Some(m);
      }
    }

    /** One plaintext handshake message. */
    method HandlePlaintextHandshake(m: Message, sequence: u64, v: nat) returns (ok: bool, events: seq<Event>)
      requires env.suite.curve.order > 0
      modifies this
      ensures var o := Plaintext(env, old(Value()), m, sequence, v);
              ok == o.ok && (ok ==> events == Events(o.log) && Value() == o.state)
    {
      hide Accept, Hello.DecodeClientHello, HandleClientKeyExchange, DeriveKeys, Renumbered, HelloVerify;
      ok, events := true, [];
      if m.kind == ClientHello && phase == AwaitingClientHello {
        ok, events := HandleClientHello(m, sequence, v);
      } else if m.kind == ClientHello && phase == AwaitingClientFlight {
        if clientHello == Some(m) && flightRetransmissions < MAX_DUPLICATE_RETRANSMISSIONS {
          flightRetransmissions := flightRetransmissions + 1;
          var renumbered := Renumbered(flight, epoch0);
          flight, epoch0 := renumbered.0, renumbered.1;
          events := [Transmit(flight, false)];
        }
      } else if m.kind == ClientKeyExchange && phase == AwaitingClientFlight {
        ok := HandleKeyExchange(m);
      } else {
        ok := false;
      }
    }

    /** The client's Finished, protected. */
    method HandleEncryptedHandshake(record: Record) returns (ok: bool, events: seq<Event>)
      modifies this
      ensures var o := Encrypted(env, old(Value()), record);
              ok == o.ok && (ok ==> events == Events(o.log) && Value() == o.state)
    {
      hide ClientFinished, Messages, Opened, AfterOpen;
      events := [];
      if phase != AwaitingClientFlight || !sawChangeCipherSpec || keys.None? {
        return true, [];
      }
      var plaintext := OpenRecord(record);
      if plaintext.Err? {
        return false, [];
      }
      if plaintext.value.None? {
        OpenNothing(env.suite.cipher, old(Value()), record);
        return true, [];
      }
      var plain := NewRecord(Handshake, 1, 0, plaintext.value.value);
      if plain.Err? {
        return false, [];
      }
      var messages := ParseMessages(plain.value);
      if messages.Err? {
        return false, [];
      }
      ghost var start := Value();
      ghost var log: seq<Note> := [];
      assert messages.value[0..] == messages.value;
      ghost var whole := ClientFinisheds(env, start, messages.value);
      assert [] + whole.log == whole.log;
      for i := 0 to |messages.value|
        invariant events == Events(log)
        invariant whole == Following(log, ClientFinisheds(env, Value(), messages.value[i..]))
      {
        var m := messages.value[i];
        assert messages.value[i..][0] == m && messages.value[i..][1..] == messages.value[i + 1..];
        ghost var o := ClientFinished(env, Value(), m);
        var fine, more := HandleClientFinished(m);
        if !fine {
          return false, [];
        }
        FollowingThen(log, o, ClientFinisheds(env, Value(), messages.value[i + 1..]));
        EventsSplit(log, o.log);
        log, events := log + o.log, events + more;
      }
      assert log + [] == log;
      EventsSplit([Unsealed(messages.value)], log);
      assert Events([Unsealed(messages.value)]) == [] && [] + events == events;
      ok := true;
    }

    /** One message of the client's protected flight. */
    method HandleClientFinished(m: Message) returns (ok: bool, events: seq<Event>)
      modifies this
      ensures var o := ClientFinished(env, old(Value()), m);
              ok == o.ok && (ok ==> events == Events(o.log) && Value() == o.state)
    {
      hide VerifyClientFinished, BuildServerFinished, Encode, FinishedFlight;
      if m.kind != Finished {
        return true, [];
      }
      if keys.None? || clientHello.None? {
        return false, [];
      }
      var verified := VerifyClientFinished(env.suite, handshake, m, keys.value);
      if verified.Err? {
        return false, [];
      }
      handshake := verified.value;
      var built := BuildServerFinished(env.suite, handshake, (clientHello.value.messageSeq + 3) % 0x1_0000, keys.value);
      if built.Err? {
        return false, [];
      }
      handshake := built.value.0;
      var payload := Encode(built.value.1);
      if payload.Err? {
        return false, [];
      }
      finished := payload.value;
      var datagram := BuildServerFinishedFlight();
      if datagram.Err? {
        return false, [];
      }
      phase := Connected;
      ok, events := true, [Transmit(datagram.value, false), HandshakeDone];
      TwoEvents(events[0], events[1]);
    }

    /** A JOIN_FIN.req, or other application data. */
    method HandleApplicationData(record: Record, decide: JoinFin.Info -> bool) returns (ok: bool, events: seq<Event>)
      modifies this
      ensures var o := AppData(env, old(Value()), record, decide);
              ok == o.ok && (ok ==> events == Events(o.log) && Value() == o.state)
    {
      hide Opened, AfterOpen, JoinFinRequest;
      if phase != Connected && phase != Finalized {
        return true, [];
      }
      var plaintext := OpenRecord(record);
      if plaintext.Err? || plaintext.value.None? {
        OpenNothing(env.suite.cipher, old(Value()), record);
        return true, [];
      }
      finished := [];
      ghost var o := JoinFinRequest(env, Value(), plaintext.value.value, decide);
      EventsSplit([Authenticated], o.log);
      ok, events := AnswerJoinFin(plaintext.value.value, decide);
    }

    method AnswerJoinFin(plaintext: bytes, decide: JoinFin.Info -> bool) returns (ok: bool, events: seq<Event>)
      modifies this
      ensures var o := JoinFinRequest(env, old(Value()), plaintext, decide);
              ok == o.ok && (ok ==> events == Events(o.log) && Value() == o.state)
    {
      hide JoinFin.Path, JoinFin.InfoFrom, Coap.Decoded, Coap.Encoded, Protect;
      var request := Coap.Decode(plaintext);
      if request.Err? {
        return false, [];
      }
      var path := JoinFin.Path(env.utf8, request.value.options);
      if path.Err? {
        return false, [];
      }
      if path.value != JoinFin.JOIN_FIN {
        return true, [];
      }
      var info := JoinFin.InfoFrom(env.utf8, request.value.payload);
      if info.Err? {
        return false, [];
      }
      if decision.Some? {
        ok, events := SendResponse(request.value, info.value);
      } else {
        decision := Some(decide(info.value));
        EventsSplit([Asked(decision.value)], Respond(env, Value(), request.value, info.value).log);
        ok, events := SendResponse(request.value, info.value);
      }
    }

    method SendResponse(request: Coap.CoapMessage, info: JoinFin.Info) returns (ok: bool, events: seq<Event>)
      requires decision.Some?
      modifies this
      ensures var o := Respond(env, old(Value()), request, info);
              ok == o.ok && (ok ==> events == Events(o.log) && Value() == o.state)
    {
      hide Coap.Encoded, Protect;
      var text := Coap.Encode(JoinFin.Response(request.messageId, request.token, decision.value));
      if text.Err? || keys.None? {
        return false, [];
      }
      var sealed := Protect(env.suite.cipher, ApplicationData, 1, epoch1, keys.value.serverKey, keys.value.serverIv,
                            text.value);
      if sealed.Err? {
        return false, [];
      }
      epoch1 := WrappingIncrement(epoch1);
      var first := phase != Finalized;
      phase := Finalized;
      events := [Transmit([sealed.value], decision.value)];
      if first {
        events := events + [Decided(decision.value, info)];
        TwoEvents(events[0], events[1]);
      }
      ok := true;
    }

    /** One record of a relayed payload. */
    method HandleRecord(record: Record, established: bool, input: Input) returns (ok: bool, events: seq<Event>)
      requires env.suite.curve.order > 0
      modifies this
      ensures var o := OneRecord(env, old(Value()), established, record, input);
              ok == o.ok && (ok ==> events == Events(o.log) && Value() == o.state)
    {
      hide Plaintexts, Encrypted, AppData, Opened, AfterOpen, Messages;
      ok, events := true, [];
      match (record.header.epoch, record.header.contentType) {
        case (0, Handshake) =>
          if !established {
            var messages := ParseMessages(record);
            if messages.Ok? {
              ok, events := HandleMessages(messages.value, record.header.sequence, input.v);
            }
          }
        case (0, ChangeCipherSpec) =>
          if record.payload != [1] {
            return false, [];
          }
          sawChangeCipherSpec := true;
        case (1, Handshake) =>
          ok, events := HandleEncryptedHandshake(record);
        case (1, ApplicationData) =>
          ok, events := HandleApplicationData(record, input.decide);
        case (0, Alert) =>
          ok := phase == Connected || phase == Finalized;
        case (1, Alert) =>
          ghost var before := Value();
          var plaintext := OpenRecord(record);
          if plaintext.Ok? && plaintext.value.Some? {
            return false, [];
          }
          OpenNothing(env.suite.cipher, before, record);
        case _ =>
      }
    }

    method HandleMessages(messages: seq<Message>, sequence: u64, v: nat) returns (ok: bool, events: seq<Event>)
      requires env.suite.curve.order > 0
      modifies this
      ensures var o := Plaintexts(env, old(Value()), messages, sequence, v);
              ok == o.ok && (ok ==> events == Events(o.log) && Value() == o.state)
    {
      hide Plaintext;
      events := [];
      ghost var log: seq<Note> := [];
      ghost var whole := Plaintexts(env, Value(), messages, sequence, v);
      assert messages[0..] == messages && [] + whole.log == whole.log;
      for i := 0 to |messages|
        invariant events == Events(log)
        invariant whole == Following(log, Plaintexts(env, Value(), messages[i..], sequence, v))
      {
        assert messages[i..][0] == messages[i] && messages[i..][1..] == messages[i + 1..];
        ghost var o := Plaintext(env, Value(), messages[i], sequence, v);
        var fine, more := HandlePlaintextHandshake(messages[i], sequence, v);
        if !fine {
          return false, [];
        }
        FollowingThen(log, o, Plaintexts(env, Value(), messages[i + 1..], sequence, v));
        EventsSplit(log, o.log);
        log, events := log + o.log, events + more;
      }
      assert log + [] == log;
      ok := true;
    }

    /** A repeated client flight gets ours again. */
    method AnswerRepeatedFlight(records: seq<Record>) returns (ok: bool, events: seq<Event>)
      modifies this
      ensures var o := AnswerRepeat(env, old(Value()), records);
              ok == o.ok && (ok ==> events == Events(o.log) && Value() == o.state)
    {
      hide FinishedFlight, IsClientFinishedFlight;
      ok, events := true, [];
      if (phase == Connected || phase == Finalized) && finished != [] && IsClientFinishedFlight(records)
         && finishedRetransmissions < MAX_DUPLICATE_RETRANSMISSIONS {
        finishedRetransmissions := finishedRetransmissions + 1;
        var datagram := BuildServerFinishedFlight();
        if datagram.Err? {
          return false, [];
        }
        events := [Transmit(datagram.value, false)];
      }
    }

    /** `receive`: one relayed payload. */
    method Receive(input: Input) returns (r: Result<seq<Event>>)
      requires env.suite.curve.order > 0
      modifies this
      ensures var o := Received(env, old(Value()), input);
              && r == (if o.ok then Ok(Events(o.log)) else Err)
              && (o.ok ==> Value() == o.state)
    {
      hide AllRecords, AnswerRepeat, Parsed, Events;
      var records := ParseDatagram(input.payload);
      if records.Err? {
        NoEvents();
        return Ok([]);
      }
      var established := phase == Connected || phase == Finalized;
      ghost var first := AnswerRepeat(env, Value(), records.value);
      var ok, events := AnswerRepeatedFlight(records.value);
      if !ok {
        return Err;
      }
      EventsSplit(first.log, AllRecords(env, Value(), established, records.value, input).log);
      var fine, more := HandleRecords(records.value, established, input);
      if !fine {
        return Err;
      }
      r := Ok(events + more);
    }

    method HandleRecords(records: seq<Record>, established: bool, input: Input) returns (ok: bool, events: seq<Event>)
      requires env.suite.curve.order > 0
      modifies this
      ensures var o := AllRecords(env, old(Value()), established, records, input);
              ok == o.ok && (ok ==> events == Events(o.log) && Value() == o.state)
    {
      hide OneRecord;
      events := [];
      ghost var log: seq<Note> := [];
      ghost var whole := AllRecords(env, Value(), established, records, input);
      assert records[0..] == records && [] + whole.log == whole.log;
      for i := 0 to |records|
        invariant events == Events(log)
        invariant whole == Following(log, AllRecords(env, Value(), established, records[i..], input))
      {
        assert records[i..][0] == records[i] && records[i..][1..] == records[i + 1..];
        ghost var o := OneRecord(env, Value(), established, records[i], input);
        var fine, more := HandleRecord(records[i], established, input);
        if !fine {
          return false, [];
        }
        FollowingThen(log, o, AllRecords(env, Value(), established, records[i + 1..], input));
        EventsSplit(log, o.log);
        log, events := log + o.log, events + more;
      }
      assert log + [] == log;
      ok := true;
    }
  }

  lemma NoEvents()
    ensures Events([]) == []
  {
  }

  lemma TwoEvents(a: Event, b: Event)
    ensures Events([Out(a), Out(b)]) == [a, b]
  {
    assert [Out(a), Out(b)][1..] == [Out(b)];
    assert Events([Out(b)]) == [b];
  }

  lemma OpenNothing(c: Cipher, s: Joiner, record: Record)
    requires Opened(c, s, record).Err? || Opened(c, s, record).value.None?
    ensures AfterOpen(c, s, record) == s
  {
  }
}
