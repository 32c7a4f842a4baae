/** The DTLS server driver: the stateless cookie exchange, the wait for the
    client's flight, and the retransmission of the Finished once established. */
module ServerDriver {
  import opened Wire
  import opened Records
  import opened Framing
  import opened Flights
  import opened Suites
  import opened Protection
  import opened ServerHandshakes
  import C = ClientDriver
  import Hello
  import S = Session

  datatype Phase = AwaitHello | AwaitClientFlight | Established

  datatype Server = Server(
    phase: Phase,
    failure: Option<C.Failure>,
    handshake: ServerHandshake,
    cookieKey: bytes,
    v: nat,
    clientHello: Message,
    nextRecord: u64,
    flight: seq<Record>,
    duplicates: nat,
    sawChangeCipherSpec: bool,
    keys: Option<Keys>,
    keyExchange: Option<Message>,
    session: Option<S.Session>,
    finished: bytes,
    reading: bool)

  datatype Verdict = Next(server: Server, sent: seq<Record>) | Leave(server: Server, sent: seq<Record>)

  function Failed(v: Server, why: C.Failure): Verdict {
    Leave(v.(failure := Some(why)), [])
  }

  /** Reports mismatched keys to the client before giving up. */
  function FailedWithAlert(v: Server): Verdict {
    var alert := NewRecord(Alert, 0, v.nextRecord, [2, 40]);
    Leave(v.(failure := Some(C.WrongFinished)), if alert.Ok? then [alert.value] else [])
  }

  // ---- Cookie exchange ----

  /** The HelloVerifyRequest for a ClientHello, in a record numbered like it. */
  function VerifyRequest(s: Suite, v: Server, record: Record, m: Message, random: Hello.Random): Result<Record> {
    var body :- Hello.EncodeHelloVerify(Hello.HelloVerify(DTLS_1_2, s.cookie(v.cookieKey, random)));
    var payload :- Encode(Message(HelloVerifyRequest, m.messageSeq, body));
    NewRecord(Handshake, 0, record.header.sequence, payload)
  }

  /** The records of the server's flight, numbered from `next`. */
  function FlightOf(messages: seq<Message>, next: u64): Result<(seq<Record>, u64)>
    decreases |messages|
  {
    if messages == [] then Ok(([], next)) else
    var payload :- Encode(messages[0]);
    var record :- NewRecord(Handshake, 0, next, payload);
    var (rest, after) :- FlightOf(messages[1..], WrappingIncrement(next));
    Ok(([record] + rest, after))
  }

  /** ServerHello, ServerKeyExchange and ServerHelloDone for a ClientHello. */
  function Answer(s: Suite, h: ServerHandshake, m: Message, v: nat): Result<(ServerHandshake, seq<Message>)>
    requires s.curve.order > 0
  {
    var h1 :- HandleClientHello(s, h, m);
    var (h2, hello) :- BuildServerHello(s, h1, m.messageSeq);
    var (h3, keyExchange) :- BuildServerKeyExchange(s, h2, (m.messageSeq + 1) % 0x1_0000, v);
    var (h4, done) :- BuildServerHelloDone(h3, (m.messageSeq + 2) % 0x1_0000);
    Ok((h4, [hello, keyExchange, done]))
  }

  function Accept(s: Suite, v: Server, m: Message, sequence: u64): Verdict
    requires s.curve.order > 0
  {
    var answer := Answer(s, v.handshake, m, v.v);
    if answer.Err? then Failed(v, C.BadMessage) else
    var flight := FlightOf(answer.value.1, sequence);
    if flight.Err? then Failed(v, C.BadMessage) else
    Leave(v.(phase := AwaitClientFlight, handshake := answer.value.0, clientHello := m,
             flight := flight.value.0, nextRecord := flight.value.1, duplicates := 0), flight.value.0)
  }

  function HelloMessage(s: Suite, v: Server, record: Record, m: Message): Verdict
    requires s.curve.order > 0
  {
    if m.kind != ClientHello then Next(v, []) else
    match Hello.DecodeClientHello(m.body)
    case Err => Next(v, [])
    case Ok(hello) =>
      if hello.cookie == s.cookie(v.cookieKey, hello.random) then Accept(s, v, m, record.header.sequence) else
      match VerifyRequest(s, v, record, m, hello.random)
      case Err => Failed(v, C.BadMessage)
      case Ok(request) => Next(v, [request])
  }

  function HelloMessages(s: Suite, v: Server, record: Record, messages: seq<Message>): Verdict
    requires s.curve.order > 0
    decreases |messages|
  {
    if messages == [] then Next(v, []) else
    var first := HelloMessage(s, v, record, messages[0]);
    if first.Leave? then first else After(first.sent, HelloMessages(s, first.server, record, messages[1..]))
  }

  /** What was sent before comes first. */
  function After(sent: seq<Record>, v: Verdict): Verdict {
    if v.Next? then Next(v.server, sent + v.sent) else Leave(v.server, sent + v.sent)
  }

  function HelloRecord(s: Suite, v: Server, record: Record): Verdict
    requires s.curve.order > 0
  {
    if record.header.epoch != 0 || record.header.contentType != Handshake || Messages(record).Err? then Next(v, [])
    else HelloMessages(s, v, record, Messages(record).value)
  }

  // ---- The client's flight ----

  function KeyExchangeMessage(s: Suite, v: Server, m: Message): Verdict
    requires s.curve.order > 0
  {
    if m.kind != ClientKeyExchange || v.keyExchange == Some(m) then Next(v, []) else
    var handled := HandleClientKeyExchange(s, v.handshake, m);
    if handled.Err? then Failed(v, C.BadMessage) else
    var keys := DeriveKeys(s, handled.value);
    if keys.Err? then Failed(v, C.BadMessage)
    else Next(v.(handshake := handled.value, keys := Some(keys.value), keyExchange := Some(m)), [])
  }

  function KeyExchangeMessages(s: Suite, v: Server, messages: seq<Message>): Verdict
    requires s.curve.order > 0
    decreases |messages|
  {
    if messages == [] then Next(v, []) else
    var first := KeyExchangeMessage(s, v, messages[0]);
    if first.Leave? then first else KeyExchangeMessages(s, first.server, messages[1..])
  }

  /** ChangeCipherSpec and a freshly protected Finished. */
  function FinishedFlight(session: S.Session, finished: bytes, next: u64): Result<(seq<Record>, S.Session, u64)> {
    var first :- NewRecord(ChangeCipherSpec, 0, next, [1]);
    var second :- S.Protected(session, Handshake, finished);
    Ok(([first, second], S.AfterProtect(session, Handshake, finished), WrappingIncrement(next)))
  }

  /** Verifies the client's Finished and answers with the server's. */
  function ClientFinished(s: Suite, v: Server, keys: Keys, plaintext: bytes): Verdict {
    var record := NewRecord(Handshake, 1, 0, plaintext);
    if record.Err? then Failed(v, C.BadMessage) else
    var finished := SingleMessage(record.value, Finished);
    if finished.Err? then Failed(v, C.BadMessage) else
    var verified := VerifyClientFinished(s, v.handshake, finished.value, keys);
    if verified.Err? then FailedWithAlert(v) else
    var built := BuildServerFinished(s, verified.value, (v.clientHello.messageSeq + 3) % 0x1_0000, keys);
    if built.Err? then Failed(v, C.BadMessage) else
    var payload := Encode(built.value.1);
    if payload.Err? then Failed(v, C.BadMessage) else
    match FinishedFlight(S.DuringHandshake(s.cipher, keys, S.Server), payload.value, v.nextRecord)
    case Err => Failed(v, C.SealFailed)
    case Ok((flight, session, next)) =>
      Leave(v.(phase := Established, handshake := built.value.0, session := Some(session),
               finished := payload.value, nextRecord := next, duplicates := 0), flight)
  }

  function ClientRecord(s: Suite, v: Server, record: Record): Verdict
    requires s.curve.order > 0
  {
    match (record.header.epoch, record.header.contentType)
    case (0, Handshake) =>
      if Messages(record).Err? then Next(v, []) else KeyExchangeMessages(s, v, Messages(record).value)
    case (0, ChangeCipherSpec) =>
      if record.payload != [1] then Failed(v, C.BadMessage) else Next(v.(sawChangeCipherSpec := true), [])
    case (1, Handshake) =>
      if !v.sawChangeCipherSpec || v.keys.None? then Next(v, []) else
      var keys := v.keys.value;
      (match Open(s.cipher, record, keys.clientKey, keys.clientIv)
       case Err => FailedWithAlert(v)
       case Ok(plaintext) => ClientFinished(s, v, keys, plaintext))
    case (0, Alert) => Failed(v, C.PeerAlert)
    case _ => Next(v, [])
  }

  // ---- Datagrams and timers ----

  ghost predicate Ready(s: Suite, v: Server) {
    s.curve.order > 0 && (v.phase == Established ==> v.session.Some?)
  }

  function OneRecord(s: Suite, v: Server, record: Record): Verdict
    requires s.curve.order > 0
  {
    match v.phase
    case AwaitHello => HelloRecord(s, v, record)
    case AwaitClientFlight => ClientRecord(s, v, record)
    case Established => Next(v, [])
  }

  function OnRecords(s: Suite, v: Server, records: seq<Record>): (Server, seq<Record>)
    requires s.curve.order > 0
    decreases |records|
  {
    if records == [] then (v, []) else
    var first := OneRecord(s, v, records[0]);
    if first.Leave? then (first.server, first.sent) else
    var (next, sent) := OnRecords(s, first.server, records[1..]);
    (next, first.sent + sent)
  }

  function Resent(v: Server): (Server, seq<Record>) {
    var (flight, next) := Renumbered(v.flight, v.nextRecord);
    (v.(flight := flight, nextRecord := next), flight)
  }

  /** Once established, datagrams are received only while a read waits for
      data; the others stay in the network. */
  function OnDatagram(s: Suite, v: Server, records: seq<Record>): (Server, seq<Record>)
    requires Ready(s, v)
  {
    if v.failure.Some? then (v, []) else
    match v.phase
    case AwaitHello => OnRecords(s, v, records)
    case AwaitClientFlight =>
      if !Carries(records, v.clientHello) then OnRecords(s, v, records)
      else if v.duplicates >= MAX_DUPLICATE_RETRANSMISSIONS then (v, [])
      else Resent(v.(duplicates := v.duplicates + 1))
    case Established =>
      if !v.reading then (v, [])
      else if v.finished == [] || !IsClientFinishedFlight(records) || v.duplicates >= MAX_DUPLICATE_RETRANSMISSIONS
      then (ReadOn(Queued(v, records)), [])
      else
        match FinishedFlight(v.session.value, v.finished, v.nextRecord)
        case Err => (v.(failure := Some(C.SealFailed)), [])
        case Ok((flight, session, next)) =>
          var answered := v.(session := Some(session), nextRecord := next, duplicates := v.duplicates + 1);
          (ReadOn(Queued(answered, records)), flight)
  }

  function Queued(v: Server, records: seq<Record>): (r: Server)
    requires v.session.Some?
    ensures r.phase == v.phase && r.failure == v.failure && r.session.Some?
  {
    var session := v.session.value;
    v.(session := Some(session.(unread := session.unread + records)))
  }

  function OnTimeout(v: Server): (Server, seq<Record>) {
    if v.failure.Some? || v.phase != AwaitClientFlight then (v, []) else Resent(v)
  }

  /** Opens the next record of a read. Traffic that authenticates ends the read
      and proves that the client has our Finished. */
  function ReadOn(v: Server): (r: Server)
    requires v.session.Some?
    ensures r.phase == v.phase && r.failure == v.failure && r.session.Some?
  {
    var (session, delivery) := S.OpenNext(v.session.value);
    if delivery.Some? then v.(session := Some(session), finished := [], reading := false)
    else v.(session := Some(session))
  }

  /** A new application read starts a fresh budget; a read still waiting for
      data has timed out. */
  function OnRead(v: Server): Server
    requires v.phase == Established ==> v.session.Some?
  {
    if v.failure.Some? || v.phase != Established then v else ReadOn(v.(duplicates := 0, reading := true))
  }

  // ---- The receive loops ----

  method AcceptHello(s: Suite, v: Server, records: seq<Record>) returns (r: Server, sent: seq<Record>)
    requires s.curve.order > 0 && v.phase == AwaitHello
    ensures (r, sent) == OnRecords(s, v, records)
  {
    hide HelloMessage, Messages;
    sent := [];
    assert records[0..] == records;
    Leading([], OnRecords(s, v, records));
    for i := 0 to |records|
      invariant OnRecords(s, v, records) == Ahead(sent, OnRecords(s, v, records[i..]))
    {
      var record := records[i];
      assert records[i..][0] == record && records[i..][1..] == records[i + 1..];
      HelloStays(s, v, record);
      if record.header.epoch == 0 && record.header.contentType == Handshake {
        var messages := ParseMessages(record);
        if messages.Ok? {
          var out: seq<Record> := [];
          ghost var whole := HelloMessages(s, v, record, messages.value);
          assert messages.value[0..] == messages.value;
          AfterNothing(whole);
          for j := 0 to |messages.value|
            invariant whole == After(out, HelloMessages(s, v, record, messages.value[j..]))
          {
            assert messages.value[j..][0] == messages.value[j] && messages.value[j..][1..] == messages.value[j + 1..];
            HelloMessageStays(s, v, record, messages.value[j]);
            var first := HelloMessage(s, v, record, messages.value[j]);
            if first.Leave? {
              return first.server, sent + (out + first.sent);
            }
            AfterTwice(out, first.sent, HelloMessages(s, v, record, messages.value[j + 1..]));
            out := out + first.sent;
          }
          assert out + [] == out;
          Leading2(sent, out, OnRecords(s, v, records[i + 1..]));
          sent := sent + out;
        } else {
          Leading2(sent, [], OnRecords(s, v, records[i + 1..]));
          assert sent + [] == sent;
        }
      } else {
        Leading2(sent, [], OnRecords(s, v, records[i + 1..]));
        assert sent + [] == sent;
      }
    }
    assert sent + [] == sent;
    r := v;
  }

  ghost function Ahead(sent: seq<Record>, r: (Server, seq<Record>)): (Server, seq<Record>) {
    (r.0, sent + r.1)
  }

  lemma Leading(sent: seq<Record>, r: (Server, seq<Record>))
    requires sent == []
    ensures Ahead(sent, r) == r
  {
    assert [] + r.1 == r.1;
  }

  lemma Leading2(a: seq<Record>, b: seq<Record>, r: (Server, seq<Record>))
    ensures Ahead(a, (r.0, b + r.1)) == Ahead(a + b, r)
  {
    assert a + (b + r.1) == (a + b) + r.1;
  }

  lemma AfterNothing(v: Verdict)
    ensures After([], v) == v
  {
    assert [] + v.sent == v.sent;
  }

  lemma AfterTwice(a: seq<Record>, b: seq<Record>, v: Verdict)
    ensures After(a, After(b, v)) == After(a + b, v)
  {
    assert a + (b + v.sent) == (a + b) + v.sent;
  }

  /** The cookie exchange keeps no state about a client. */
  lemma HelloMessageStays(s: Suite, v: Server, record: Record, m: Message)
    requires s.curve.order > 0
    ensures var r := HelloMessage(s, v, record, m); r.Next? ==> r.server == v
  {
  }

  lemma {:induction false} HelloMessagesStay(s: Suite, v: Server, record: Record, messages: seq<Message>)
    requires s.curve.order > 0
    ensures var r := HelloMessages(s, v, record, messages); r.Next? ==> r.server == v
    decreases |messages|
  {
    if messages != [] {
      HelloMessageStays(s, v, record, messages[0]);
      HelloMessagesStay(s, v, record, messages[1..]);
    }
  }

  lemma HelloStays(s: Suite, v: Server, record: Record)
    requires s.curve.order > 0
    ensures var r := HelloRecord(s, v, record); r.Next? ==> r.server == v
  {
    if Messages(record).Ok? {
      HelloMessagesStay(s, v, record, Messages(record).value);
    }
  }

  method AwaitFlight(s: Suite, v: Server, records: seq<Record>) returns (r: Server, sent: seq<Record>)
    requires s.curve.order > 0 && v.phase == AwaitClientFlight
    ensures (r, sent) == OnRecords(s, v, records)
  {
    hide ClientFinished, KeyExchangeMessage, Messages, Open;
    r := v;
    assert records[0..] == records;
    for i := 0 to |records|
      invariant r.phase == AwaitClientFlight
      invariant OnRecords(s, v, records) == OnRecords(s, r, records[i..])
    {
      var record := records[i];
      assert records[i..][0] == record && records[i..][1..] == records[i + 1..];
      ClientRecordStays(s, r, record);
      Leading([], OnRecords(s, ClientRecord(s, r, record).server, records[i + 1..]));
      if record.header.epoch == 0 && record.header.contentType == Handshake {
        var messages := ParseMessages(record);
        if messages.Ok? {
          ghost var before := r;
          assert messages.value[0..] == messages.value;
          for j := 0 to |messages.value|
            invariant KeyExchangeMessages(s, before, messages.value) == KeyExchangeMessages(s, r, messages.value[j..])
          {
            assert messages.value[j..][0] == messages.value[j] && messages.value[j..][1..] == messages.value[j + 1..];
            var first := KeyExchangeMessage(s, r, messages.value[j]);
            if first.Leave? {
              return first.server, first.sent;
            }
            r := first.server;
          }
        }
      } else {
        var first := ClientRecord(s, r, record);
        if first.Leave? {
          return first.server, first.sent;
        }
        r := first.server;
      }
    }
    sent := [];
  }

  lemma {:induction false} KeyExchangesStay(s: Suite, v: Server, messages: seq<Message>)
    requires s.curve.order > 0
    ensures var r := KeyExchangeMessages(s, v, messages); r.Next? ==> r.sent == [] && r.server.phase == v.phase
    decreases |messages|
  {
    if messages != [] {
      var first := KeyExchangeMessage(s, v, messages[0]);
      KeyExchangesStay(s, first.server, messages[1..]);
    }
  }

  lemma ClientFinishedLeaves(s: Suite, v: Server, keys: Keys, plaintext: bytes)
    ensures ClientFinished(s, v, keys, plaintext).Leave?
  {
  }

  lemma ClientRecordStays(s: Suite, v: Server, record: Record)
    requires s.curve.order > 0
    ensures var r := ClientRecord(s, v, record); r.Next? ==> r.sent == [] && r.server.phase == v.phase
  {
    hide ClientFinished, Open, KeyExchangeMessages, Messages;
    if v.keys.Some? && Open(s.cipher, record, v.keys.value.clientKey, v.keys.value.clientIv).Ok? {
      ClientFinishedLeaves(s, v, v.keys.value,
                           Open(s.cipher, record, v.keys.value.clientKey, v.keys.value.clientIv).value);
    }
    if Messages(record).Ok? {
      KeyExchangesStay(s, v, Messages(record).value);
    }
  }
}
