/** The DTLS client driver: three waits, each reacting to a datagram or to the
    retransmission timer. Datagram arrival and timer expiry are inputs. */
module ClientDriver {
  import opened Wire
  import opened Records
  import opened Framing
  import opened Flights
  import opened Suites
  import opened ClientHandshakes
  import S = Session

  datatype Phase = AwaitVerify | AwaitFlight | AwaitFinished | Established

  /** Why a handshake ended without success. */
  datatype Failure = BadMessage | UnexpectedMessage | WrongFinished | PeerAlert | SealFailed | DeadlinePassed

  datatype Client = Client(
    phase: Phase,
    failure: Option<Failure>,
    handshake: ClientHandshake,
    hello: HelloState,
    v: nat,
    nextRecord: u64,
    flight: seq<Record>,
    clientHello: Message,
    recorded: bool,
    serverFlight: seq<Message>,
    duplicates: nat,
    keyExchange: Message,
    finished: Message,
    session: Option<S.Session>,
    sawChangeCipherSpec: bool)

  /** What handling one record or message leads to: go on with the rest of the
      datagram, or leave it, sending some records. */
  datatype Verdict = Next(client: Client) | Leave(client: Client, sent: seq<Record>)

  function Failed(c: Client, why: Failure): Verdict {
    Leave(c.(failure := Some(why)), [])
  }

  // ---- Waiting for the HelloVerifyRequest ----

  /** Puts a fresh ClientHello in the flight. */
  function WithNewHello(c: Client): Result<Client> {
    var (hello, message) :- NextClientHello(c.hello);
    var payload :- Encode(message);
    var record :- NewRecord(Handshake, 0, c.nextRecord, payload);
    var parsed :- SingleMessage(record, ClientHello);
    Ok(c.(hello := hello, flight := [record], clientHello := parsed, nextRecord := WrappingIncrement(c.nextRecord)))
  }

  function VerifyRecord(c: Client, record: Record): Verdict {
    match record.header.contentType
    case Handshake =>
      var messages := Messages(record);
      if messages.Err? || !HasKind(messages.value, HelloVerifyRequest) then Next(c) else
      var hello := HandleHelloVerify(c.hello, record);
      if hello.Err? then Failed(c, BadMessage) else
      var next := WithNewHello(c.(hello := hello.value));
      if next.Err? then Failed(c, BadMessage)
      else Leave(next.value.(phase := AwaitFlight, duplicates := 0), next.value.flight)
    case Alert => Failed(c, PeerAlert)
    case _ => Next(c)
  }

  // ---- Waiting for the server's flight ----

  /** ClientKeyExchange, ChangeCipherSpec and a freshly protected Finished. */
  function FinishedFlight(keyExchange: Message, finished: Message, session: S.Session, next: u64)
    : Result<(seq<Record>, S.Session, u64)>
  {
    var keyExchangeBytes :- Encode(keyExchange);
    var finishedBytes :- Encode(finished);
    var first :- NewRecord(Handshake, 0, next, keyExchangeBytes);
    var second :- NewRecord(ChangeCipherSpec, 0, WrappingIncrement(next), [1]);
    var third :- S.Protected(session, Handshake, finishedBytes);
    Ok(([first, second, third], S.AfterProtect(session, Handshake, finishedBytes),
        WrappingIncrement(WrappingIncrement(next))))
  }

  /** Rebuilds and sends the Finished flight. */
  function Resealed(c: Client): Verdict
    requires c.session.Some?
  {
    match FinishedFlight(c.keyExchange, c.finished, c.session.value, c.nextRecord)
    case Err => Failed(c, SealFailed)
    case Ok((flight, session, next)) =>
      Leave(c.(flight := flight, session := Some(session), nextRecord := next), flight)
  }

  /** What follows the complete server flight: keys, Finished and the third
      client flight. */
  function Conclude(s: Suite, c: Client): Verdict
    requires s.curve.order > 0
  {
    var messageSeq := c.hello.nextMessageSeq;
    var built := BuildClientKeyExchange(s, c.handshake, messageSeq, c.v);
    if built.Err? then Failed(c, BadMessage) else
    var keys := DeriveKeys(s, built.value.0);
    if keys.Err? then Failed(c, BadMessage) else
    var finished := BuildClientFinished(s, built.value.0, (messageSeq + 1) % 0x1_0000);
    if finished.Err? then Failed(c, BadMessage) else
    Resealed(c.(phase := AwaitFinished, handshake := finished.value.0, duplicates := 0,
                keyExchange := built.value.1, finished := finished.value.1, sawChangeCipherSpec := false,
                session := Some(S.DuringHandshake(s.cipher, keys.value, S.Client))))
  }

  function FlightMessage(s: Suite, c: Client, record: Record, m: Message): Verdict
    requires s.curve.order > 0
  {
    if m in c.serverFlight then Next(c) else
    match m.kind
    case ServerHello =>
      var recorded := if c.recorded then Ok(c.handshake) else RecordClientHello(c.handshake, c.clientHello);
      if recorded.Err? then Failed(c, BadMessage) else
      var handled := HandleServerHello(s, recorded.value, m);
      if handled.Err? then Failed(c.(handshake := recorded.value, recorded := true), BadMessage)
      else Next(c.(handshake := handled.value, recorded := true, serverFlight := c.serverFlight + [m]))
    case ServerKeyExchange =>
      if !c.recorded then Next(c) else
      var handled := HandleServerKeyExchange(s, c.handshake, m);
      if handled.Err? then Failed(c, BadMessage)
      else Next(c.(handshake := handled.value, serverFlight := c.serverFlight + [m]))
    case ServerHelloDone =>
      if !c.recorded || !HasKind(c.serverFlight, ServerKeyExchange) then Next(c) else
      var handled := HandleServerHelloDone(c.handshake, m);
      if handled.Err? then Failed(c, BadMessage)
      else Conclude(s, c.(handshake := handled.value, serverFlight := c.serverFlight + [m]))
    case HelloVerifyRequest =>
      if c.recorded || c.duplicates >= MAX_DUPLICATE_RETRANSMISSIONS then Next(c) else
      var spent := c.(duplicates := c.duplicates + 1);
      var hello := HandleHelloVerify(c.hello, record);
      if hello.Ok? then
        var next := WithNewHello(spent.(hello := hello.value));
        if next.Err? then Failed(spent, BadMessage) else Leave(next.value, next.value.flight)
      else Resent(spent)
    case _ => Failed(c, UnexpectedMessage)
  }

  /** Sends the same plaintext flight again in fresh records. */
  function Resent(c: Client): Verdict {
    var (flight, next) := Renumbered(c.flight, c.nextRecord);
    Leave(c.(flight := flight, nextRecord := next), flight)
  }

  function FlightMessages(s: Suite, c: Client, record: Record, messages: seq<Message>): Verdict
    requires s.curve.order > 0
    decreases |messages|
  {
    if messages == [] then Next(c) else
    var v := FlightMessage(s, c, record, messages[0]);
    if v.Leave? then v else FlightMessages(s, v.client, record, messages[1..])
  }

  function FlightRecord(s: Suite, c: Client, record: Record): Verdict
    requires s.curve.order > 0
  {
    match record.header.contentType
    case Handshake =>
      var messages := Messages(record);
      if messages.Err? then Next(c) else FlightMessages(s, c, record, messages.value)
    case Alert => Failed(c, PeerAlert)
    case _ => Next(c)
  }

  // ---- Waiting for the server's Finished ----

  /** The first Finished among the messages decides. */
  function FinishedMessages(s: Suite, c: Client, messages: seq<Message>): Verdict
    requires c.session.Some?
    decreases |messages|
  {
    if messages == [] then Next(c)
    else if messages[0].kind != Finished then FinishedMessages(s, c, messages[1..])
    else
      var verified := VerifyServerFinished(s, c.handshake, messages[0], c.session.value.keys);
      if verified.Err? then Failed(c, WrongFinished)
      else Leave(c.(phase := Established, handshake := verified.value), [])
  }

  function PlainHandshake(plaintext: bytes): Result<seq<Message>> {
    var record :- NewRecord(Handshake, 1, 0, plaintext);
    Messages(record)
  }

  function FinishedRecord(s: Suite, c: Client, record: Record): Verdict
    requires c.session.Some?
  {
    match (record.header.epoch, record.header.contentType)
    case (0, ChangeCipherSpec) =>
      if record.payload != [1] then Failed(c, BadMessage) else Next(c.(sawChangeCipherSpec := true))
    case (1, Handshake) =>
      if !c.sawChangeCipherSpec then Next(c) else
      var plaintext := S.Opened(c.session.value, record);
      var next := c.(session := Some(S.AfterOpen(c.session.value, record)));
      if plaintext.Err? then Failed(next, WrongFinished)
      else if plaintext.value.None? then Next(next)
      else
        var messages := PlainHandshake(plaintext.value.value);
        if messages.Err? then Failed(next, BadMessage) else FinishedMessages(s, next, messages.value)
    case (0, Alert) => Failed(c, PeerAlert)
    case (1, Alert) =>
      var plaintext := S.Opened(c.session.value, record);
      var next := c.(session := Some(S.AfterOpen(c.session.value, record)));
      if plaintext.Ok? && plaintext.value.Some? then Failed(next, PeerAlert) else Next(next)
    case _ => Next(c)
  }

  // ---- Datagrams and timers ----

  ghost predicate Ready(s: Suite, c: Client) {
    s.curve.order > 0 && (c.phase == AwaitFinished ==> c.session.Some?)
  }

  function OneRecord(s: Suite, c: Client, record: Record): Verdict
    requires Ready(s, c)
  {
    match c.phase
    case AwaitVerify => VerifyRecord(c, record)
    case AwaitFlight => FlightRecord(s, c, record)
    case AwaitFinished => FinishedRecord(s, c, record)
    case Established => Next(c)
  }

  lemma {:induction false} FlightMessagesStay(s: Suite, c: Client, record: Record, messages: seq<Message>)
    requires s.curve.order > 0
    ensures var v := FlightMessages(s, c, record, messages); v.Next? ==> v.client.phase == c.phase
    decreases |messages|
  {
    if messages != [] {
      var v := FlightMessage(s, c, record, messages[0]);
      if v.Next? {
        FlightMessagesStay(s, v.client, record, messages[1..]);
      }
    }
  }

  lemma {:induction false} FinishedMessagesStay(s: Suite, c: Client, messages: seq<Message>)
    requires c.session.Some?
    ensures var v := FinishedMessages(s, c, messages); v.Next? ==> v.client == c
    decreases |messages|
  {
    if messages != [] {
      FinishedMessagesStay(s, c, messages[1..]);
    }
  }

  /** As long as the rest of the datagram is read, the wait is the same. */
  lemma PhaseStays(s: Suite, c: Client, record: Record)
    requires Ready(s, c)
    ensures var v := OneRecord(s, c, record);
            v.Next? ==> v.client.phase == c.phase && Ready(s, v.client)
  {
    if c.phase == AwaitFlight && Messages(record).Ok? {
      FlightMessagesStay(s, c, record, Messages(record).value);
    }
    if c.phase == AwaitFinished && record.header.epoch == 1 && S.Opened(c.session.value, record).Ok?
       && S.Opened(c.session.value, record).value.Some? {
      var messages := PlainHandshake(S.Opened(c.session.value, record).value.value);
      if messages.Ok? {
        FinishedMessagesStay(s, c.(session := Some(S.AfterOpen(c.session.value, record))), messages.value);
      }
    }
  }

  function OnRecords(s: Suite, c: Client, records: seq<Record>): (Client, seq<Record>)
    requires Ready(s, c)
    decreases |records|
  {
    if records == [] then (c, []) else
    var v := OneRecord(s, c, records[0]);
    PhaseStays(s, c, records[0]);
    if v.Leave? then (v.client, v.sent) else OnRecords(s, v.client, records[1..])
  }

  /** A repeat of the last message of the server's flight asks for ours again. */
  predicate RepeatsFinalServerMessage(records: seq<Record>, serverFlight: seq<Message>) {
    serverFlight != [] && Carries(records, serverFlight[|serverFlight| - 1])
  }

  function OnDatagram(s: Suite, c: Client, records: seq<Record>): (Client, seq<Record>)
    requires Ready(s, c)
  {
    if c.failure.Some? || c.phase == Established then (c, [])
    else if c.phase == AwaitFinished && c.duplicates < MAX_DUPLICATE_RETRANSMISSIONS
            && RepeatsFinalServerMessage(records, c.serverFlight) then
      var v := Resealed(c.(duplicates := c.duplicates + 1));
      if v.client.failure.Some? then (v.client, []) else
      var (next, sent) := OnRecords(s, v.client, records);
      (next, v.sent + sent)
    else OnRecords(s, c, records)
  }

  function OnTimeout(c: Client): (Client, seq<Record>)
    requires c.phase == AwaitFinished ==> c.session.Some?
  {
    if c.failure.Some? || c.phase == Established then (c, [])
    else
      var v := if c.phase == AwaitFinished then Resealed(c) else Resent(c);
      (v.client, v.sent)
  }

  // ---- The receive loops ----

  method WaitForHelloVerify(s: Suite, c: Client, records: seq<Record>) returns (r: Client, sent: seq<Record>)
    requires Ready(s, c) && c.phase == AwaitVerify
    ensures (r, sent) == OnRecords(s, c, records)
  {
    for i := 0 to |records|
      invariant OnRecords(s, c, records) == OnRecords(s, c, records[i..])
    {
      var record := records[i];
      assert records[i..][0] == record && records[i..][1..] == records[i + 1..];
      if record.header.contentType == Alert {
        return c.(failure := Some(PeerAlert)), [];
      }
      if record.header.contentType == Handshake {
        var messages := ParseMessages(record);
        if messages.Ok? && HasKind(messages.value, HelloVerifyRequest) {
          var hello := HandleHelloVerify(c.hello, record);
          if hello.Err? {
            return c.(failure := Some(BadMessage)), [];
          }
          var next := WithNewHello(c.(hello := hello.value));
          if next.Err? {
            return c.(failure := Some(BadMessage)), [];
          }
          return next.value.(phase := AwaitFlight, duplicates := 0), next.value.flight;
        }
      }
    }
    r, sent := c, [];
  }

  method WaitForServerFlight(s: Suite, c: Client, records: seq<Record>) returns (r: Client, sent: seq<Record>)
    requires Ready(s, c) && c.phase == AwaitFlight
    ensures (r, sent) == OnRecords(s, c, records)
  {
    hide FlightMessage, Messages;
    r := c;
    assert records[0..] == records;
    for i := 0 to |records|
      invariant Ready(s, r) && r.phase == AwaitFlight
      invariant OnRecords(s, c, records) == OnRecords(s, r, records[i..])
    {
      var record := records[i];
      assert records[i..][0] == record && records[i..][1..] == records[i + 1..];
      PhaseStays(s, r, record);
      if record.header.contentType == Alert {
        return r.(failure := Some(PeerAlert)), [];
      }
      if record.header.contentType == Handshake {
        var messages := ParseMessages(record);
        if messages.Ok? {
          ghost var before := r;
          assert messages.value[0..] == messages.value;
          for j := 0 to |messages.value|
            invariant FlightMessages(s, before, record, messages.value)
                      == FlightMessages(s, r, record, messages.value[j..])
          {
            assert messages.value[j..][0] == messages.value[j] && messages.value[j..][1..] == messages.value[j + 1..];
            var v := FlightMessage(s, r, record, messages.value[j]);
            if v.Leave? {
              return v.client, v.sent;
            }
            r := v.client;
          }
        }
      }
    }
    sent := [];
  }

  method WaitForServerFinished(s: Suite, c: Client, records: seq<Record>) returns (r: Client, sent: seq<Record>)
    requires Ready(s, c) && c.phase == AwaitFinished
    ensures (r, sent) == OnRecords(s, c, records)
  {
    hide FinishedRecord;
    r := c;
    assert records[0..] == records;
    for i := 0 to |records|
      invariant Ready(s, r) && r.phase == AwaitFinished
      invariant OnRecords(s, c, records) == OnRecords(s, r, records[i..])
    {
      assert records[i..][0] == records[i] && records[i..][1..] == records[i + 1..];
      PhaseStays(s, r, records[i]);
      var v := FinishedRecord(s, r, records[i]);
      if v.Leave? {
        return v.client, v.sent;
      }
      r := v.client;
    }
    sent := [];
  }
}
