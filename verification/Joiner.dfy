/** JOIN_FIN.req messages: the Uri-Path and the vendor information. */
module JoinFin {
  import opened Wire
  import opened Coap
  import Tlv

  const URI_PATH: u16 := 11
  /** "/c/jf". */
  const JOIN_FIN: bytes := [47, 99, 47, 106, 102]

  const STATE: byte := 16
  const PROVISIONING_URL: byte := 32
  const VENDOR_NAME: byte := 33
  const VENDOR_MODEL: byte := 34
  const VENDOR_SW_VERSION: byte := 35
  const VENDOR_DATA: byte := 36
  const VENDOR_STACK_VERSION: byte := 37

  const ACCEPT: byte := 0x01
  const REJECT: byte := 0xff

  datatype Info = Info(
    vendorName: bytes, vendorModel: bytes, vendorSwVersion: bytes, vendorStackVersion: bytes,
    provisioningUrl: Option<bytes>, vendorData: Option<bytes>)

  /** "/" and a segment for each Uri-Path option, or nothing without any. */
  function Path(utf8: bytes -> bool, options: seq<CoapOption>): Result<bytes> {
    if options == [] then Ok([]) else
    var o := options[0];
    if o.number != URI_PATH then Path(utf8, options[1..])
    else if !utf8(o.value) then Err
    else
      var rest :- Path(utf8, options[1..]);
      Ok([47] + o.value + rest)
  }

  function Required(utf8: bytes -> bool, entries: seq<Tlv.Entry>, kind: byte): Result<bytes> {
    match Tlv.LastValue(entries, kind)
    case None => Err
    case Some(value) => if utf8(value) then Ok(value) else Err
  }

  function InfoFrom(utf8: bytes -> bool, payload: bytes): Result<Info> {
    var entries :- Tlv.Parsed(payload);
    if Tlv.LastValue(entries, STATE).None? then Err else
    var name :- Required(utf8, entries, VENDOR_NAME);
    var model :- Required(utf8, entries, VENDOR_MODEL);
    var swVersion :- Required(utf8, entries, VENDOR_SW_VERSION);
    var stackVersion := Tlv.LastValue(entries, VENDOR_STACK_VERSION);
    if stackVersion.None? then Err else
    var url := Tlv.LastValue(entries, PROVISIONING_URL);
    if url.Some? && !utf8(url.value) then Err
    else Ok(Info(name, model, swVersion, stackVersion.value, url, Tlv.LastValue(entries, VENDOR_DATA)))
  }

  /** The JOIN_FIN.rsp: an acknowledgement holding the State TLV. */
  function Response(id: u16, token: bytes, accepted: bool): CoapMessage {
    CoapMessage(Acknowledgement, CHANGED, id, token, [], [STATE, 1, if accepted then ACCEPT else REJECT])
  }
}

/** One joiner's commissioning session: a DTLS server fed with relayed
    payloads, ending in one finalize decision. */
module Joiner {
  import opened Wire
  import opened Records
  import opened Framing
  import opened Flights
  import opened Suites
  import opened Protection
  import opened Replay
  import opened ServerHandshakes
  import SD = ServerDriver
  import Hello
  import Coap
  import JoinFin

  datatype Phase = AwaitingClientHello | AwaitingClientFlight | Connected | Finalized

  /** The cryptography and the UTF-8 check, uninterpreted. */
  datatype Env = Env(suite: Suite, utf8: bytes -> bool)

  datatype Joiner = Joiner(
    phase: Phase, handshake: ServerHandshake, cookieKey: bytes, keys: Option<Keys>,
    clientHello: Option<Message>, keyExchange: Option<Message>,
    flight: seq<Record>, finished: bytes, flightRetransmissions: nat, finishedRetransmissions: nat,
    window: Window, epoch0: u64, epoch1: u64, sawChangeCipherSpec: bool, decision: Option<bool>)

  /** What a session hands to its driver. */
  datatype Event =
    | Transmit(records: seq<Record>, kek: bool)
    | HandshakeDone
    | Decided(accepted: bool, info: JoinFin.Info)

  /** What happened inside a call, in order: events, the handler being asked, an
      application record passing authentication, and a protected handshake
      record being read. */
  datatype Note = Out(event: Event) | Asked(answer: bool) | Authenticated | Unsealed(messages: seq<Message>)

  datatype Outcome = Outcome(state: Joiner, log: seq<Note>, ok: bool)

  /** A relayed payload, the handler's answer should it be asked, and the
      random scalar should one be drawn. */
  datatype Input = Input(payload: bytes, decide: JoinFin.Info -> bool, v: nat)

  function Fail(s: Joiner): Outcome {
    Outcome(s, [], false)
  }

  function Quiet(s: Joiner): Outcome {
    Outcome(s, [], true)
  }

  predicate Established(s: Joiner) {
    s.phase == Connected || s.phase == Finalized
  }

  // ---- Records ----

  function Opened(c: Cipher, s: Joiner, record: Record): Result<Option<bytes>> {
    if HasSeen(s.window, record.header.sequence) then Ok(None) else
    if s.keys.None? then Err else
    var plaintext :- Open(c, record, s.keys.value.clientKey, s.keys.value.clientIv);
    Ok(Some(plaintext))
  }

  function AfterOpen(c: Cipher, s: Joiner, record: Record): Joiner {
    match Opened(c, s, record)
    case Ok(Some(_)) => s.(window := MarkSeen(s.window, record.header.sequence))
    case _ => s
  }

  function Seal(c: Cipher, s: Joiner, contentType: ContentType, text: bytes): Result<Record> {
    if s.keys.None? then Err
    else Protect(c, contentType, 1, s.epoch1, s.keys.value.serverKey, s.keys.value.serverIv, text)
  }

  /** ChangeCipherSpec and a freshly protected Finished; the counters move only
      for records that were built. */
  function FinishedFlight(c: Cipher, s: Joiner): (Joiner, Result<seq<Record>>) {
    if s.keys.None? then (s, Err) else
    var first := NewRecord(ChangeCipherSpec, 0, s.epoch0, [1]).value;
    var t := s.(epoch0 := WrappingIncrement(s.epoch0));
    match Seal(c, t, Handshake, t.finished)
    case Err => (t, Err)
    case Ok(second) => (t.(epoch1 := WrappingIncrement(t.epoch1)), Ok([first, second]))
  }

  // ---- Plaintext handshake messages ----

  function Accept(e: Env, s: Joiner, m: Message, sequence: u64, v: nat): Outcome
    requires e.suite.curve.order > 0
  {
    var answer := SD.Answer(e.suite, s.handshake, m, v);
    if answer.Err? then Fail(s) else
    var flight := SD.FlightOf(answer.value.1, sequence);
    if flight.Err? then Fail(s) else
    Outcome(s.(handshake := answer.value.0, clientHello := Some(m), flight := flight.value.0,
               epoch0 := flight.value.1, phase := AwaitingClientFlight),
            [Out(Transmit(flight.value.0, false))], true)
  }

  function HelloVerify(e: Env, cookieKey: bytes, m: Message, sequence: u64, random: Hello.Random): Result<Record> {
    var body :- Hello.EncodeHelloVerify(Hello.HelloVerify(DTLS_1_2, e.suite.cookie(cookieKey, random)));
    var payload :- Encode(Message(HelloVerifyRequest, m.messageSeq, body));
    NewRecord(Handshake, 0, sequence, payload)
  }

  function Plaintext(e: Env, s: Joiner, m: Message, sequence: u64, v: nat): Outcome
    requires e.suite.curve.order > 0
  {
    match (m.kind, s.phase)
    case (ClientHello, AwaitingClientHello) =>
      var hello := Hello.DecodeClientHello(m.body);
      if hello.Err? then Fail(s) else
      if hello.value.cookie == e.suite.cookie(s.cookieKey, hello.value.random) then Accept(e, s, m, sequence, v) else
      var request := HelloVerify(e, s.cookieKey, m, sequence, hello.value.random);
      if request.Err? then Fail(s) else Outcome(s, [Out(Transmit([request.value], false))], true)
    case (ClientHello, AwaitingClientFlight) =>
      if s.clientHello != Some(m) || s.flightRetransmissions >= MAX_DUPLICATE_RETRANSMISSIONS then Quiet(s) else
      var (flight, next) := Renumbered(s.flight, s.epoch0);
      Outcome(s.(flightRetransmissions := s.flightRetransmissions + 1, flight := flight, epoch0 := next),
              [Out(Transmit(flight, false))], true)
    case (ClientKeyExchange, AwaitingClientFlight) =>
      if s.keyExchange == Some(m) then Quiet(s) else
      var handled := HandleClientKeyExchange(e.suite, s.handshake, m);
      if handled.Err? then Fail(s) else
      var t := s.(handshake := handled.value);
      var keys := DeriveKeys(e.suite, t.handshake);
      if keys.Err? then Fail(t) else Quiet(t.(keys := Some(keys.value), keyExchange := Some(m)))
    case _ => Fail(s)
  }

  /** Runs `next` after `o` unless `o` failed. */
  function Then(o: Outcome, next: Outcome): Outcome {
    if o.ok then Outcome(next.state, o.log + next.log, next.ok) else o
  }

  function Plaintexts(e: Env, s: Joiner, messages: seq<Message>, sequence: u64, v: nat): Outcome
    requires e.suite.curve.order > 0
    decreases |messages|
  {
    if messages == [] then Quiet(s) else
    var o := Plaintext(e, s, messages[0], sequence, v);
    Then(o, Plaintexts(e, o.state, messages[1..], sequence, v))
  }

  // ---- The client's Finished ----

  function ClientFinished(e: Env, s: Joiner, m: Message): Outcome {
    if m.kind != Finished then Quiet(s) else
    if s.keys.None? || s.clientHello.None? then Fail(s) else
    var keys := s.keys.value;
    var verified := VerifyClientFinished(e.suite, s.handshake, m, keys);
    if verified.Err? then Fail(s) else
    var t := s.(handshake := verified.value);
    var built := BuildServerFinished(e.suite, t.handshake, (s.clientHello.value.messageSeq + 3) % 0x1_0000, keys);
    if built.Err? then Fail(t) else
    var payload := Encode(built.value.1);
    var b := t.(handshake := built.value.0);
    if payload.Err? then Fail(b) else
    var (w, flight) := FinishedFlight(e.suite.cipher, b.(finished := payload.value));
    if flight.Err? then Fail(w) else
    Outcome(w.(phase := Connected), [Out(Transmit(flight.value, false)), Out(HandshakeDone)], true)
  }

  function ClientFinisheds(e: Env, s: Joiner, messages: seq<Message>): Outcome
    decreases |messages|
  {
    if messages == [] then Quiet(s) else
    var o := ClientFinished(e, s, messages[0]);
    Then(o, ClientFinisheds(e, o.state, messages[1..]))
  }

  function Encrypted(e: Env, s: Joiner, record: Record): Outcome {
    if s.phase != AwaitingClientFlight || !s.sawChangeCipherSpec || s.keys.None? then Quiet(s) else
    var text := Opened(e.suite.cipher, s, record);
    if text.Err? then Fail(s) else
    if text.value.None? then Quiet(s) else
    var t := AfterOpen(e.suite.cipher, s, record);
    var plain := NewRecord(Handshake, 1, 0, text.value.value);
    if plain.Err? || Messages(plain.value).Err? then Fail(t) else
    var messages := Messages(plain.value).value;
    Then(Outcome(t, [Unsealed(messages)], true), ClientFinisheds(e, t, messages))
  }

  // ---- JOIN_FIN ----

  function Respond(e: Env, s: Joiner, request: Coap.CoapMessage, info: JoinFin.Info): Outcome
    requires s.decision.Some?
  {
    var accepted := s.decision.value;
    var text := Coap.Encoded(JoinFin.Response(request.messageId, request.token, accepted));
    if text.Err? then Fail(s) else
    var sealed := Seal(e.suite.cipher, s, ApplicationData, text.value);
    if sealed.Err? then Fail(s) else
    Outcome(s.(epoch1 := WrappingIncrement(s.epoch1), phase := Finalized),
            [Out(Transmit([sealed.value], accepted))]
            + if s.phase != Finalized then [Out(Decided(accepted, info))] else [], true)
  }

  function JoinFinRequest(e: Env, s: Joiner, plaintext: bytes, decide: JoinFin.Info -> bool): Outcome {
    var request := Coap.Decoded(plaintext);
    if request.Err? then Fail(s) else
    var path := JoinFin.Path(e.utf8, request.value.options);
    if path.Err? then Fail(s) else
    if path.value != JoinFin.JOIN_FIN then Quiet(s) else
    var info := JoinFin.InfoFrom(e.utf8, request.value.payload);
    if info.Err? then Fail(s) else
    if s.decision.Some? then Respond(e, s, request.value, info.value) else
    var answer := decide(info.value);
    Then(Outcome(s.(decision := Some(answer)), [Asked(answer)], true),
         Respond(e, s.(decision := Some(answer)), request.value, info.value))
  }

  function AppData(e: Env, s: Joiner, record: Record, decide: JoinFin.Info -> bool): Outcome {
    if !Established(s) then Quiet(s) else
    match Opened(e.suite.cipher, s, record)
    case Ok(Some(plaintext)) =>
      var t := AfterOpen(e.suite.cipher, s, record).(finished := []);
      Then(Outcome(t, [Authenticated], true), JoinFinRequest(e, t, plaintext, decide))
    case _ => Quiet(s)
  }

  // ---- A relayed payload ----

  function OneRecord(e: Env, s: Joiner, established: bool, record: Record, input: Input): Outcome
    requires e.suite.curve.order > 0
  {
    match (record.header.epoch, record.header.contentType)
    case (0, Handshake) =>
      if established || Messages(record).Err? then Quiet(s)
      else Plaintexts(e, s, Messages(record).value, record.header.sequence, input.v)
    case (0, ChangeCipherSpec) =>
      if record.payload != [1] then Fail(s) else Quiet(s.(sawChangeCipherSpec := true))
    case (1, Handshake) => Encrypted(e, s, record)
    case (1, ApplicationData) => AppData(e, s, record, input.decide)
    case (0, Alert) => if Established(s) then Quiet(s) else Fail(s)
    case (1, Alert) =>
      (match Opened(e.suite.cipher, s, record)
       case Ok(Some(_)) => Fail(AfterOpen(e.suite.cipher, s, record))
       case _ => Quiet(s))
    case _ => Quiet(s)
  }

  function AllRecords(e: Env, s: Joiner, established: bool, records: seq<Record>, input: Input): Outcome
    requires e.suite.curve.order > 0
    decreases |records|
  {
    if records == [] then Quiet(s) else
    var o := OneRecord(e, s, established, records[0], input);
    Then(o, AllRecords(e, o.state, established, records[1..], input))
  }

  /** A repeated client Finished flight gets ours again, a bounded number of
      times. */
  function AnswerRepeat(e: Env, s: Joiner, records: seq<Record>): Outcome {
    if !Established(s) || s.finished == [] || !IsClientFinishedFlight(records)
       || s.finishedRetransmissions >= MAX_DUPLICATE_RETRANSMISSIONS then Quiet(s) else
    var (t, flight) := FinishedFlight(e.suite.cipher, s.(finishedRetransmissions := s.finishedRetransmissions + 1));
    if flight.Err? then Fail(t) else Outcome(t, [Out(Transmit(flight.value, false))], true)
  }

  function Received(e: Env, s: Joiner, input: Input): Outcome
    requires e.suite.curve.order > 0
  {
    match Parsed(input.payload)
    case Err => Quiet(s)
    case Ok(records) =>
      var o := AnswerRepeat(e, s, records);
      Then(o, AllRecords(e, o.state, Established(s), records, input))
  }

  function New(handshake: ServerHandshake, cookieKey: bytes): Joiner {
    Joiner(AwaitingClientHello, handshake, cookieKey, None, None, None, [], [], 0, 0, Fresh, 0, 0, false, None)
  }
}
