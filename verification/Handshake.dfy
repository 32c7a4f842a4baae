/** The cryptographic functions of the handshake, all uninterpreted but for the
    laws the protocol relies on. */
module Suites {
  import opened Wire
  import Curves
  import Protection
  import Session

  const COOKIE_LEN := 16
  const VERIFY_DATA_LEN := 12

  datatype Suite = Suite(
    curve: Curves.Curve,
    cipher: Protection.Cipher,
    /** Cookie key and client random. */
    cookie: (bytes, bytes) -> bytes,
    /** Premaster secret, client random and server random. */
    keysFrom: (bytes, bytes, bytes) -> Protection.Keys,
    /** Master secret, sender of the Finished, and transcript. */
    verifyData: (bytes, Session.Role, bytes) -> bytes)
  {
    ghost predicate Lawful() {
      && curve.Lawful() && cipher.Lawful()
      && (forall key, random :: |cookie(key, random)| == COOKIE_LEN)
      && forall master, role, transcript :: |verifyData(master, role, transcript)| == VERIFY_DATA_LEN
    }
  }
}

/** Flights: record sequence numbers and renumbering for retransmission. */
module Flights {
  import opened Wire
  import opened Records
  import opened Framing

  const MAX_DUPLICATE_RETRANSMISSIONS := 4

  /** Fresh epoch-0 numbers for a flight; protected records are left alone. */
  function Renumbered(flight: seq<Record>, next: u64): (r: (seq<Record>, u64))
    ensures |r.0| == |flight|
    decreases |flight|
  {
    if flight == [] then ([], next) else
    var head := flight[0];
    if head.header.epoch == 0 then
      var (rest, after) := Renumbered(flight[1..], WrappingIncrement(next));
      ([head.(header := head.header.(sequence := next))] + rest, after)
    else
      var (rest, after) := Renumbered(flight[1..], next);
      ([head] + rest, after)
  }

  /** `front` ahead of a renumbered flight. */
  ghost function Ahead(front: seq<Record>, r: (seq<Record>, u64)): (seq<Record>, u64) {
    (front + r.0, r.1)
  }

  lemma RenumberOne(front: seq<Record>, flight: seq<Record>, next: u64)
    requires flight != []
    ensures var head := flight[0];
            var zero := head.header.epoch == 0;
            var renumbered := if zero then head.(header := head.header.(sequence := next)) else head;
            Ahead(front, Renumbered(flight, next))
            == Ahead(front + [renumbered], Renumbered(flight[1..], if zero then WrappingIncrement(next) else next))
  {
    var head := flight[0];
    if head.header.epoch == 0 {
      var rest := Renumbered(flight[1..], WrappingIncrement(next)).0;
      var renumbered := head.(header := head.header.(sequence := next));
      assert front + ([renumbered] + rest) == front + [renumbered] + rest;
    } else {
      var rest := Renumbered(flight[1..], next).0;
      assert front + ([head] + rest) == front + [head] + rest;
    }
  }

  /** `renumber_epoch_zero_flight`, in place on the slice. */
  method RenumberEpochZero(flight: array<Record>, next: u64) returns (after: u64)
    modifies flight
    ensures (flight[..], after) == Renumbered(old(flight[..]), next)
  {
    hide Renumbered, WrappingIncrement;
    after := next;
    ghost var was := flight[..];
    var i := 0;
    assert was[0..] == was && flight[..0] + Renumbered(was, next).0 == Renumbered(was, next).0;
    while i < flight.Length
      invariant 0 <= i <= flight.Length
      invariant flight[i..] == was[i..]
      invariant Renumbered(was, next) == Ahead(flight[..i], Renumbered(was[i..], after))
    {
      ghost var done := flight[..i];
      assert flight[i..][0] == was[i..][0] == flight[i];
      RenumberOne(done, was[i..], after);
      assert was[i..][1..] == was[i + 1..];
      if flight[i].header.epoch == 0 {
        flight[i] := flight[i].(header := flight[i].header.(sequence := after));
        after := WrappingIncrement(after);
      }
      assert flight[..i + 1] == done + [flight[i]];
      i := i + 1;
    }
    assert was[i..] == [] && flight[..i] + [] == flight[..];
    RenumberNone(after);
  }

  lemma RenumberNone(next: u64)
    ensures Renumbered([], next) == ([], next)
  {
  }

  lemma {:induction false} RenumberedFrame(flight: seq<Record>, next: u64)
    ensures var r := Renumbered(flight, next).0;
            forall i :: 0 <= i < |flight| ==>
              && r[i].payload == flight[i].payload
              && r[i].header == flight[i].header.(sequence := r[i].header.sequence)
              && (flight[i].header.epoch != 0 ==> r[i] == flight[i])
    decreases |flight|
  {
    if flight != [] {
      RenumberedFrame(flight[1..], if flight[0].header.epoch == 0 then WrappingIncrement(next) else next);
      assert forall i :: 0 < i < |flight| ==> flight[i] == flight[1..][i - 1];
    }
  }

  /** How many of the records are plaintext. */
  function PlainCount(flight: seq<Record>): nat {
    if flight == [] then 0 else (if flight[0].header.epoch == 0 then 1 else 0) + PlainCount(flight[1..])
  }

  /** The number `k` after `next`, wrapping. */
  function NumberAfter(next: u64, k: nat): u64 {
    (next + k) % U64_LIMIT
  }

  lemma NumberAfterStep(next: u64, k: nat)
    ensures NumberAfter(WrappingIncrement(next), k) == NumberAfter(next, k + 1)
    ensures NumberAfter(next, 0) == next
  {
  }

  ghost predicate RenumberedAt(flight: seq<Record>, next: u64, r: seq<Record>, i: nat)
    requires i < |flight| == |r|
  {
    r[i] == if flight[i].header.epoch != 0 then flight[i]
            else flight[i].(header := flight[i].header.(sequence := NumberAfter(next, PlainCount(flight[..i]))))
  }

  /** Renumbering gives the plaintext records the consecutive numbers from `next`
      on, wrapping, and changes nothing else; the next unused number follows. */
  lemma {:induction false} RenumberedKeeps(flight: seq<Record>, next: u64)
    ensures var (r, after) := Renumbered(flight, next);
            && after == NumberAfter(next, PlainCount(flight))
            && forall i :: 0 <= i < |flight| ==> RenumberedAt(flight, next, r, i)
    decreases |flight|
  {
    hide NumberAfter, WrappingIncrement;
    if flight == [] {
      NumberAfterStep(next, 0);
    } else {
      var zero := flight[0].header.epoch == 0;
      var then_ := if zero then WrappingIncrement(next) else next;
      RenumberedKeeps(flight[1..], then_);
      var (r, after) := Renumbered(flight, next);
      var (rest, _) := Renumbered(flight[1..], then_);
      NumberAfterStep(next, PlainCount(flight[1..]));
      forall i | 0 <= i < |flight| ensures RenumberedAt(flight, next, r, i) {
        if i > 0 {
          assert RenumberedAt(flight[1..], then_, rest, i - 1);
          assert flight[..i][0] == flight[0] && flight[..i][1..] == flight[1..][..i - 1];
          NumberAfterStep(next, PlainCount(flight[1..][..i - 1]));
        } else {
          NumberAfterStep(next, 0);
        }
      }
    }
  }

  /** The protected records among some. */
  function EpochOne(records: seq<Record>): seq<Record> {
    if records == [] then [] else
    EpochOne(records[..|records| - 1])
    + if records[|records| - 1].header.epoch == 1 then [records[|records| - 1]] else []
  }

  ghost predicate EpochZero(records: seq<Record>) {
    forall i :: 0 <= i < |records| ==> records[i].header.epoch == 0
  }

  lemma RenumberedZero(flight: seq<Record>, next: u64)
    requires EpochZero(flight)
    ensures EpochZero(Renumbered(flight, next).0)
  {
    hide Renumbered;
    RenumberedFrame(flight, next);
  }

  lemma {:induction false} PlainIsUnsealed(records: seq<Record>)
    requires EpochZero(records)
    ensures EpochOne(records) == []
    decreases |records|
  {
    if records != [] {
      PlainIsUnsealed(records[..|records| - 1]);
    }
  }

  predicate HasKind(messages: seq<Message>, kind: Kind) {
    exists i :: 0 <= i < |messages| && messages[i].kind == kind
  }

  /** Part of a client's ClientKeyExchange, ChangeCipherSpec, Finished flight. */
  predicate ClientFinishedRecord(record: Record) {
    record.header.contentType == Handshake
    && (record.header.epoch == 1
        || (record.header.epoch == 0 && Messages(record).Ok? && HasKind(Messages(record).value, ClientKeyExchange)))
  }

  predicate IsClientFinishedFlight(records: seq<Record>) {
    exists i :: 0 <= i < |records| && ClientFinishedRecord(records[i])
  }

  /** Some epoch-0 handshake record of the datagram carries `m`. */
  predicate Carries(records: seq<Record>, m: Message) {
    exists i :: 0 <= i < |records|
      && records[i].header.epoch == 0 && records[i].header.contentType == Handshake
      && Messages(records[i]).Ok? && m in Messages(records[i]).value
  }
}

/** The client's handshake state: peer messages, transcript and keys. */
module ClientHandshakes {
  import opened Wire
  import opened Framing
  import opened Suites
  import opened Protection
  import Records
  import Hello
  import EcJpake
  import EcJpakeCodec
  import Session

  const CLIENT_ID: bytes := [99, 108, 105, 101, 110, 116]
  const SERVER_ID: bytes := [115, 101, 114, 118, 101, 114]

  /** Appends a message to a transcript. */
  function Push(transcript: bytes, m: Message): Result<bytes> {
    var form :- TranscriptBytes(m);
    Ok(transcript + form)
  }

  datatype ClientHandshake = ClientHandshake(
    party: EcJpake.Party, one: EcJpake.RoundOne,
    peerOne: Option<EcJpake.RoundOne>, peerTwo: Option<EcJpake.RoundTwo>,
    clientRandom: Hello.Random, serverRandom: Option<Hello.Random>, transcript: bytes)

  function RecordClientHello(h: ClientHandshake, m: Message): Result<ClientHandshake> {
    if m.kind != ClientHello then Err else
    var transcript :- Push(h.transcript, m);
    Ok(h.(transcript := transcript))
  }

  function HandleServerHello(s: Suite, h: ClientHandshake, m: Message): Result<ClientHandshake> {
    if m.kind != ServerHello then Err else
    var hello :- Hello.DecodeServerHello(m.body);
    if hello.cipherSuite != Hello.ECJPAKE_AES_128_CCM_8
        || hello.compressionMethod != Hello.NULL_COMPRESSION then Err else
    match Hello.FindExtension(hello.extensions, Hello.ECJPAKE_KKPP)
    case None => Err
    case Some(kkpp) =>
      var one :- EcJpakeCodec.DecodeKkpp(s.curve, kkpp, SERVER_ID);
      var transcript :- Push(h.transcript, m);
      Ok(h.(peerOne := Some(one), serverRandom := Some(hello.random), transcript := transcript))
  }

  function HandleServerKeyExchange(s: Suite, h: ClientHandshake, m: Message): Result<ClientHandshake> {
    if m.kind != ServerKeyExchange then Err else
    var two :- EcJpakeCodec.DecodeKeyExchange(s.curve, m.body, SERVER_ID, true);
    var transcript :- Push(h.transcript, m);
    Ok(h.(peerTwo := Some(two), transcript := transcript))
  }

  function HandleServerHelloDone(h: ClientHandshake, m: Message): Result<ClientHandshake> {
    if m.kind != ServerHelloDone || m.body != [] then Err else
    var transcript :- Push(h.transcript, m);
    Ok(h.(transcript := transcript))
  }

  /** The ClientKeyExchange, built with the random scalar `v`. */
  function BuildClientKeyExchange(s: Suite, h: ClientHandshake, messageSeq: u16, v: nat)
    : Result<(ClientHandshake, Message)>
    requires s.curve.order > 0
  {
    if h.peerOne.None? then Err else
    var two :- EcJpake.SecondRound(s.curve, h.party, h.one, h.peerOne.value, v);
    var body :- EcJpakeCodec.EncodeKeyExchange(s.curve, two, false);
    var m := Message(ClientKeyExchange, messageSeq, body);
    var transcript :- Push(h.transcript, m);
    Ok((h.(transcript := transcript), m))
  }

  function DeriveKeys(s: Suite, h: ClientHandshake): Result<Keys>
    requires s.curve.order > 0
  {
    if h.peerOne.None? || h.peerTwo.None? || h.serverRandom.None? then Err else
    var premaster :- EcJpake.Finish(s.curve, h.party, h.one, h.peerOne.value, h.peerTwo.value);
    Ok(s.keysFrom(premaster, h.clientRandom, h.serverRandom.value))
  }

  function BuildClientFinished(s: Suite, h: ClientHandshake, messageSeq: u16): Result<(ClientHandshake, Message)>
    requires s.curve.order > 0
  {
    var keys :- DeriveKeys(s, h);
    var m := Message(Finished, messageSeq, s.verifyData(keys.master, Session.Client, h.transcript));
    var transcript :- Push(h.transcript, m);
    Ok((h.(transcript := transcript), m))
  }

  function VerifyServerFinished(s: Suite, h: ClientHandshake, m: Message, keys: Keys): Result<ClientHandshake> {
    if m.kind != Finished || m.body != s.verifyData(keys.master, Session.Server, h.transcript) then Err else
    var transcript :- Push(h.transcript, m);
    Ok(h.(transcript := transcript))
  }

  // ---- The cookie-retry state ----

  datatype HelloState = HelloState(
    random: Hello.Random, cookie: bytes, kkpp: bytes, nextMessageSeq: u16, lastHello: Option<u16>)

  /** The Thread profile: one cipher suite and its signalling value, null
      compression, and the curve, signature and point-format extensions
      followed by the EC J-PAKE parameters and the fragment-length request. */
  function HelloBody(s: HelloState): Hello.ClientHello {
    Hello.ClientHello(
      s.random, [], s.cookie, [Hello.ECJPAKE_AES_128_CCM_8, Hello.EMPTY_RENEGOTIATION_INFO],
      [Hello.NULL_COMPRESSION],
      [Hello.Extension(Hello.SUPPORTED_GROUPS, [0, 2, 0, 23]),
       Hello.Extension(Hello.SIGNATURE_ALGORITHMS, [0, 2, 4, 3]),
       Hello.Extension(Hello.EC_POINT_FORMATS, [1, 0]),
       Hello.Extension(Hello.ECJPAKE_KKPP, s.kkpp),
       Hello.Extension(Hello.MAX_FRAGMENT_LENGTH, [2])])
  }

  function NextClientHello(s: HelloState): Result<(HelloState, Message)> {
    var body :- Hello.EncodeClientHello(HelloBody(s));
    Ok((s.(nextMessageSeq := (s.nextMessageSeq + 1) % 0x1_0000, lastHello := Some(s.nextMessageSeq)),
        Message(ClientHello, s.nextMessageSeq, body)))
  }

  function HandleHelloVerify(s: HelloState, record: Records.Record): Result<HelloState> {
    var m :- SingleMessage(record, HelloVerifyRequest);
    if Some(m.messageSeq) != s.lastHello then Err else
    var verify :- Hello.DecodeHelloVerify(m.body);
    if verify.version != Records.DTLS_1_2 then Err else Ok(s.(cookie := verify.cookie))
  }
}

/** The server's handshake state, its mirror image. */
module ServerHandshakes {
  import opened Wire
  import opened Framing
  import opened Suites
  import opened Protection
  import Hello
  import EcJpake
  import EcJpakeCodec
  import Session
  import opened ClientHandshakes

  datatype ServerHandshake = ServerHandshake(
    party: EcJpake.Party, one: EcJpake.RoundOne,
    peerOne: Option<EcJpake.RoundOne>, peerTwo: Option<EcJpake.RoundTwo>,
    serverRandom: Hello.Random, clientRandom: Option<Hello.Random>, transcript: bytes)

  function HandleClientHello(s: Suite, h: ServerHandshake, m: Message): Result<ServerHandshake> {
    if m.kind != ClientHello then Err else
    var hello :- Hello.DecodeClientHello(m.body);
    if Hello.ECJPAKE_AES_128_CCM_8 !in hello.cipherSuites
        || Hello.NULL_COMPRESSION !in hello.compressionMethods then Err else
    match Hello.FindExtension(hello.extensions, Hello.ECJPAKE_KKPP)
    case None => Err
    case Some(kkpp) =>
      var one :- EcJpakeCodec.DecodeKkpp(s.curve, kkpp, CLIENT_ID);
      var transcript :- Push(h.transcript, m);
      Ok(h.(peerOne := Some(one), clientRandom := Some(hello.random), transcript := transcript))
  }

  function HelloBody(s: Suite, h: ServerHandshake): Result<Hello.ServerHello> {
    var kkpp :- EcJpakeCodec.EncodeKkpp(s.curve, h.one);
    Ok(Hello.ServerHello(
         h.serverRandom, [], Hello.ECJPAKE_AES_128_CCM_8, Hello.NULL_COMPRESSION,
         [Hello.Extension(Hello.ECJPAKE_KKPP, kkpp), Hello.Extension(Hello.EC_POINT_FORMATS, [1, 0])]))
  }

  function BuildServerHello(s: Suite, h: ServerHandshake, messageSeq: u16): Result<(ServerHandshake, Message)> {
    if h.clientRandom.None? then Err else
    var hello :- HelloBody(s, h);
    var body :- Hello.EncodeServerHello(hello);
    var m := Message(ServerHello, messageSeq, body);
    var transcript :- Push(h.transcript, m);
    Ok((h.(transcript := transcript), m))
  }

  function BuildServerKeyExchange(s: Suite, h: ServerHandshake, messageSeq: u16, v: nat)
    : Result<(ServerHandshake, Message)>
    requires s.curve.order > 0
  {
    if h.peerOne.None? then Err else
    var two :- EcJpake.SecondRound(s.curve, h.party, h.one, h.peerOne.value, v);
    var body :- EcJpakeCodec.EncodeKeyExchange(s.curve, two, true);
    var m := Message(ServerKeyExchange, messageSeq, body);
    var transcript :- Push(h.transcript, m);
    Ok((h.(transcript := transcript), m))
  }

  function BuildServerHelloDone(h: ServerHandshake, messageSeq: u16): Result<(ServerHandshake, Message)> {
    var m := Message(ServerHelloDone, messageSeq, []);
    var transcript :- Push(h.transcript, m);
    Ok((h.(transcript := transcript), m))
  }

  function HandleClientKeyExchange(s: Suite, h: ServerHandshake, m: Message): Result<ServerHandshake> {
    if m.kind != ClientKeyExchange then Err else
    var two :- EcJpakeCodec.DecodeKeyExchange(s.curve, m.body, CLIENT_ID, false);
    var transcript :- Push(h.transcript, m);
    Ok(h.(peerTwo := Some(two), transcript := transcript))
  }

  function DeriveKeys(s: Suite, h: ServerHandshake): Result<Keys>
    requires s.curve.order > 0
  {
    if h.peerOne.None? || h.peerTwo.None? || h.clientRandom.None? then Err else
    var premaster :- EcJpake.Finish(s.curve, h.party, h.one, h.peerOne.value, h.peerTwo.value);
    Ok(s.keysFrom(premaster, h.clientRandom.value, h.serverRandom))
  }

  function VerifyClientFinished(s: Suite, h: ServerHandshake, m: Message, keys: Keys): Result<ServerHandshake> {
    if m.kind != Finished || m.body != s.verifyData(keys.master, Session.Client, h.transcript) then Err else
    var transcript :- Push(h.transcript, m);
    Ok(h.(transcript := transcript))
  }

  function BuildServerFinished(s: Suite, h: ServerHandshake, messageSeq: u16, keys: Keys)
    : Result<(ServerHandshake, Message)>
  {
    var m := Message(Finished, messageSeq, s.verifyData(keys.master, Session.Server, h.transcript));
    var transcript :- Push(h.transcript, m);
    Ok((h.(transcript := transcript), m))
  }
}
