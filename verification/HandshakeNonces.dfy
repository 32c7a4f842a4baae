/** Over every run of the handshake and of what follows, neither side ever
    protects two records under one nonce, however often timers and repeated
    messages make it send its flights again. The steps of the drivers are covered
    for arbitrary received records. */
module HandshakeNonces {
  import opened Wire
  import opened Records
  import opened Framing
  import opened Flights
  import opened Suites
  import opened Protection
  import opened HandshakeScript
  import opened HandshakeSystem
  import CD = ClientDriver
  import SD = ServerDriver
  import CH = ClientHandshakes
  import SH = ServerHandshakes
  import S = Session
  import EcJpakeCodec
  import Hello

  // ---- What a side has protected ----

  ghost predicate SealedAs(s: S.Session, text: bytes, r: Record) {
    Protect(s.cipher, r.header.contentType, 1, r.header.sequence, s.WriteKey(), s.WriteIv(), text) == Ok(r)
  }

  /** The record is protected under the session's write key. */
  ghost predicate SealedBy(s: S.Session, r: Record) {
    exists text :: SealedAs(s, text, r)
  }

  /** The session a side starts from: a new one with the same keys, if it had
      none. */
  function Origin(before: Option<S.Session>, after: S.Session): S.Session {
    if before.Some? then before.value else S.DuringHandshake(after.cipher, after.keys, after.role)
  }

  ghost predicate SameKeys(s: S.Session, t: S.Session) {
    s.cipher == t.cipher && s.keys == t.keys && s.role == t.role
  }

  /** The protected records are numbered on from `first`. */
  ghost predicate NumberedFrom(seals: seq<Record>, first: nat) {
    forall i :: 0 <= i < |seals| ==> seals[i].header.sequence == first + i < SEQUENCE_LIMIT
  }

  ghost predicate AllSealedBy(s: S.Session, seals: seq<Record>) {
    forall i :: 0 <= i < |seals| ==> SealedBy(s, seals[i])
  }

  /** Between two states of a side it has sent these records: a session and its
      keys stay once they are there, and what was protected carries consecutive
      numbers from the session's counter on. */
  ghost predicate Emits(before: Option<S.Session>, after: Option<S.Session>, sent: seq<Record>) {
    match after
    case None => before.None? && EpochOne(sent) == []
    case Some(t) =>
      var s := Origin(before, t);
      && SameKeys(s, t) && t.nextSequence == s.nextSequence + |EpochOne(sent)|
      && NumberedFrom(EpochOne(sent), s.nextSequence) && AllSealedBy(t, EpochOne(sent))
  }

  lemma EmitsNothing(session: Option<S.Session>)
    ensures Emits(session, session, [])
  {
  }

  lemma {:induction false} EpochOneJoined(a: seq<Record>, b: seq<Record>)
    ensures EpochOne(a + b) == EpochOne(a) + EpochOne(b)
    decreases |b|
  {
    if b == [] {
      assert a + b == a;
    } else {
      assert (a + b)[..|a + b| - 1] == a + b[..|b| - 1];
      EpochOneJoined(a, b[..|b| - 1]);
    }
  }

  lemma EmitsTwice(
    a: Option<S.Session>, b: Option<S.Session>, c: Option<S.Session>, x: seq<Record>, y: seq<Record>)
    requires Emits(a, b, x) && Emits(b, c, y)
    ensures Emits(a, c, x + y)
  {
    hide EpochOne, SealedBy;
    EpochOneJoined(x, y);
    var p, q := EpochOne(x), EpochOne(y);
    if c.Some? {
      var first := Origin(a, c.value).nextSequence;
      if b.Some? {
        SealedStays(b.value, c.value, p);
        assert SameKeys(Origin(a, c.value), c.value) && Origin(a, b.value).nextSequence == first;
        NumberedOn(p, q, first);
      } else {
        assert p == [] && p + q == q;
      }
    }
  }

  lemma NumberedOn(p: seq<Record>, q: seq<Record>, first: nat)
    requires NumberedFrom(p, first) && NumberedFrom(q, first + |p|)
    ensures NumberedFrom(p + q, first)
  {
  }

  lemma SealedStays(s: S.Session, t: S.Session, seals: seq<Record>)
    requires SameKeys(s, t) && AllSealedBy(s, seals)
    ensures AllSealedBy(t, seals)
  {
    hide Protect;
    forall i | 0 <= i < |seals| ensures SealedBy(t, seals[i]) {
      assert SealedBy(s, seals[i]);
      var text :| SealedAs(s, text, seals[i]);
      assert SealedAs(t, text, seals[i]);
    }
  }

  /** Plaintext records leave no trace. */
  lemma EmitsPlain(session: Option<S.Session>, sent: seq<Record>)
    requires EpochZero(sent)
    ensures Emits(session, session, sent)
  {
    PlainIsUnsealed(sent);
  }

  /** One more protected record, after any number of plaintext ones. */
  lemma EmitsSeal(s: S.Session, contentType: ContentType, text: bytes, plain: seq<Record>)
    requires EpochZero(plain) && S.Protected(s, contentType, text).Ok?
    ensures var r := S.Protected(s, contentType, text).value;
            Emits(Some(s), Some(S.AfterProtect(s, contentType, text)), plain + [r])
  {
    hide Protect, Nonce;
    var r := S.Protected(s, contentType, text).value;
    SealNumbered(s, contentType, text);
    PlainIsUnsealed(plain);
    assert (plain + [r])[..|plain|] == plain;
    assert EpochOne(plain + [r]) == [r];
    assert SealedAs(S.AfterProtect(s, contentType, text), text, r);
  }

  lemma SealNumbered(s: S.Session, contentType: ContentType, text: bytes)
    requires S.Protected(s, contentType, text).Ok?
    ensures var r := S.Protected(s, contentType, text).value;
            && r.header.epoch == 1 && r.header.contentType == contentType && r.header.sequence == s.nextSequence
            && s.nextSequence < SEQUENCE_LIMIT
  {
  }

  /** A session that was just made counts as none. */
  lemma EmitsFresh(s: S.Session, t: S.Session, sent: seq<Record>)
    requires s == S.DuringHandshake(s.cipher, s.keys, s.role) && Emits(Some(s), Some(t), sent)
    ensures Emits(None, Some(t), sent)
  {
    hide EpochOne, SealedBy;
  }

  /** Opening records changes nothing that matters for sending. */
  lemma EmitsOpened(s: S.Session, t: S.Session)
    requires SameKeys(s, t) && t.nextSequence == s.nextSequence
    ensures Emits(Some(s), Some(t), [])
  {
  }

  // ---- The client ----

  /** Before the third flight there is no session, and the flight is plaintext. */
  ghost predicate Early(c: CD.Client) {
    c.phase in {CD.AwaitVerify, CD.AwaitFlight} ==> c.session.None? && EpochZero(c.flight)
  }

  function SentBy(v: CD.Verdict): seq<Record> {
    if v.Leave? then v.sent else []
  }

  ghost predicate Does(c: CD.Client, v: CD.Verdict) {
    Early(v.client) && Emits(c.session, v.client.session, SentBy(v))
  }

  lemma FailsAsIs(c: CD.Client, why: CD.Failure)
    requires Early(c)
    ensures Does(c, CD.Failed(c, why))
  {
    hide EpochZero;
    EmitsNothing(c.session);
  }

  lemma HelloDoes(c: CD.Client)
    requires Early(c) && c.session.None? && CD.WithNewHello(c).Ok?
    ensures var d := CD.WithNewHello(c).value;
            d.session == c.session && EpochZero(d.flight) && Emits(c.session, d.session, d.flight)
  {
    hide CH.NextClientHello, Encode, SingleMessage, Emits;
    EmitsPlain(c.session, CD.WithNewHello(c).value.flight);
  }

  lemma ResentDoes(c: CD.Client)
    requires Early(c) && c.session.None? && EpochZero(c.flight)
    ensures Does(c, CD.Resent(c))
  {
    hide Renumbered, Emits;
    RenumberedZero(c.flight, c.nextRecord);
    EmitsPlain(c.session, Renumbered(c.flight, c.nextRecord).0);
  }

  lemma ResealedDoes(c: CD.Client)
    requires c.phase == CD.AwaitFinished && c.session.Some?
    ensures Does(c, CD.Resealed(c))
  {
    hide Encode, S.Protected, S.AfterProtect, Emits;
    EmitsNothing(c.session);
    var f := CD.FinishedFlight(c.keyExchange, c.finished, c.session.value, c.nextRecord);
    if f.Ok? {
      var flight := f.value.0;
      assert flight == flight[..2] + [flight[2]];
      EmitsSeal(c.session.value, Handshake, Encode(c.finished).value, flight[..2]);
    }
  }

  lemma VerifyDoes(c: CD.Client, record: Record)
    requires Early(c) && c.phase == CD.AwaitVerify
    ensures Does(c, CD.VerifyRecord(c, record))
  {
    hide Messages, CH.HandleHelloVerify, CD.WithNewHello, Emits, EpochZero;
    EmitsNothing(c.session);
    var hello := CH.HandleHelloVerify(c.hello, record);
    if hello.Ok? && CD.WithNewHello(c.(hello := hello.value)).Ok? {
      HelloDoes(c.(hello := hello.value));
    }
  }

  lemma ConcludeDoes(s: Suite, c: CD.Client)
    requires s.curve.order > 0 && Early(c) && c.phase == CD.AwaitFlight
    ensures Does(c, CD.Conclude(s, c))
  {
    hide CH.BuildClientKeyExchange, CH.DeriveKeys, CH.BuildClientFinished, CD.Resealed, Emits, EpochZero;
    EmitsNothing(c.session);
    var built := CH.BuildClientKeyExchange(s, c.handshake, c.hello.nextMessageSeq, c.v);
    if built.Ok? {
      var keys := CH.DeriveKeys(s, built.value.0);
      var finished := CH.BuildClientFinished(s, built.value.0, (c.hello.nextMessageSeq + 1) % 0x1_0000);
      if keys.Ok? && finished.Ok? {
        var start := S.DuringHandshake(s.cipher, keys.value, S.Client);
        var d := c.(phase := CD.AwaitFinished, handshake := finished.value.0, duplicates := 0,
                    keyExchange := built.value.1, finished := finished.value.1, sawChangeCipherSpec := false,
                    session := Some(start));
        ResealedDoes(d);
        ResealedKeepsSession(d);
        EmitsFresh(start, CD.Resealed(d).client.session.value, SentBy(CD.Resealed(d)));
      }
    }
  }

  lemma ResealedKeepsSession(c: CD.Client)
    requires c.session.Some?
    ensures CD.Resealed(c).client.session.Some?
  {
    hide CD.FinishedFlight;
  }

  lemma FlightMessageDoes(s: Suite, c: CD.Client, record: Record, m: Message)
    requires s.curve.order > 0 && Early(c) && c.phase == CD.AwaitFlight
    ensures Does(c, CD.FlightMessage(s, c, record, m))
  {
    hide CH.RecordClientHello, CH.HandleServerHello, CH.HandleServerKeyExchange, CH.HandleServerHelloDone,
         CH.HandleHelloVerify, CD.WithNewHello, CD.Conclude, CD.Resent, Emits, EpochZero, HasKind;
    EmitsNothing(c.session);
    var spent := c.(duplicates := c.duplicates + 1);
    ResentDoes(spent);
    var hello := CH.HandleHelloVerify(c.hello, record);
    if hello.Ok? && CD.WithNewHello(spent.(hello := hello.value)).Ok? {
      HelloDoes(spent.(hello := hello.value));
    }
    var done := CH.HandleServerHelloDone(c.handshake, m);
    if done.Ok? {
      ConcludeDoes(s, c.(handshake := done.value, serverFlight := c.serverFlight + [m]));
    }
  }

  lemma DoesThen(c: CD.Client, d: CD.Client, v: CD.Verdict)
    requires Emits(c.session, d.session, []) && Does(d, v)
    ensures Does(c, v)
  {
    hide Emits, Early;
    EmitsTwice(c.session, d.session, v.client.session, [], SentBy(v));
    assert [] + SentBy(v) == SentBy(v);
  }

  lemma {:induction false} FlightMessagesDo(s: Suite, c: CD.Client, record: Record, messages: seq<Message>)
    requires s.curve.order > 0 && Early(c) && c.phase == CD.AwaitFlight
    ensures Does(c, CD.FlightMessages(s, c, record, messages))
    decreases |messages|
  {
    hide CD.FlightMessage, Emits, EpochZero;
    if messages == [] {
      EmitsNothing(c.session);
    } else {
      var v := CD.FlightMessage(s, c, record, messages[0]);
      FlightMessageDoes(s, c, record, messages[0]);
      if v.Next? {
        FlightMessageStays(s, c, record, messages[0]);
        FlightMessagesDo(s, v.client, record, messages[1..]);
        DoesThen(c, v.client, CD.FlightMessages(s, v.client, record, messages[1..]));
      }
    }
  }

  lemma FlightMessageStays(s: Suite, c: CD.Client, record: Record, m: Message)
    requires s.curve.order > 0
    ensures var v := CD.FlightMessage(s, c, record, m); v.Next? ==> v.client.phase == c.phase
  {
    CD.FlightMessagesStay(s, c, record, [m]);
    assert [m][1..] == [];
  }

  lemma FinishedRecordDoes(s: Suite, c: CD.Client, record: Record)
    requires c.session.Some? && Early(c) && c.phase == CD.AwaitFinished
    ensures Does(c, CD.FinishedRecord(s, c, record))
  {
    hide S.Opened, Emits, EpochZero, CD.FinishedMessages, CD.PlainHandshake;
    EmitsNothing(c.session);
    var next := c.(session := Some(S.AfterOpen(c.session.value, record)));
    EmitsOpened(c.session.value, next.session.value);
    if S.Opened(c.session.value, record).Ok? && S.Opened(c.session.value, record).value.Some? {
      var messages := CD.PlainHandshake(S.Opened(c.session.value, record).value.value);
      if messages.Ok? {
        FinishedMessagesSilent(s, next, messages.value);
      }
    }
  }

  lemma {:induction false} FinishedMessagesSilent(s: Suite, c: CD.Client, messages: seq<Message>)
    requires c.session.Some? && c.phase == CD.AwaitFinished
    ensures var v := CD.FinishedMessages(s, c, messages);
            v.client.session == c.session && v.client.phase in {CD.AwaitFinished, CD.Established} && SentBy(v) == []
    decreases |messages|
  {
    if messages != [] {
      FinishedMessagesSilent(s, c, messages[1..]);
    }
  }

  lemma ClientRecordDoes(s: Suite, c: CD.Client, record: Record)
    requires CD.Ready(s, c) && Early(c)
    ensures Does(c, CD.OneRecord(s, c, record))
  {
    hide CD.VerifyRecord, CD.FlightMessages, CD.FinishedRecord, Emits, EpochZero, Messages;
    EmitsNothing(c.session);
    match c.phase
    case AwaitVerify => VerifyDoes(c, record);
    case AwaitFlight =>
      if Messages(record).Ok? {
        FlightMessagesDo(s, c, record, Messages(record).value);
      }
    case AwaitFinished => FinishedRecordDoes(s, c, record);
    case Established =>
  }

  lemma {:induction false} ClientRecordsDo(s: Suite, c: CD.Client, records: seq<Record>)
    requires CD.Ready(s, c) && Early(c)
    ensures var (d, sent) := CD.OnRecords(s, c, records); Early(d) && Emits(c.session, d.session, sent)
    decreases |records|
  {
    hide CD.OneRecord, Emits, Early;
    if records == [] {
      EmitsNothing(c.session);
    } else {
      ClientRecordDoes(s, c, records[0]);
      CD.PhaseStays(s, c, records[0]);
      var v := CD.OneRecord(s, c, records[0]);
      if v.Next? {
        ClientRecordsDo(s, v.client, records[1..]);
        var (d, sent) := CD.OnRecords(s, v.client, records[1..]);
        EmitsTwice(c.session, v.client.session, d.session, [], sent);
        assert [] + sent == sent;
      }
    }
  }

  /** Whatever datagram arrives. */
  lemma ClientDatagramDoes(s: Suite, c: CD.Client, records: seq<Record>)
    requires CD.Ready(s, c) && Early(c)
    ensures var (d, sent) := CD.OnDatagram(s, c, records); Early(d) && Emits(c.session, d.session, sent)
  {
    hide CD.OnRecords, CD.Resealed, CD.RepeatsFinalServerMessage, Emits, EpochZero;
    EmitsNothing(c.session);
    ClientRecordsDo(s, c, records);
    if c.failure.None? && c.phase == CD.AwaitFinished {
      var e := c.(duplicates := c.duplicates + 1);
      var v := CD.Resealed(e);
      ResealedDoes(e);
      ResealedKeepsSession(e);
      ResealedSilentOnFailure(e);
      if v.client.failure.None? {
        ClientRecordsDo(s, v.client, records);
        var (d, sent) := CD.OnRecords(s, v.client, records);
        EmitsTwice(c.session, v.client.session, d.session, v.sent, sent);
      }
    }
  }

  lemma ResealedSilentOnFailure(c: CD.Client)
    requires c.session.Some?
    ensures var v := CD.Resealed(c);
            v.Leave? && (v.client.failure.Some? && c.failure.None? ==> v.sent == []) && v.client.phase == c.phase
  {
    hide CD.FinishedFlight;
  }

  lemma ClientTimeoutDoes(c: CD.Client)
    requires Early(c) && (c.phase == CD.AwaitFinished ==> c.session.Some?)
    ensures var (d, sent) := CD.OnTimeout(c); Early(d) && Emits(c.session, d.session, sent)
  {
    hide CD.Resealed, CD.Resent, Emits, EpochZero;
    EmitsNothing(c.session);
    if c.phase == CD.AwaitFinished {
      ResealedDoes(c);
      ResealedSilentOnFailure(c);
    } else if c.phase != CD.Established {
      ResentDoes(c);
      ResentLeaves(c);
    }
  }

  lemma ResentLeaves(c: CD.Client)
    ensures CD.Resent(c).Leave?
  {
  }

  // ---- The server ----

  /** Before the server is done there is no session, and the flight is
      plaintext. */
  ghost predicate EarlyServer(v: SD.Server) {
    v.phase != SD.Established ==> v.session.None? && EpochZero(v.flight)
  }

  ghost predicate ServerDoes(v: SD.Server, w: SD.Server, sent: seq<Record>) {
    EarlyServer(w) && Emits(v.session, w.session, sent)
  }

  /** Only plaintext records are sent, and the session stays as it is. */
  lemma PlainDoes(v: SD.Server, w: SD.Server, sent: seq<Record>)
    requires EarlyServer(w) && w.session == v.session && EpochZero(sent)
    ensures ServerDoes(v, w, sent)
  {
    hide Emits;
    EmitsPlain(v.session, sent);
  }

  lemma ServerDoesTwice(v: SD.Server, w: SD.Server, x: SD.Server, a: seq<Record>, b: seq<Record>)
    requires ServerDoes(v, w, a) && ServerDoes(w, x, b)
    ensures ServerDoes(v, x, a + b)
  {
    hide Emits, EarlyServer;
    EmitsTwice(v.session, w.session, x.session, a, b);
  }

  lemma {:induction false} FlightIsPlain(messages: seq<Message>, next: u64)
    ensures var f := SD.FlightOf(messages, next); f.Ok? ==> EpochZero(f.value.0)
    decreases |messages|
  {
    hide Encode;
    if messages != [] {
      FlightIsPlain(messages[1..], WrappingIncrement(next));
    }
  }

  lemma HelloMessageDoes(s: Suite, v: SD.Server, record: Record, m: Message)
    requires s.curve.order > 0 && EarlyServer(v) && v.phase == SD.AwaitHello
    ensures var w := SD.HelloMessage(s, v, record, m); ServerDoes(v, w.server, w.sent)
  {
    hide SD.Answer, SD.FlightOf, Encode, Hello.DecodeClientHello, Hello.EncodeHelloVerify, Emits;
    var answer := SD.Answer(s, v.handshake, m, v.v);
    if answer.Ok? {
      FlightIsPlain(answer.value.1, record.header.sequence);
    }
    var w := SD.HelloMessage(s, v, record, m);
    PlainDoes(v, w.server, w.sent);
  }

  lemma {:induction false} HelloMessagesDo(s: Suite, v: SD.Server, record: Record, messages: seq<Message>)
    requires s.curve.order > 0 && EarlyServer(v) && v.phase == SD.AwaitHello
    ensures var w := SD.HelloMessages(s, v, record, messages); ServerDoes(v, w.server, w.sent)
    decreases |messages|
  {
    hide SD.HelloMessage, Emits, EpochZero;
    if messages == [] {
      EmitsNothing(v.session);
    } else {
      HelloMessageDoes(s, v, record, messages[0]);
      var first := SD.HelloMessage(s, v, record, messages[0]);
      if first.Next? {
        HelloNextStays(s, v, record, messages[0]);
        HelloMessagesDo(s, v, record, messages[1..]);
        var rest := SD.HelloMessages(s, v, record, messages[1..]);
        ServerDoesTwice(v, v, rest.server, first.sent, rest.sent);
      }
    }
  }

  lemma HelloNextStays(s: Suite, v: SD.Server, record: Record, m: Message)
    requires s.curve.order > 0
    ensures var w := SD.HelloMessage(s, v, record, m); w.Next? ==> w.server == v
  {
    hide SD.Accept, SD.VerifyRequest, Hello.DecodeClientHello;
    AcceptLeaves(s, v, m, record.header.sequence);
  }

  lemma AcceptLeaves(s: Suite, v: SD.Server, m: Message, sequence: u64)
    requires s.curve.order > 0
    ensures SD.Accept(s, v, m, sequence).Leave?
  {
    hide SD.Answer, SD.FlightOf;
  }

  lemma {:induction false} KeyExchangeDoes(s: Suite, v: SD.Server, messages: seq<Message>)
    requires s.curve.order > 0 && EarlyServer(v) && v.phase == SD.AwaitClientFlight
    ensures var w := SD.KeyExchangeMessages(s, v, messages);
            w.server.session == v.session && w.server.phase == v.phase && w.server.flight == v.flight && w.sent == []
    decreases |messages|
  {
    hide SH.HandleClientKeyExchange, SH.DeriveKeys, EpochZero;
    if messages != [] {
      var first := SD.KeyExchangeMessage(s, v, messages[0]);
      if first.Next? {
        KeyExchangeDoes(s, first.server, messages[1..]);
      }
    }
  }

  lemma LastFlightDoes(session: S.Session, finished: bytes, next: u64)
    ensures var f := SD.FinishedFlight(session, finished, next);
            f.Ok? ==> Emits(Some(session), Some(f.value.1), f.value.0)
  {
    hide S.Protected, S.AfterProtect, Emits;
    var f := SD.FinishedFlight(session, finished, next);
    if f.Ok? {
      assert f.value.0 == f.value.0[..1] + [f.value.0[1]];
      EmitsSeal(session, Handshake, finished, f.value.0[..1]);
    }
  }

  lemma ClientFinishedDoes(s: Suite, v: SD.Server, keys: Keys, plaintext: bytes)
    requires EarlyServer(v) && v.phase == SD.AwaitClientFlight
    ensures var w := SD.ClientFinished(s, v, keys, plaintext); ServerDoes(v, w.server, w.sent)
  {
    hide SingleMessage, SH.VerifyClientFinished, SH.BuildServerFinished, Encode, SD.FinishedFlight, Emits;
    var w := SD.ClientFinished(s, v, keys, plaintext);
    var start := S.DuringHandshake(s.cipher, keys, S.Server);
    if w.server.phase == SD.Established {
      LastFlightDoes(start, w.server.finished, v.nextRecord);
      EmitsFresh(start, w.server.session.value, w.sent);
    } else {
      PlainDoes(v, w.server, w.sent);
    }
  }

  lemma ServerRecordDoes(s: Suite, v: SD.Server, record: Record)
    requires s.curve.order > 0 && EarlyServer(v)
    ensures var w := SD.OneRecord(s, v, record); ServerDoes(v, w.server, w.sent)
  {
    hide SD.HelloMessages, SD.KeyExchangeMessages, SD.ClientFinished, Messages, Emits, Open;
    EmitsNothing(v.session);
    match v.phase
    case AwaitHello =>
      if Messages(record).Ok? {
        HelloMessagesDo(s, v, record, Messages(record).value);
      }
    case AwaitClientFlight =>
      if Messages(record).Ok? {
        KeyExchangeDoes(s, v, Messages(record).value);
      }
      if v.keys.Some? {
        var text := Open(s.cipher, record, v.keys.value.clientKey, v.keys.value.clientIv);
        if text.Ok? {
          ClientFinishedDoes(s, v, v.keys.value, text.value);
        }
      }
      EmitsPlain(v.session, SD.FailedWithAlert(v).sent);
    case Established =>
  }

  lemma {:induction false} ServerRecordsDo(s: Suite, v: SD.Server, records: seq<Record>)
    requires s.curve.order > 0 && EarlyServer(v)
    ensures var (w, sent) := SD.OnRecords(s, v, records); ServerDoes(v, w, sent)
    decreases |records|
  {
    hide SD.OneRecord, Emits, EarlyServer;
    if records == [] {
      EmitsNothing(v.session);
    } else {
      ServerRecordDoes(s, v, records[0]);
      var first := SD.OneRecord(s, v, records[0]);
      if first.Next? {
        ServerRecordsDo(s, first.server, records[1..]);
        var (w, sent) := SD.OnRecords(s, first.server, records[1..]);
        ServerDoesTwice(v, first.server, w, first.sent, sent);
      }
    }
  }

  lemma ServerResentDoes(v: SD.Server)
    requires EarlyServer(v) && v.phase == SD.AwaitClientFlight
    ensures var (w, sent) := SD.Resent(v); ServerDoes(v, w, sent)
  {
    hide Renumbered, Emits;
    RenumberedZero(v.flight, v.nextRecord);
    var (w, sent) := SD.Resent(v);
    PlainDoes(v, w, sent);
  }

  lemma ReadOnDoes(v: SD.Server)
    requires v.phase == SD.Established && v.session.Some?
    ensures ServerDoes(v, SD.ReadOn(v), [])
  {
    hide S.OpenNext, Emits, EpochZero;
    S.OpenNextFrame(v.session.value);
    EmitsOpened(v.session.value, SD.ReadOn(v).session.value);
  }

  lemma QueuedDoes(v: SD.Server, records: seq<Record>)
    requires v.phase == SD.Established && v.session.Some?
    ensures ServerDoes(v, SD.ReadOn(SD.Queued(v, records)), [])
  {
    hide SD.ReadOn, Emits, EpochZero;
    var q := SD.Queued(v, records);
    EmitsOpened(v.session.value, q.session.value);
    ReadOnDoes(q);
    var none: seq<Record> := [];
    ServerDoesTwice(v, q, SD.ReadOn(q), none, none);
    assert none + none == none;
  }

  /** Whatever datagram arrives. */
  lemma ServerDatagramDoes(s: Suite, v: SD.Server, records: seq<Record>)
    requires SD.Ready(s, v) && EarlyServer(v)
    ensures var (w, sent) := SD.OnDatagram(s, v, records); ServerDoes(v, w, sent)
  {
    hide SD.OnRecords, SD.Resent, SD.FinishedFlight, SD.ReadOn, SD.Queued, Flights.Carries, IsClientFinishedFlight,
         Emits, EpochZero;
    EmitsNothing(v.session);
    match v.phase
    case AwaitHello => ServerRecordsDo(s, v, records);
    case AwaitClientFlight =>
      ServerRecordsDo(s, v, records);
      ServerResentDoes(v.(duplicates := v.duplicates + 1));
    case Established =>
      QueuedDoes(v, records);
      LastFlightDoes(v.session.value, v.finished, v.nextRecord);
      var f := SD.FinishedFlight(v.session.value, v.finished, v.nextRecord);
      if f.Ok? {
        var answered := v.(session := Some(f.value.1), nextRecord := f.value.2, duplicates := v.duplicates + 1);
        QueuedDoes(answered, records);
        ServerDoesTwice(v, answered, SD.ReadOn(SD.Queued(answered, records)), f.value.0, []);
        assert f.value.0 + [] == f.value.0;
      }
  }

  lemma ServerTimeoutDoes(v: SD.Server)
    requires EarlyServer(v)
    ensures var (w, sent) := SD.OnTimeout(v); ServerDoes(v, w, sent)
  {
    hide SD.Resent, Emits, EpochZero;
    EmitsNothing(v.session);
    if v.phase == SD.AwaitClientFlight {
      ServerResentDoes(v);
    }
  }

  lemma ServerReadDoes(v: SD.Server)
    requires EarlyServer(v) && (v.phase == SD.Established ==> v.session.Some?)
    ensures ServerDoes(v, SD.OnRead(v), [])
  {
    hide SD.ReadOn, Emits, EpochZero;
    EmitsNothing(v.session);
    if v.phase == SD.Established {
      ReadOnDoes(v.(duplicates := 0, reading := true));
    }
  }

  // ---- Both over the network ----

  /** The records the client sends in a step. */
  ghost function ClientSent(u: Setup, s: System, e: Event): seq<Record>
    requires Runs(u, s)
  {
    match e
    case ClientReceives(records) =>
      if exists r :: r in records && r !in s.toClient then [] else CD.OnDatagram(u.suite, s.client, records).1
    case ClientTimer => CD.OnTimeout(s.client).1
    case ClientSends(text) =>
      if s.client.failure.Some? || s.client.phase != CD.Established then []
      else DataSent(s.client.session.value, text)
    case _ => []
  }

  /** The records the server sends in a step. */
  ghost function ServerSent(u: Setup, s: System, e: Event): seq<Record>
    requires Runs(u, s)
  {
    match e
    case ServerReceives(records) =>
      if exists r :: r in records && r !in s.toServer then [] else SD.OnDatagram(u.suite, s.server, records).1
    case ServerTimer => SD.OnTimeout(s.server).1
    case ServerSends(text) =>
      if s.server.failure.Some? || s.server.phase != SD.Established then []
      else DataSent(s.server.session.value, text)
    case _ => []
  }

  function DataSent(session: S.Session, text: bytes): seq<Record> {
    var r := S.Protected(session, ApplicationData, text);
    if r.Ok? then [r.value] else []
  }

  /** These are the records a step adds to the network. */
  lemma SentIsOnTheWay(u: Setup, s: System, e: Event)
    requires Runs(u, s)
    ensures Step(u, s, e).toServer == s.toServer + Wired(ClientSent(u, s, e))
    ensures Step(u, s, e).toClient == s.toClient + Wired(ServerSent(u, s, e))
  {
    hide CD.OnDatagram, SD.OnDatagram, CD.OnTimeout, SD.OnTimeout, SD.OnRead, S.Protected, S.AfterProtect;
    assert s.toServer + Wired([]) == s.toServer && s.toClient + Wired([]) == s.toClient;
  }

  lemma DataDoes(session: S.Session, text: bytes)
    ensures Emits(Some(session), Some(S.AfterProtect(session, ApplicationData, text)), DataSent(session, text))
  {
    hide Emits;
    EmitsNothing(Some(session));
    if S.Protected(session, ApplicationData, text).Ok? {
      EmitsSeal(session, ApplicationData, text, []);
      assert [] + DataSent(session, text) == DataSent(session, text);
    }
  }

  lemma ClientStepDoes(u: Setup, s: System, e: Event)
    requires Runs(u, s) && Early(s.client)
    ensures var t := Step(u, s, e);
            Early(t.client) && Emits(s.client.session, t.client.session, ClientSent(u, s, e))
  {
    hide CD.OnDatagram, SD.OnDatagram, CD.OnTimeout, SD.OnTimeout, SD.OnRead, S.Protected, S.AfterProtect, Emits,
         EpochZero, DataSent;
    EmitsNothing(s.client.session);
    match e
    case ClientReceives(records) => ClientDatagramDoes(u.suite, s.client, records);
    case ClientTimer => ClientTimeoutDoes(s.client);
    case ClientSends(text) =>
      if s.client.session.Some? {
        DataDoes(s.client.session.value, text);
      }
    case _ =>
  }

  lemma ServerStepDoes(u: Setup, s: System, e: Event)
    requires Runs(u, s) && EarlyServer(s.server)
    ensures ServerDoes(s.server, Step(u, s, e).server, ServerSent(u, s, e))
  {
    hide CD.OnDatagram, SD.OnDatagram, CD.OnTimeout, SD.OnTimeout, SD.OnRead, S.Protected, S.AfterProtect, Emits,
         EpochZero, DataSent;
    EmitsNothing(s.server.session);
    match e
    case ServerReceives(records) => ServerDatagramDoes(u.suite, s.server, records);
    case ServerTimer => ServerTimeoutDoes(s.server);
    case ServerReads => ServerReadDoes(s.server);
    case ServerSends(text) =>
      if s.server.session.Some? {
        DataDoes(s.server.session.value, text);
      }
    case _ =>
  }

  // ---- Whole runs ----

  /** Everything the client sends in a run, in order. */
  ghost function ClientLog(u: Setup, events: seq<Event>): seq<Record>
    requires u.suite.curve.order > 0
  {
    if events == [] then (if NewClient(u).Ok? then NewClient(u).value.flight else [])
    else
      var before, last := After(u, events[..|events| - 1]), events[|events| - 1];
      ClientLog(u, events[..|events| - 1])
      + if before.Some? && Runs(u, before.value) then ClientSent(u, before.value, last) else []
  }

  /** Everything the server sends in a run, in order. */
  ghost function ServerLog(u: Setup, events: seq<Event>): seq<Record>
    requires u.suite.curve.order > 0
  {
    if events == [] then []
    else
      var before, last := After(u, events[..|events| - 1]), events[|events| - 1];
      ServerLog(u, events[..|events| - 1])
      + if before.Some? && Runs(u, before.value) then ServerSent(u, before.value, last) else []
  }

  lemma StartEarly(u: Setup)
    requires u.suite.curve.order > 0 && NewClient(u).Ok?
    ensures var s := Start(u);
            && Early(s.client) && s.client.session.None? && EarlyServer(s.server) && s.server.session.None?
            && EpochZero(s.client.flight)
  {
    hide CH.NextClientHello, Encode, SingleMessage, EcJpakeCodec.EncodeKkpp;
  }

  lemma {:induction false} RunEmits(u: Setup, events: seq<Event>)
    requires u.suite.curve.order > 0 && After(u, events).Some?
    ensures var s := After(u, events).value;
            && Early(s.client) && EarlyServer(s.server)
            && Emits(None, s.client.session, ClientLog(u, events))
            && Emits(None, s.server.session, ServerLog(u, events))
    decreases |events|
  {
    hide Step, Emits, Start, NewClient, Early, EarlyServer, EpochZero, ClientSent, ServerSent, Runs;
    if events == [] {
      StartEarly(u);
      StartFlight(u);
      EmitsPlain(None, NewClient(u).value.flight);
      EmitsNothing(None);
    } else {
      var front, last := events[..|events| - 1], events[|events| - 1];
      RunEmits(u, front);
      var s := After(u, front).value;
      ClientStepDoes(u, s, last);
      ServerStepDoes(u, s, last);
      var t := Step(u, s, last);
      EmitsTwice(None, s.client.session, t.client.session, ClientLog(u, front), ClientSent(u, s, last));
      EmitsTwice(None, s.server.session, t.server.session, ServerLog(u, front), ServerSent(u, s, last));
    }
  }

  lemma StartFlight(u: Setup)
    requires u.suite.curve.order > 0 && NewClient(u).Ok?
    ensures Start(u).client == NewClient(u).value
  {
    hide NewClient;
  }

  /** The nonces of the records a side has protected are pairwise distinct. */
  ghost predicate NoncesDistinct(session: Option<S.Session>, log: seq<Record>) {
    var seals := EpochOne(log);
    && (seals != [] ==> session.Some? && AllSealedBy(session.value, seals))
    && forall i, j :: 0 <= i < j < |seals| ==> NoncesApart(session.value.WriteIv(), seals[i], seals[j])
  }

  ghost predicate NoncesApart(iv: FixedIv, a: Record, b: Record) {
    && Nonce(iv, 1, a.header.sequence).Ok? && Nonce(iv, 1, b.header.sequence).Ok?
    && Nonce(iv, 1, a.header.sequence) != Nonce(iv, 1, b.header.sequence)
  }

  lemma EmittedDistinct(session: Option<S.Session>, log: seq<Record>)
    requires Emits(None, session, log)
    ensures NoncesDistinct(session, log)
  {
    hide EpochOne, SealedBy, Nonce;
    var seals := EpochOne(log);
    if session.Some? {
      var iv := session.value.WriteIv();
      forall i, j | 0 <= i < j < |seals| ensures NoncesApart(iv, seals[i], seals[j]) {
        NumbersApart(iv, seals[i], seals[j]);
      }
    }
  }

  lemma NumbersApart(iv: FixedIv, a: Record, b: Record)
    requires a.header.sequence != b.header.sequence
    requires a.header.sequence < SEQUENCE_LIMIT && b.header.sequence < SEQUENCE_LIMIT
    ensures NoncesApart(iv, a, b)
  {
    if Nonce(iv, 1, a.header.sequence) == Nonce(iv, 1, b.header.sequence) {
      NonceInjective(iv, 1, a.header.sequence, b.header.sequence);
    }
  }

  /** In every run, whatever is lost, repeated or reordered, all records that
      one side protects, resent Finished messages and application data alike,
      are protected under the one write key of its session, and no two of them
      under the same nonce. */
  lemma EveryRunKeepsNoncesApart(u: Setup, events: seq<Event>)
    requires u.suite.curve.order > 0 && After(u, events).Some?
    ensures var s := After(u, events).value;
            && NoncesDistinct(s.client.session, ClientLog(u, events))
            && NoncesDistinct(s.server.session, ServerLog(u, events))
  {
    hide After, ClientLog, ServerLog, Emits, NoncesDistinct, Early, EarlyServer;
    RunEmits(u, events);
    var s := After(u, events).value;
    EmittedDistinct(s.client.session, ClientLog(u, events));
    EmittedDistinct(s.server.session, ServerLog(u, events));
  }

  /** The logs are what the network has carried. */
  lemma {:induction false} LogsAreOnTheWay(u: Setup, events: seq<Event>)
    requires u.suite.curve.order > 0 && After(u, events).Some?
    ensures var s := After(u, events).value;
            s.toServer == Wired(ClientLog(u, events)) && s.toClient == Wired(ServerLog(u, events))
    decreases |events|
  {
    hide Step, Start, NewClient, ClientSent, ServerSent, Runs;
    if events == [] {
      StartOnTheWay(u);
    } else {
      var front, last := events[..|events| - 1], events[|events| - 1];
      LogsAreOnTheWay(u, front);
      var s := After(u, front).value;
      SentIsOnTheWay(u, s, last);
      WiredJoined(ClientLog(u, front), ClientSent(u, s, last));
      WiredJoined(ServerLog(u, front), ServerSent(u, s, last));
    }
  }

  lemma StartOnTheWay(u: Setup)
    requires u.suite.curve.order > 0 && NewClient(u).Ok?
    ensures Start(u).toServer == Wired(NewClient(u).value.flight) && Start(u).toClient == Wired([])
  {
    hide NewClient;
  }

  lemma WiredJoined(a: seq<Record>, b: seq<Record>)
    ensures Wired(a + b) == Wired(a) + Wired(b)
  {
  }
}
