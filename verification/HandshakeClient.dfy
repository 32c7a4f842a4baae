/** What the honest client does with the records an honest server sends, in
    whatever order and however often they arrive. */
module HandshakeClient {
  import opened Wire
  import opened Records
  import opened Framing
  import opened Flights
  import opened Suites
  import opened Protection
  import opened HandshakeScript
  import opened ClientDriver
  import CH = ClientHandshakes
  import Hello
  import S = Session
  import Curves
  import Replay

  // ---- The records of an honest run ----

  /** A plaintext handshake record carrying `m` alone. */
  ghost predicate Hs(r: Record, m: Message) {
    && r.header.contentType == Handshake && r.header.epoch == 0
    && Encodable(m) && r.payload == Packed(m)
  }

  predicate IsCcs(r: Record) {
    r.header.contentType == ChangeCipherSpec && r.header.epoch == 0 && r.payload == [1]
  }

  /** A record protected with the handshake's keys by `role`. */
  ghost predicate Sealed(u: Setup, x: Script, role: S.Role, contentType: ContentType, text: bytes, r: Record) {
    exists q: u64 :: SealedAt(u, x, role, contentType, text, q) == Ok(r)
  }

  ghost function SealedAt(u: Setup, x: Script, role: S.Role, contentType: ContentType, text: bytes, q: u64)
    : (r: Result<Record>)
    ensures r.Ok? ==> r.value.header.contentType == contentType && r.value.header.epoch == 1
                      && r.value.header.sequence < SEQUENCE_LIMIT
  {
    Protect(u.suite.cipher, contentType, 1, q,
            if role == S.Client then x.keys.clientKey else x.keys.serverKey,
            if role == S.Client then x.keys.clientIv else x.keys.serverIv, text)
  }

  ghost predicate AppData(u: Setup, x: Script, role: S.Role, r: Record) {
    exists text :: Sealed(u, x, role, ApplicationData, text, r)
  }

  ghost predicate AllHs(records: seq<Record>, m: Message) {
    forall i :: 0 <= i < |records| ==> Hs(records[i], m)
  }

  /** What a client of the given rank may have sent. */
  ghost predicate FromClient(u: Setup, x: Script, rank: nat, r: Record) {
    || Hs(r, x.firstHello)
    || (rank >= 1 && Hs(r, x.clientHello))
    || (rank >= 2 && (Hs(r, x.clientKeyExchange) || IsCcs(r)
                      || Sealed(u, x, S.Client, Handshake, Packed0(x.clientFinished), r)))
    || (rank >= 3 && AppData(u, x, S.Client, r))
  }

  ghost predicate ServerFlightRecord(x: Script, r: Record) {
    Hs(r, x.serverHello) || Hs(r, x.serverKeyExchange) || Hs(r, x.serverHelloDone)
  }

  /** What a server of the given rank may have sent. */
  ghost predicate FromServer(u: Setup, x: Script, rank: nat, r: Record) {
    || Hs(r, x.verify)
    || (rank >= 1 && ServerFlightRecord(x, r))
    || (rank >= 2 && (IsCcs(r) || Sealed(u, x, S.Server, Handshake, Packed0(x.serverFinished), r)
                      || AppData(u, x, S.Server, r)))
  }

  ghost function Packed0(m: Message): bytes {
    if Encodable(m) then Packed(m) else []
  }

  ghost predicate AllFromClient(u: Setup, x: Script, rank: nat, records: seq<Record>) {
    forall i :: 0 <= i < |records| ==> FromClient(u, x, rank, records[i])
  }

  ghost predicate AllFromServer(u: Setup, x: Script, rank: nat, records: seq<Record>) {
    forall i :: 0 <= i < |records| ==> FromServer(u, x, rank, records[i])
  }

  function Rank(p: Phase): nat {
    match p
    case AwaitVerify => 0
    case AwaitFlight => 1
    case AwaitFinished => 2
    case Established => 3
  }

  /** How far the two sides can be apart. */
  predicate Compatible(client: nat, server: nat) {
    && client <= 3 && server <= 2
    && (server >= 1 ==> client >= 1) && (client >= 2 ==> server >= 1)
    && (server >= 2 ==> client >= 2) && (client == 3 ==> server == 2)
  }

  /** A session holding the handshake's keys. */
  ghost predicate KeyedSession(u: Setup, x: Script, session: S.Session, role: S.Role) {
    session.cipher == u.suite.cipher && session.keys == x.keys && session.role == role
  }

  // ---- The client's invariant ----

  predicate OnlyDeadlineOrCounter(failure: Option<Failure>, session: Option<S.Session>) {
    match failure
    case None => true
    case Some(DeadlinePassed) => true
    case Some(SealFailed) => session.Some? && session.value.nextSequence >= SEQUENCE_LIMIT
    case _ => false
  }

  ghost predicate InVerify(u: Setup, x: Script, c: Client)
    requires Fits(u, x)
  {
    && c.handshake == ClientAt(u, x, 0) && c.hello == HelloAt(u, x, 1, [])
    && !c.recorded && c.serverFlight == [] && c.flight != [] && AllHs(c.flight, x.firstHello)
  }

  /** How much of the server's flight has been handled: nothing, the
      ServerHello, or the ServerKeyExchange too. */
  ghost predicate Handled(u: Setup, x: Script, c: Client)
    requires Fits(u, x)
  {
    || (!c.recorded && c.handshake == ClientAt(u, x, 0) && c.serverFlight == [])
    || (c.recorded && c.handshake == ClientAt(u, x, 2) && c.serverFlight == [x.serverHello])
    || (c.recorded && c.handshake == ClientAt(u, x, 3) && c.serverFlight == [x.serverHello, x.serverKeyExchange])
  }

  ghost predicate InFlight(u: Setup, x: Script, c: Client)
    requires Fits(u, x)
  {
    && Handled(u, x, c) && c.hello == HelloAt(u, x, 2, u.Cookie())
    && c.clientHello == x.clientHello && c.flight != [] && AllHs(c.flight, x.clientHello)
  }

  ghost predicate InFinished(u: Setup, x: Script, c: Client)
    requires Fits(u, x)
  {
    && c.handshake == ClientAt(u, x, 6) && c.keyExchange == x.clientKeyExchange && c.finished == x.clientFinished
    && c.session.Some? && KeyedSession(u, x, c.session.value, S.Client) && c.session.value.window == Replay.Fresh
  }

  ghost predicate ClientGood(u: Setup, x: Script, c: Client)
    requires Fits(u, x)
  {
    && c.v == u.v(4) && OnlyDeadlineOrCounter(c.failure, c.session)
    && match c.phase
       case AwaitVerify => InVerify(u, x, c)
       case AwaitFlight => InFlight(u, x, c)
       case AwaitFinished => InFinished(u, x, c)
       case Established =>
         c.handshake == ClientAt(u, x, 7) && c.session.Some? && KeyedSession(u, x, c.session.value, S.Client)
  }

  /** A step of the client keeps the invariant, never moves back, gets ahead of
      the server only as far as the server's own records let it, and sends
      nothing but its own records. */
  ghost predicate GoodStep(u: Setup, x: Script, server: nat, c: Client, next: Client, sent: seq<Record>)
    requires Fits(u, x)
  {
    && ClientGood(u, x, next) && Rank(next.phase) >= Rank(c.phase) && Compatible(Rank(next.phase), server)
    && AllFromClient(u, x, Rank(next.phase), sent)
  }

  // ---- Building and reading records ----

  lemma HsBuilt(m: Message, next: u64)
    requires |m.body| <= 1000
    ensures Encodable(m) && Encode(m) == Ok(Packed(m)) && |Packed(m)| <= 1100
    ensures NewRecord(Handshake, 0, next, Packed(m)).Ok? && Hs(NewRecord(Handshake, 0, next, Packed(m)).value, m)
  {
    EncodeIsTranscriptForm(m);
  }

  lemma HsReads(r: Record, m: Message)
    requires Hs(r, m)
    ensures Messages(r) == Ok([m]) && SingleMessage(r, m.kind) == Ok(m)
  {
    SingleRoundTrip(m, r);
  }

  lemma HsRenumbered(flight: seq<Record>, next: u64, m: Message)
    requires AllHs(flight, m)
    ensures AllHs(Renumbered(flight, next).0, m)
  {
    hide Renumbered, Packed;
    RenumberedFrame(flight, next);
  }

  /** The next ClientHello of a state the script covers. */
  lemma NewHelloBuilt(c: Client, hello: CH.HelloState, m: Message)
    requires CH.NextClientHello(c.hello) == Ok((hello, m)) && m.kind == ClientHello && |m.body| <= 1000
    ensures var r := WithNewHello(c);
            && r.Ok? && r.value.flight != [] && AllHs(r.value.flight, m) && r.value.hello == hello
            && r.value.clientHello == m
            && r.value == c.(hello := hello, flight := r.value.flight, clientHello := m,
                             nextRecord := WrappingIncrement(c.nextRecord))
  {
    hide CH.NextClientHello, SingleMessage, Encode, Packed;
    HsBuilt(m, c.nextRecord);
    HsReads(NewRecord(Handshake, 0, c.nextRecord, Packed(m)).value, m);
  }

  // ---- Waiting for the HelloVerifyRequest ----

  lemma VerifyHandled(u: Setup, x: Script, c: Client, r: Record)
    requires Works(u, x) && ClientGood(u, x, c) && c.phase == AwaitVerify && Hs(r, x.verify)
    ensures var v := VerifyRecord(c, r);
            && v.Leave? && v.client.phase == AwaitFlight && ClientGood(u, x, v.client) && AllHs(v.sent, x.clientHello)
            && v.client.failure == c.failure
  {
    hide ClientWorks, ServerWorks, CH.NextClientHello, Script.Sized, Hello.DecodeHelloVerify, Hello.EncodeHelloVerify,
         Hello.DecodeClientHello, Messages, SingleMessage, Packed, WithNewHello, ClientAt, Suite.Lawful, CH.HelloBody;
    assert Recall(Laws) && Recall(CookieSteps);
    SizesOf(x);
    HsReads(r, x.verify);
    assert HasKind([x.verify], HelloVerifyRequest) by { assert [x.verify][0].kind == HelloVerifyRequest; }
    assert CH.HandleHelloVerify(c.hello, r) == Ok(HelloAt(u, x, 1, u.Cookie()));
    NewHelloBuilt(c.(hello := HelloAt(u, x, 1, u.Cookie())), HelloAt(u, x, 2, u.Cookie()), x.clientHello);
  }

  // ---- Waiting for the server's flight ----

  ghost predicate FlightReady(u: Setup, x: Script, c: Client) {
    Works(u, x) && ClientGood(u, x, c) && c.phase == AwaitFlight && c.failure.None?
  }

  /** A repeated HelloVerifyRequest only makes the client send the same
      ClientHello again. */
  lemma VerifyRepeated(u: Setup, x: Script, c: Client, r: Record)
    requires FlightReady(u, x, c) && Hs(r, x.verify)
    ensures var v := FlightMessage(u.suite, c, r, x.verify);
            && v.client.phase == AwaitFlight && ClientGood(u, x, v.client) && v.client.failure.None?
            && (v.Leave? ==> AllHs(v.sent, x.clientHello))
  {
    hide ClientWorks, ServerWorks, CookieWorks, Renumbered, Hello.DecodeHelloVerify, SingleMessage, Packed, ClientAt,
         Suite.Lawful, Script.Sized, WithNewHello, Messages;
    assert Recall(Laws);
    HsReads(r, x.verify);
    assert CH.HandleHelloVerify(c.hello, r).Err?;
    HsRenumbered(c.flight, c.nextRecord, x.clientHello);
  }

  lemma HelloTaken(u: Setup, x: Script, c: Client, r: Record)
    requires FlightReady(u, x, c)
    ensures var v := FlightMessage(u.suite, c, r, x.serverHello);
            v.Next? && v.client.phase == AwaitFlight && ClientGood(u, x, v.client) && v.client.failure.None?
            && v.client.recorded
  {
    hide ServerWorks, CookieWorks, Renumbered, CH.HandleServerHello, CH.RecordClientHello, ClientAt, Packed,
         Suite.Lawful, Script.Sized, WithNewHello, CH.HandleServerKeyExchange, CH.HandleServerHelloDone, AllHs,
         CH.BuildClientKeyExchange, CH.DeriveKeys, CH.BuildClientFinished, CH.VerifyServerFinished, Conclude,
         CH.HandleHelloVerify;
    assert Recall(Laws) && Recall(ClientSteps);
    if x.serverHello !in c.serverFlight {
      assert !c.recorded;
    }
  }

  lemma KeyExchangeTaken(u: Setup, x: Script, c: Client, r: Record)
    requires FlightReady(u, x, c)
    ensures var v := FlightMessage(u.suite, c, r, x.serverKeyExchange);
            v.Next? && v.client.phase == AwaitFlight && ClientGood(u, x, v.client) && v.client.failure.None?
            && (c.recorded ==> v.client.recorded && v.client.serverFlight == [x.serverHello, x.serverKeyExchange])
  {
    hide ServerWorks, CookieWorks, Renumbered, CH.HandleServerHello, CH.RecordClientHello, ClientAt, Packed,
         Suite.Lawful, Script.Sized, WithNewHello, CH.HandleServerKeyExchange, CH.HandleServerHelloDone, AllHs,
         CH.BuildClientKeyExchange, CH.DeriveKeys, CH.BuildClientFinished, CH.VerifyServerFinished, Conclude,
         CH.HandleHelloVerify;
    assert Recall(Laws) && Recall(ClientSteps);
    if x.serverKeyExchange !in c.serverFlight && c.recorded {
      assert c.serverFlight == [x.serverHello];
    }
  }

  /** ClientKeyExchange, ChangeCipherSpec and Finished, in this order. */
  ghost predicate ThirdFlight(u: Setup, x: Script, records: seq<Record>) {
    && |records| == 3 && Hs(records[0], x.clientKeyExchange) && IsCcs(records[1])
    && Sealed(u, x, S.Client, Handshake, Packed0(x.clientFinished), records[2])
  }

  lemma ThirdFlightIsClients(u: Setup, x: Script, records: seq<Record>)
    requires ThirdFlight(u, x, records)
    ensures AllFromClient(u, x, 2, records)
  {
    hide Hs, Sealed, AppData, Packed0;
  }

  /** The third client flight is built exactly while the epoch's counter lasts. */
  lemma FinishedFlightBuilt(u: Setup, x: Script, session: S.Session, next: u64)
    requires u.suite.cipher.Lawful() && x.Sized() && KeyedSession(u, x, session, S.Client)
    ensures var f := FinishedFlight(x.clientKeyExchange, x.clientFinished, session, next);
            && (f.Ok? <==> session.nextSequence < SEQUENCE_LIMIT)
            && (f.Ok? ==> ThirdFlight(u, x, f.value.0) && KeyedSession(u, x, f.value.1, S.Client)
                          && f.value.1.window == session.window)
  {
    hide Encode, Packed, Script.Sized, Protect;
    SizesOf(x);
    HsBuilt(x.clientKeyExchange, next);
    HsBuilt(x.clientFinished, next);
    var text := Packed(x.clientFinished);
    ProtectSucceedsExactly(session.cipher, Handshake, 1, session.nextSequence, session.WriteKey(), session.WriteIv(),
                           text);
    assert S.Protected(session, Handshake, text) == SealedAt(u, x, S.Client, Handshake, text, session.nextSequence);
  }

  /** Sending the third flight again changes nothing but counters, and fails
      only when the epoch's counter is used up. */
  lemma Reseals(u: Setup, x: Script, c: Client)
    requires Works(u, x) && c.v == u.v(4) && c.failure.None? && c.phase == AwaitFinished && InFinished(u, x, c)
    ensures var v := Resealed(c);
            && v.Leave? && v.client.phase == AwaitFinished && ClientGood(u, x, v.client)
            && AllFromClient(u, x, 2, v.sent)
            && (c.session.value.nextSequence < SEQUENCE_LIMIT ==> v.client.failure.None? && ThirdFlight(u, x, v.sent))
  {
    hide ServerWorks, CookieWorks, ClientWorks, ClientAt, FinishedFlight, FromClient, Curves.Curve.Lawful,
         Cipher.Lawful, ThirdFlight;
    assert Recall(Laws);
    FinishedFlightBuilt(u, x, c.session.value, c.nextRecord);
    var f := FinishedFlight(x.clientKeyExchange, x.clientFinished, c.session.value, c.nextRecord);
    if f.Ok? {
      ThirdFlightIsClients(u, x, f.value.0);
    }
  }

  lemma DoneTaken(u: Setup, x: Script, c: Client, r: Record)
    requires FlightReady(u, x, c)
    ensures var v := FlightMessage(u.suite, c, r, x.serverHelloDone);
            && ClientGood(u, x, v.client) && v.client.phase in {AwaitFlight, AwaitFinished}
            && (v.Next? ==> v.client.phase == AwaitFlight && v.client.failure.None?)
            && (v.Leave? ==> && v.client.phase == AwaitFinished && v.client.failure.None?
                             && AllFromClient(u, x, 2, v.sent) && ThirdFlight(u, x, v.sent))
            && (c.recorded && c.serverFlight == [x.serverHello, x.serverKeyExchange] ==> v.Leave?)
  {
    hide ServerWorks, CookieWorks, Renumbered, CH.HandleServerHello, CH.RecordClientHello, ClientAt, Packed,
         Suite.Lawful, Script.Sized, WithNewHello, CH.HandleServerKeyExchange, CH.HandleServerHelloDone,
         CH.BuildClientKeyExchange, CH.DeriveKeys, CH.BuildClientFinished, Resealed, FromClient,
         CH.VerifyServerFinished, CH.HandleHelloVerify, AllHs, ThirdFlight, AllFromClient;
    assert Recall(Laws) && Recall(ClientSteps);
    assert [x.serverHello, x.serverKeyExchange][1].kind == ServerKeyExchange;
    if c.recorded && HasKind(c.serverFlight, ServerKeyExchange) {
      assert c.serverFlight == [x.serverHello, x.serverKeyExchange];
      assert S.DuringHandshake(u.suite.cipher, x.keys, S.Client).nextSequence == 0;
      var session := S.DuringHandshake(u.suite.cipher, x.keys, S.Client);
      var after := c.(handshake := ClientAt(u, x, 4), serverFlight := c.serverFlight + [x.serverHelloDone]);
      var last := after.(phase := AwaitFinished, handshake := ClientAt(u, x, 6), duplicates := 0,
                         keyExchange := x.clientKeyExchange, finished := x.clientFinished,
                         sawChangeCipherSpec := false, session := Some(session));
      Reseals(u, x, last);
      assert Conclude(u.suite, after) == Resealed(last);
    }
  }

  // ---- Waiting for the server's Finished ----

  lemma SealedOpens(u: Setup, x: Script, session: S.Session, contentType: ContentType, text: bytes, r: Record)
    requires u.suite.cipher.Lawful() && KeyedSession(u, x, session, S.Client)
    requires Sealed(u, x, S.Server, contentType, text, r)
    ensures S.Opened(session, r) in {Ok(None), Ok(Some(text))}
    ensures KeyedSession(u, x, S.AfterOpen(session, r), S.Client)
    ensures S.AfterOpen(session, r).nextSequence == session.nextSequence
    ensures S.Opened(session, r) == Ok(None) ==> S.AfterOpen(session, r) == session
  {
    hide Protect, Open, Cipher.Lawful;
    var q: u64 :| SealedAt(u, x, S.Server, contentType, text, q) == Ok(r);
    OpenAfterProtect(u.suite.cipher, contentType, 1, q, x.keys.serverKey, x.keys.serverIv, text);
  }

  lemma PlainReads(m: Message)
    requires |m.body| <= 1000
    ensures Encodable(m) && PlainHandshake(Packed(m)) == Ok([m])
  {
    hide Messages, Packed;
    HsBuilt(m, 0);
    SingleRoundTrip(m, NewRecord(Handshake, 1, 0, Packed(m)).value);
  }

  ghost predicate FinishedReady(u: Setup, x: Script, c: Client) {
    Works(u, x) && ClientGood(u, x, c) && c.phase == AwaitFinished && c.failure.None?
  }

  lemma FinishedTaken(u: Setup, x: Script, c: Client, r: Record)
    requires FinishedReady(u, x, c)
    requires Sealed(u, x, S.Server, Handshake, Packed0(x.serverFinished), r)
    ensures var v := FinishedRecord(u.suite, c, r);
            && ClientGood(u, x, v.client) && Rank(v.client.phase) >= 2 && v.client.failure.None?
            && (v.Leave? ==> v.sent == [])
            && (c.sawChangeCipherSpec ==> v.Leave? && v.client.phase == Established)
  {
    hide ServerWorks, CookieWorks, Packed, Packed0, ClientAt, Script.Sized, PlainHandshake, S.Opened, S.AfterOpen,
         CH.VerifyServerFinished, Curves.Curve.Lawful, Cipher.Lawful, CH.HandleServerHello, CH.RecordClientHello,
         CH.HandleServerKeyExchange, CH.HandleServerHelloDone, CH.BuildClientKeyExchange, CH.DeriveKeys,
         CH.BuildClientFinished, InVerify, InFlight, Sealed;
    assert Recall(Laws) && Recall(ClientSteps);
    SealedIsHandshake(u, x, S.Server, Packed0(x.serverFinished), r);
    SizesOf(x);
    PlainReads(x.serverFinished);
    PackedAsIs(x.serverFinished);
    SealedOpens(u, x, c.session.value, Handshake, Packed0(x.serverFinished), r);
    FreshOpens(c.session.value, r);
  }

  lemma SealedIsHandshake(u: Setup, x: Script, role: S.Role, text: bytes, r: Record)
    requires Sealed(u, x, role, Handshake, text, r)
    ensures r.header.epoch == 1 && r.header.contentType == Handshake
  {
    hide Protect;
  }

  /** An empty window takes nothing for a replay. */
  lemma FreshOpens(session: S.Session, r: Record)
    requires session.window == Replay.Fresh
    ensures S.Opened(session, r) != Ok(None)
  {
    hide Open;
  }

  lemma PackedAsIs(m: Message)
    requires Encodable(m)
    ensures Packed0(m) == Packed(m)
  {
  }

  /** Everything else the server sends leaves the third wait as it is. */
  lemma OthersIgnored(u: Setup, x: Script, c: Client, r: Record)
    requires FinishedReady(u, x, c)
    requires Hs(r, x.verify) || ServerFlightRecord(x, r) || IsCcs(r) || AppData(u, x, S.Server, r)
    ensures var v := FinishedRecord(u.suite, c, r);
            ClientGood(u, x, v.client) && v.client.phase == AwaitFinished && v.Next? && v.client.failure.None?
            && (IsCcs(r) ==> v.client.sawChangeCipherSpec)
  {
    hide ServerWorks, CookieWorks, ClientWorks, Packed, ClientAt, Suite.Lawful, Script.Sized, Protect;
  }

  // ---- Any record, any datagram ----

  /** What one record of the server does to the client. */
  lemma OneRecordGood(u: Setup, x: Script, server: nat, c: Client, r: Record)
    requires Works(u, x) && ClientGood(u, x, c) && c.failure.None? && c.phase != Established
    requires Compatible(Rank(c.phase), server) && FromServer(u, x, server, r)
    ensures Ready(u.suite, c)
    ensures var v := OneRecord(u.suite, c, r);
            GoodStep(u, x, server, c, v.client, if v.Leave? then v.sent else [])
            && (v.Next? ==> v.client.failure.None?)
  {
    hide ServerWorks, CookieWorks, ClientWorks, Packed, Packed0, ClientAt, Suite.Lawful, Script.Sized, VerifyRecord,
         FlightMessage, FinishedRecord, Messages, Handled, Sealed, AppData, InVerify, InFlight;
    match c.phase
    case AwaitVerify => VerifyHandled(u, x, c, r);
    case AwaitFlight =>
      FlightRecordGood(u, x, server, c, r);
    case AwaitFinished =>
      if Sealed(u, x, S.Server, Handshake, Packed0(x.serverFinished), r) && server == 2 {
        FinishedTaken(u, x, c, r);
      } else {
        OthersIgnored(u, x, c, r);
      }
  }

  lemma OneFlightMessage(s: Suite, c: Client, r: Record, m: Message)
    requires s.curve.order > 0
    ensures FlightMessages(s, c, r, [m]) == FlightMessage(s, c, r, m)
  {
    hide FlightMessage;
    var v := FlightMessage(s, c, r, m);
    assert [m][1..] == [];
    assert v.Next? ==> FlightMessages(s, v.client, r, []) == v;
  }

  lemma FlightRecordGood(u: Setup, x: Script, server: nat, c: Client, r: Record)
    requires FlightReady(u, x, c)
    requires Compatible(1, server) && FromServer(u, x, server, r)
    ensures var v := FlightRecord(u.suite, c, r);
            GoodStep(u, x, server, c, v.client, if v.Leave? then v.sent else [])
            && (v.Next? ==> v.client.failure.None?)
  {
    hide ServerWorks, CookieWorks, ClientWorks, Packed, Packed0, ClientAt, Suite.Lawful, Script.Sized, FlightMessage,
         FlightMessages, Messages, Handled, Sealed, AppData, InFlight, InFinished;
    assert Recall(Laws);
    assert Hs(r, x.verify) || ServerFlightRecord(x, r);
    if Hs(r, x.verify) {
      HsReads(r, x.verify);
      OneFlightMessage(u.suite, c, r, x.verify);
      VerifyRepeated(u, x, c, r);
    } else if Hs(r, x.serverHello) {
      HsReads(r, x.serverHello);
      OneFlightMessage(u.suite, c, r, x.serverHello);
      HelloTaken(u, x, c, r);
    } else if Hs(r, x.serverKeyExchange) {
      HsReads(r, x.serverKeyExchange);
      OneFlightMessage(u.suite, c, r, x.serverKeyExchange);
      KeyExchangeTaken(u, x, c, r);
    } else {
      HsReads(r, x.serverHelloDone);
      OneFlightMessage(u.suite, c, r, x.serverHelloDone);
      DoneTaken(u, x, c, r);
    }
  }

  ghost predicate Between(u: Setup, x: Script, server: nat, c: Client) {
    Works(u, x) && ClientGood(u, x, c) && Compatible(Rank(c.phase), server)
  }

  lemma GoodIsReady(u: Setup, x: Script, c: Client)
    requires Works(u, x) && ClientGood(u, x, c)
    ensures Ready(u.suite, c)
  {
    hide ServerWorks, CookieWorks, ClientWorks, Suite.Lawful;
  }

  lemma {:induction false} RecordsGood(u: Setup, x: Script, server: nat, c: Client, records: seq<Record>)
    requires Between(u, x, server, c) && c.failure.None? && c.phase != Established
    requires AllFromServer(u, x, server, records)
    ensures Ready(u.suite, c)
    ensures var r := OnRecords(u.suite, c, records); GoodStep(u, x, server, c, r.0, r.1)
    decreases |records|
  {
    hide Works, ClientGood, OneRecord, FromServer, FromClient;
    WorksFits(u, x);
    GoodIsReady(u, x, c);
    if records != [] {
      OneRecordGood(u, x, server, c, records[0]);
      PhaseStays(u.suite, c, records[0]);
      var v := OneRecord(u.suite, c, records[0]);
      if v.Next? {
        RecordsGood(u, x, server, v.client, records[1..]);
      }
    }
  }

  lemma WorksFits(u: Setup, x: Script)
    requires Works(u, x)
    ensures Fits(u, x)
  {
  }

  lemma RepeatAnswered(u: Setup, x: Script, server: nat, c: Client, records: seq<Record>)
    requires Between(u, x, server, c) && AllFromServer(u, x, server, records)
    requires c.failure.None? && c.phase == AwaitFinished && Fits(u, x) && Ready(u.suite, c)
    ensures var v := Resealed(c.(duplicates := c.duplicates + 1));
            && GoodStep(u, x, server, c, v.client, v.sent) && Ready(u.suite, v.client)
            && (v.client.failure.None? ==>
                  var r := OnRecords(u.suite, v.client, records); GoodStep(u, x, server, c, r.0, v.sent + r.1))
  {
    hide Works, OnRecords, FromServer, FromClient, Resealed;
    var d := c.(duplicates := c.duplicates + 1);
    Reseals(u, x, d);
    var v := Resealed(d);
    GoodIsReady(u, x, v.client);
    if v.client.failure.None? {
      RecordsGood(u, x, server, v.client, records);
      FromClientGrows(u, x, 2, Rank(OnRecords(u.suite, v.client, records).0.phase), v.sent);
    }
  }

  /** Any datagram of records the server has sent. */
  lemma DatagramGood(u: Setup, x: Script, server: nat, c: Client, records: seq<Record>)
    requires Between(u, x, server, c) && AllFromServer(u, x, server, records)
    ensures Fits(u, x) && Ready(u.suite, c)
    ensures var r := OnDatagram(u.suite, c, records); GoodStep(u, x, server, c, r.0, r.1)
  {
    hide Works, OnRecords, FromServer, FromClient, Resealed, RepeatsFinalServerMessage, ClientGood;
    WorksFits(u, x);
    GoodIsReady(u, x, c);
    if c.failure.None? && c.phase != Established {
      if c.phase == AwaitFinished {
        RepeatAnswered(u, x, server, c, records);
      }
      RecordsGood(u, x, server, c, records);
    }
  }

  lemma FromClientGrows(u: Setup, x: Script, rank: nat, higher: nat, records: seq<Record>)
    requires rank <= higher && AllFromClient(u, x, rank, records)
    ensures AllFromClient(u, x, higher, records)
  {
    hide Hs, Sealed, AppData, Packed0;
  }

  lemma TimerGood(u: Setup, x: Script, server: nat, c: Client)
    requires Between(u, x, server, c)
    ensures Fits(u, x) && Ready(u.suite, c)
    ensures var r := OnTimeout(c); GoodStep(u, x, server, c, r.0, r.1)
  {
    hide Works, Renumbered, Resealed, Handled;
    WorksFits(u, x);
    GoodIsReady(u, x, c);
    if c.failure.None? {
      match c.phase
      case AwaitVerify => HsRenumbered(c.flight, c.nextRecord, x.firstHello);
      case AwaitFlight =>
        HsRenumbered(c.flight, c.nextRecord, x.clientHello);
        HandledToo(u, x, c, Resent(c).client);
      case AwaitFinished => Reseals(u, x, c);
      case Established =>
    }
  }

  lemma HandledToo(u: Setup, x: Script, c: Client, d: Client)
    requires Fits(u, x) && Handled(u, x, c)
    requires d.handshake == c.handshake && d.recorded == c.recorded && d.serverFlight == c.serverFlight
    ensures Handled(u, x, d)
  {
    hide ClientAt;
  }
}
