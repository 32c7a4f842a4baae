/** What the honest server does with the records an honest client sends. */
module HandshakeServer {
  import opened Wire
  import opened Records
  import opened Framing
  import opened Flights
  import opened Suites
  import opened Protection
  import opened HandshakeScript
  import opened HandshakeClient
  import opened ServerDriver
  import CH = ClientHandshakes
  import SH = ServerHandshakes
  import Hello
  import Curves
  import S = Session

  function ServerRank(p: Phase): nat {
    match p
    case AwaitHello => 0
    case AwaitClientFlight => 1
    case Established => 2
  }

  /** ServerHello, ServerKeyExchange and ServerHelloDone, in this order. */
  ghost predicate WholeFlight(x: Script, records: seq<Record>) {
    && |records| == 3
    && Hs(records[0], x.serverHello) && Hs(records[1], x.serverKeyExchange) && Hs(records[2], x.serverHelloDone)
  }

  /** Before or after the ClientKeyExchange was handled. */
  ghost predicate Exchanged(u: Setup, x: Script, v: Server)
    requires Fits(u, x)
  {
    || (v.keyExchange == None && v.keys == None && v.handshake == ServerAt(u, x, 4))
    || (v.keyExchange == Some(x.clientKeyExchange) && v.keys == Some(x.keys) && v.handshake == ServerAt(u, x, 5))
  }

  ghost predicate InExchange(u: Setup, x: Script, v: Server)
    requires Fits(u, x)
  {
    Exchanged(u, x, v) && v.clientHello == x.clientHello && WholeFlight(x, v.flight)
  }

  ghost predicate InEstablished(u: Setup, x: Script, v: Server)
    requires Fits(u, x)
  {
    && v.handshake == ServerAt(u, x, 7) && v.session.Some? && KeyedSession(u, x, v.session.value, S.Server)
    && (v.finished == [] || v.finished == Packed0(x.serverFinished))
  }

  ghost predicate ServerGood(u: Setup, x: Script, v: Server)
    requires Fits(u, x)
  {
    && v.v == u.v(5) && v.cookieKey == u.cookieKey && OnlyDeadlineOrCounter(v.failure, v.session)
    && match v.phase
       case AwaitHello =>
         v.handshake == ServerAt(u, x, 0) && v.keyExchange == None && v.keys == None
       case AwaitClientFlight => InExchange(u, x, v)
       case Established => InEstablished(u, x, v)
  }

  ghost predicate NoneUsable(records: seq<Record>) {
    forall i :: 0 <= i < |records| ==> !S.Usable(records[i])
  }

  /** A server whose Finished the client still waits for can repeat it. */
  ghost predicate Awaited(x: Script, client: nat, v: Server) {
    client == 2 && v.phase == Established ==>
      && v.session.Some? && v.finished == Packed0(x.serverFinished) && NoneUsable(v.session.value.unread)
  }

  /** The mirror image of the client's `GoodStep`. */
  ghost predicate GoodServerStep(u: Setup, x: Script, client: nat, v: Server, next: Server, sent: seq<Record>)
    requires Fits(u, x)
  {
    && ServerGood(u, x, next) && ServerRank(next.phase) >= ServerRank(v.phase)
    && Compatible(client, ServerRank(next.phase)) && AllFromServer(u, x, ServerRank(next.phase), sent)
    && Awaited(x, client, next)
  }

  ghost predicate BetweenServer(u: Setup, x: Script, client: nat, v: Server) {
    Works(u, x) && ServerGood(u, x, v) && Compatible(client, ServerRank(v.phase)) && Awaited(x, client, v)
  }

  lemma WholeFlightIsServers(u: Setup, x: Script, records: seq<Record>)
    requires WholeFlight(x, records)
    ensures AllFromServer(u, x, 1, records)
  {
    hide Hs, Packed0, Sealed, AppData;
  }

  // ---- The cookie exchange ----

  lemma FirstHelloAnswered(u: Setup, x: Script, v: Server, r: Record)
    requires Works(u, x) && ServerGood(u, x, v) && v.phase == AwaitHello && Hs(r, x.firstHello)
    ensures var w := HelloMessage(u.suite, v, r, x.firstHello);
            w.Next? && w.server == v && |w.sent| == 1 && Hs(w.sent[0], x.verify)
  {
    hide ClientWorks, ServerWorks, Hello.DecodeClientHello, Hello.EncodeHelloVerify, Hello.DecodeHelloVerify, Packed,
         Encode, CH.NextClientHello, ServerAt, Curves.Curve.Lawful, Cipher.Lawful, Script.Sized, Accept;
    assert Recall(Laws) && Recall(CookieSteps);
    SizesOf(x);
    HsBuilt(x.verify, r.header.sequence);
  }

  lemma FlightBuilt(x: Script, next: u64)
    requires x.Sized()
    ensures var f := FlightOf([x.serverHello, x.serverKeyExchange, x.serverHelloDone], next);
            f.Ok? && WholeFlight(x, f.value.0)
  {
    hide Packed, Encode, Script.Sized;
    SizesOf(x);
    var a, b, c := x.serverHello, x.serverKeyExchange, x.serverHelloDone;
    var n1, n2 := WrappingIncrement(next), WrappingIncrement(WrappingIncrement(next));
    HsBuilt(a, next);
    HsBuilt(b, n1);
    HsBuilt(c, n2);
    assert [a, b, c][1..] == [b, c] && [b, c][1..] == [c] && [c][1..] == [];
    assert FlightOf([], WrappingIncrement(n2)) == Ok(([], WrappingIncrement(n2)));
    assert FlightOf([c], n2).Ok?;
    assert FlightOf([b, c], n1).Ok?;
  }

  lemma CookieAccepted(u: Setup, x: Script, v: Server, r: Record)
    requires Works(u, x) && ServerGood(u, x, v) && v.phase == AwaitHello && v.failure.None?
    ensures var w := HelloMessage(u.suite, v, r, x.clientHello);
            && w.Leave? && w.server.phase == AwaitClientFlight && w.server.failure.None?
            && ServerGood(u, x, w.server) && WholeFlight(x, w.sent)
  {
    hide ClientWorks, Hello.DecodeClientHello, Hello.EncodeHelloVerify, Hello.DecodeHelloVerify, Packed, FlightOf,
         CH.NextClientHello, ServerAt, Suite.Lawful, Script.Sized, Answer, SH.HandleClientKeyExchange, SH.DeriveKeys,
         SH.VerifyClientFinished, SH.BuildServerFinished, ServerFlightRecord;
    assert Recall(Laws) && Recall(CookieSteps) && Recall(ServerSteps);
    FlightBuilt(x, r.header.sequence);
  }

  lemma OneHelloMessage(s: Suite, v: Server, r: Record, m: Message)
    requires s.curve.order > 0
    ensures HelloMessages(s, v, r, [m]) == HelloMessage(s, v, r, m)
  {
    hide HelloMessage;
    var w := HelloMessage(s, v, r, m);
    assert [m][1..] == [];
    assert w.Next? ==> HelloMessages(s, w.server, r, []) == Next(w.server, []);
    assert w.sent + [] == w.sent;
  }

  lemma HelloRecordGood(u: Setup, x: Script, client: nat, v: Server, r: Record)
    requires BetweenServer(u, x, client, v) && v.phase == AwaitHello && v.failure.None?
    requires FromClient(u, x, client, r)
    ensures var w := HelloRecord(u.suite, v, r);
            && GoodServerStep(u, x, client, v, w.server, w.sent) && (w.Next? ==> w.server == v)
  {
    hide Works, Packed, Packed0, Messages, HelloMessage, HelloMessages, ServerGood, Sealed, AppData;
    assert Recall(Laws);
    WorksFits(u, x);
    assert Hs(r, x.firstHello) || Hs(r, x.clientHello);
    if Hs(r, x.firstHello) {
      HsReads(r, x.firstHello);
      OneHelloMessage(u.suite, v, r, x.firstHello);
      FirstHelloAnswered(u, x, v, r);
    } else {
      HsReads(r, x.clientHello);
      OneHelloMessage(u.suite, v, r, x.clientHello);
      CookieAccepted(u, x, v, r);
      WholeFlightIsServers(u, x, HelloMessage(u.suite, v, r, x.clientHello).sent);
    }
  }

  // ---- The client's flight ----

  ghost predicate ExchangeReady(u: Setup, x: Script, v: Server) {
    Works(u, x) && ServerGood(u, x, v) && v.phase == AwaitClientFlight && v.failure.None?
  }

  lemma HelloIgnored(u: Setup, x: Script, v: Server, m: Message)
    requires u.suite.curve.order > 0 && m.kind == ClientHello
    ensures KeyExchangeMessage(u.suite, v, m) == Next(v, [])
  {
  }

  lemma KeyExchangeHandled(u: Setup, x: Script, v: Server)
    requires ExchangeReady(u, x, v)
    ensures var w := KeyExchangeMessage(u.suite, v, x.clientKeyExchange);
            && w.Next? && w.sent == [] && w.server.phase == AwaitClientFlight && w.server.failure.None?
            && ServerGood(u, x, w.server) && w.server.keys.Some?
  {
    hide ClientWorks, CookieWorks, Packed, ServerAt, Suite.Lawful, Script.Sized, Answer, SH.HandleClientKeyExchange,
         SH.DeriveKeys, SH.VerifyClientFinished, SH.BuildServerFinished, WholeFlight;
    assert Recall(Laws) && Recall(ServerSteps);
  }

  lemma OneExchangeMessage(s: Suite, v: Server, m: Message)
    requires s.curve.order > 0
    ensures var w := KeyExchangeMessage(s, v, m); w.sent == [] ==> KeyExchangeMessages(s, v, [m]) == w
  {
    hide KeyExchangeMessage;
    var w := KeyExchangeMessage(s, v, m);
    assert [m][1..] == [];
    assert w.Next? ==> KeyExchangeMessages(s, w.server, []) == Next(w.server, []);
  }

  lemma SealedOpensToo(u: Setup, x: Script, text: bytes, r: Record)
    requires u.suite.cipher.Lawful() && Sealed(u, x, S.Client, Handshake, text, r)
    ensures r.header.epoch == 1 && r.header.contentType == Handshake
    ensures Open(u.suite.cipher, r, x.keys.clientKey, x.keys.clientIv) == Ok(text)
  {
    hide Protect, Open, Cipher.Lawful;
    var q: u64 :| SealedAt(u, x, S.Client, Handshake, text, q) == Ok(r);
    OpenAfterProtect(u.suite.cipher, Handshake, 1, q, x.keys.clientKey, x.keys.clientIv, text);
  }

  lemma PlainFinished(m: Message)
    requires |m.body| <= 1000 && m.kind == Finished
    ensures Encodable(m)
    ensures var r := NewRecord(Handshake, 1, 0, Packed(m)); r.Ok? && SingleMessage(r.value, Finished) == Ok(m)
  {
    hide Packed, SingleMessage, Messages;
    HsBuilt(m, 0);
    SingleRoundTrip(m, NewRecord(Handshake, 1, 0, Packed(m)).value);
  }

  /** ChangeCipherSpec and Finished, in this order. */
  ghost predicate LastFlight(u: Setup, x: Script, records: seq<Record>) {
    && |records| == 2 && IsCcs(records[0])
    && Sealed(u, x, S.Server, Handshake, Packed0(x.serverFinished), records[1])
  }

  lemma LastFlightIsServers(u: Setup, x: Script, records: seq<Record>)
    requires LastFlight(u, x, records)
    ensures AllFromServer(u, x, 2, records)
  {
    hide Hs, Sealed, AppData, Packed0;
  }

  /** The server's last flight is built exactly while the counter lasts. */
  lemma LastFlightBuilt(u: Setup, x: Script, session: S.Session, next: u64)
    requires u.suite.cipher.Lawful() && x.Sized() && KeyedSession(u, x, session, S.Server)
    ensures var f := FinishedFlight(session, Packed0(x.serverFinished), next);
            && (f.Ok? <==> session.nextSequence < SEQUENCE_LIMIT)
            && (f.Ok? ==> LastFlight(u, x, f.value.0) && KeyedSession(u, x, f.value.1, S.Server)
                          && f.value.1.unread == session.unread)
  {
    hide Packed, Script.Sized, Protect;
    SizesOf(x);
    HsBuilt(x.serverFinished, next);
    PackedAsIs(x.serverFinished);
    var text := Packed(x.serverFinished);
    ProtectSucceedsExactly(session.cipher, Handshake, 1, session.nextSequence, session.WriteKey(), session.WriteIv(),
                           text);
    assert S.Protected(session, Handshake, text) == SealedAt(u, x, S.Server, Handshake, text, session.nextSequence);
  }

  lemma FinishedAnswered(u: Setup, x: Script, v: Server)
    requires ExchangeReady(u, x, v) && v.keys.Some?
    ensures var w := ClientFinished(u.suite, v, x.keys, Packed0(x.clientFinished));
            && w.Leave? && w.server.phase == Established && w.server.failure.None?
            && ServerGood(u, x, w.server) && LastFlight(u, x, w.sent) && Awaited(x, 2, w.server)
  {
    hide ClientWorks, CookieWorks, Packed, Packed0, ServerAt, Curves.Curve.Lawful, Cipher.Lawful, Script.Sized, Answer,
         SH.HandleClientKeyExchange, SH.DeriveKeys, SH.VerifyClientFinished, SH.BuildServerFinished, WholeFlight,
         FinishedFlight, LastFlight, SingleMessage, Encode;
    assert Recall(Laws) && Recall(ServerSteps);
    SizesOf(x);
    PlainFinished(x.clientFinished);
    PackedAsIs(x.clientFinished);
    PackedAsIs(x.serverFinished);
    HsBuilt(x.serverFinished, 0);
    LastFlightBuilt(u, x, S.DuringHandshake(u.suite.cipher, x.keys, S.Server), v.nextRecord);
  }

  lemma SealedRecordGood(u: Setup, x: Script, v: Server, r: Record)
    requires ExchangeReady(u, x, v)
    requires Sealed(u, x, S.Client, Handshake, Packed0(x.clientFinished), r)
    ensures var w := ClientRecord(u.suite, v, r);
            && ServerGood(u, x, w.server) && w.server.failure.None?
            && (w.Next? ==> w == Next(v, []))
            && (w.Leave? ==> w.server.phase == Established && AllFromServer(u, x, 2, w.sent) && Awaited(x, 2, w.server))
            && (v.sawChangeCipherSpec && v.keys.Some? ==> w.Leave? && LastFlight(u, x, w.sent))
  {
    hide ClientWorks, CookieWorks, ServerWorks, Packed, Packed0, ServerAt, Curves.Curve.Lawful, Cipher.Lawful,
         Script.Sized, ClientFinished, FromServer, Open, Sealed, WholeFlight, LastFlight;
    assert Recall(Laws);
    SealedOpensToo(u, x, Packed0(x.clientFinished), r);
    if v.sawChangeCipherSpec && v.keys.Some? {
      FinishedAnswered(u, x, v);
      LastFlightIsServers(u, x, ClientFinished(u.suite, v, x.keys, Packed0(x.clientFinished)).sent);
    }
  }

  lemma PlainRecordGood(u: Setup, x: Script, v: Server, r: Record)
    requires ExchangeReady(u, x, v)
    requires Hs(r, x.firstHello) || Hs(r, x.clientHello) || Hs(r, x.clientKeyExchange) || IsCcs(r)
    ensures var w := ClientRecord(u.suite, v, r);
            && w.Next? && w.sent == [] && w.server.phase == AwaitClientFlight && w.server.failure.None?
            && ServerGood(u, x, w.server)
            && (Hs(r, x.clientKeyExchange) ==> w.server.keys.Some?)
            && (IsCcs(r) ==> w.server == v.(sawChangeCipherSpec := true))
  {
    hide ClientWorks, CookieWorks, ServerWorks, Packed, ServerAt, Suite.Lawful, Script.Sized, Messages,
         KeyExchangeMessage, KeyExchangeMessages, WholeFlight;
    assert Recall(Laws);
    if Hs(r, x.clientKeyExchange) {
      HsReads(r, x.clientKeyExchange);
      KeyExchangeHandled(u, x, v);
      OneExchangeMessage(u.suite, v, x.clientKeyExchange);
    } else if Hs(r, x.firstHello) {
      HsReads(r, x.firstHello);
      HelloIgnored(u, x, v, x.firstHello);
      OneExchangeMessage(u.suite, v, x.firstHello);
    } else if Hs(r, x.clientHello) {
      HsReads(r, x.clientHello);
      HelloIgnored(u, x, v, x.clientHello);
      OneExchangeMessage(u.suite, v, x.clientHello);
    }
  }

  // ---- Any record, any datagram ----

  lemma ServerRecordGood(u: Setup, x: Script, client: nat, v: Server, r: Record)
    requires BetweenServer(u, x, client, v) && v.phase != Established && v.failure.None?
    requires FromClient(u, x, client, r)
    ensures Fits(u, x)
    ensures var w := OneRecord(u.suite, v, r);
            && GoodServerStep(u, x, client, v, w.server, w.sent)
            && (w.Next? ==> w.server.phase == v.phase && w.server.failure.None?)
  {
    hide Works, Packed, Packed0, HelloRecord, ClientRecord, ServerGood, Sealed, AppData, Hs;
    WorksFits(u, x);
    if v.phase == AwaitHello {
      HelloRecordGood(u, x, client, v, r);
    } else if Sealed(u, x, S.Client, Handshake, Packed0(x.clientFinished), r) && client >= 2 {
      SealedRecordGood(u, x, v, r);
    } else {
      PlainRecordGood(u, x, v, r);
    }
  }

  lemma FromServerGrows(u: Setup, x: Script, rank: nat, higher: nat, records: seq<Record>)
    requires rank <= higher && AllFromServer(u, x, rank, records)
    ensures AllFromServer(u, x, higher, records)
  {
    hide Hs, Sealed, AppData, Packed0, ServerFlightRecord;
  }

  lemma {:induction false} ServerRecordsGood(u: Setup, x: Script, client: nat, v: Server, records: seq<Record>)
    requires BetweenServer(u, x, client, v) && v.phase != Established && v.failure.None?
    requires AllFromClient(u, x, client, records)
    ensures Fits(u, x)
    ensures var r := OnRecords(u.suite, v, records); GoodServerStep(u, x, client, v, r.0, r.1)
    decreases |records|
  {
    hide Works, ServerGood, OneRecord, FromServer, FromClient;
    WorksFits(u, x);
    if records != [] {
      ServerRecordGood(u, x, client, v, records[0]);
      var w := OneRecord(u.suite, v, records[0]);
      if w.Next? {
        ServerRecordsGood(u, x, client, w.server, records[1..]);
        var r := OnRecords(u.suite, w.server, records[1..]);
        FromServerGrows(u, x, ServerRank(v.phase), ServerRank(r.0.phase), w.sent);
      }
    }
  }

  lemma FlightRenumbered(x: Script, flight: seq<Record>, next: u64)
    requires WholeFlight(x, flight)
    ensures WholeFlight(x, Renumbered(flight, next).0)
  {
    hide Renumbered, Packed;
    RenumberedFrame(flight, next);
  }

  lemma ServerResends(u: Setup, x: Script, client: nat, v: Server)
    requires BetweenServer(u, x, client, v) && v.phase == AwaitClientFlight
    ensures Fits(u, x)
    ensures var r := Resent(v); GoodServerStep(u, x, client, v, r.0, r.1)
  {
    hide Works, Renumbered, ServerAt, Hs, FromServer;
    WorksFits(u, x);
    FlightRenumbered(x, v.flight, v.nextRecord);
    WholeFlightIsServers(u, x, Renumbered(v.flight, v.nextRecord).0);
  }

  /** Reading never touches the keys or the send counter. */
  lemma {:induction false} OpenNextKeeps(session: S.Session)
    ensures var after := S.OpenNext(session).0;
            && after.cipher == session.cipher && after.keys == session.keys && after.role == session.role
            && after.nextSequence == session.nextSequence
    decreases |session.unread|
  {
    hide S.Opened, S.Usable;
    if session.unread != [] {
      OpenNextKeeps(session.(unread := session.unread[1..]));
    }
  }

  lemma {:induction false} NothingToRead(session: S.Session)
    requires NoneUsable(session.unread)
    ensures S.OpenNext(session).1.None? && S.OpenNext(session).0.unread == []
    decreases |session.unread|
  {
    hide S.Usable;
    if session.unread != [] {
      NothingToRead(session.(unread := session.unread[1..]));
    }
  }

  /** What a read in progress opens. */
  lemma ReadOnGood(u: Setup, x: Script, client: nat, v: Server)
    requires BetweenServer(u, x, client, v) && v.phase == Established
    ensures Fits(u, x) && v.session.Some? && BetweenServer(u, x, client, ReadOn(v))
  {
    hide Works, S.OpenNext, ServerAt, Packed0;
    WorksFits(u, x);
    OpenNextKeeps(v.session.value);
    if client == 2 {
      NothingToRead(v.session.value);
    }
  }

  lemma QueuedGood(u: Setup, x: Script, client: nat, v: Server, records: seq<Record>)
    requires BetweenServer(u, x, client, v) && v.phase == Established && AllFromClient(u, x, client, records)
    ensures Fits(u, x) && v.session.Some? && BetweenServer(u, x, client, Queued(v, records))
  {
    hide Works, ServerAt, Packed0, S.Usable;
    WorksFits(u, x);
    if client == 2 {
      HandshakeNotUsable(u, x, records);
      assert NoneUsable(v.session.value.unread + records);
    }
  }

  /** An established server that reads answers a repeated client flight with its
      own last flight, queues the records and reads on. */
  lemma EstablishedGood(u: Setup, x: Script, client: nat, v: Server, records: seq<Record>)
    requires BetweenServer(u, x, client, v) && v.phase == Established && v.failure.None?
    requires AllFromClient(u, x, client, records)
    ensures Fits(u, x) && Ready(u.suite, v)
    ensures var r := OnDatagram(u.suite, v, records); GoodServerStep(u, x, client, v, r.0, r.1)
  {
    hide ClientWorks, CookieWorks, ServerWorks, Script.Sized, Curves.Curve.Lawful, Cipher.Lawful, FromServer, ServerAt,
         FinishedFlight, IsClientFinishedFlight, Packed0, Exchanged, WholeFlight, Flights.Carries, OnRecords, Resent,
         Kinds, LastFlight, ReadOn, Queued;
    assert Recall(Laws);
    QueuedGood(u, x, client, v, records);
    ReadOnGood(u, x, client, Queued(v, records));
    if v.finished != [] {
      LastFlightBuilt(u, x, v.session.value, v.nextRecord);
      var f := FinishedFlight(v.session.value, v.finished, v.nextRecord);
      if f.Ok? {
        LastFlightIsServers(u, x, f.value.0);
        var answered := v.(session := Some(f.value.1), nextRecord := f.value.2, duplicates := v.duplicates + 1);
        QueuedGood(u, x, client, answered, records);
        ReadOnGood(u, x, client, Queued(answered, records));
      }
    }
  }

  /** Nothing a client sends before it is done can be read as data. */
  lemma HandshakeNotUsable(u: Setup, x: Script, records: seq<Record>)
    requires AllFromClient(u, x, 2, records)
    ensures NoneUsable(records)
  {
    hide Packed, Protect;
  }

  /** Any datagram of records the client has sent. */
  lemma ServerDatagramGood(u: Setup, x: Script, client: nat, v: Server, records: seq<Record>)
    requires BetweenServer(u, x, client, v) && AllFromClient(u, x, client, records)
    ensures Fits(u, x) && Ready(u.suite, v)
    ensures var r := OnDatagram(u.suite, v, records); GoodServerStep(u, x, client, v, r.0, r.1)
  {
    hide Works, OnRecords, FromServer, FromClient, Flights.Carries, Resent, FinishedFlight, InEstablished, WholeFlight,
         IsClientFinishedFlight, ServerAt;
    WorksFits(u, x);
    EstablishedIsReady(u, x, v);
    if v.failure.None? {
      match v.phase
      case AwaitHello => ServerRecordsGood(u, x, client, v, records);
      case AwaitClientFlight =>
        ServerRecordsGood(u, x, client, v, records);
        ServerResends(u, x, client, v.(duplicates := v.duplicates + 1));
      case Established => EstablishedGood(u, x, client, v, records);
    }
  }

  lemma EstablishedIsReady(u: Setup, x: Script, v: Server)
    requires Fits(u, x) && ServerGood(u, x, v)
    ensures Ready(u.suite, v)
  {
  }

  lemma ServerTimerGood(u: Setup, x: Script, client: nat, v: Server)
    requires BetweenServer(u, x, client, v)
    ensures Fits(u, x)
    ensures var r := OnTimeout(v); GoodServerStep(u, x, client, v, r.0, r.1)
  {
    hide Works, FromServer, Resent, ServerGood;
    WorksFits(u, x);
    if v.phase == AwaitClientFlight {
      ServerResends(u, x, client, v);
    }
  }

  lemma ReadGood(u: Setup, x: Script, client: nat, v: Server)
    requires BetweenServer(u, x, client, v)
    ensures Fits(u, x) && Ready(u.suite, v) && GoodServerStep(u, x, client, v, OnRead(v), [])
  {
    hide Works, FromServer, ReadOn, ServerAt, Packed0;
    WorksFits(u, x);
    if v.phase == Established && v.failure.None? {
      ReadOnGood(u, x, client, v.(duplicates := 0, reading := true));
    }
  }
}
