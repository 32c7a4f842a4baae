/** The client and the server over a network that loses, duplicates, reorders
    and regroups what they send: every record that was ever sent may be
    delivered at any time, any number of times, in any datagram. */
module HandshakeSystem {
  import opened Wire
  import opened Records
  import opened Framing
  import opened Suites
  import opened HandshakeScript
  import opened HandshakeClient
  import opened HandshakeServer
  import CD = ClientDriver
  import SD = ServerDriver
  import CH = ClientHandshakes
  import SH = ServerHandshakes
  import Hello
  import EcJpake
  import EcJpakeCodec
  import Protection
  import S = Session

  datatype System = System(client: CD.Client, server: SD.Server, toServer: set<Record>, toClient: set<Record>)

  datatype Event =
    | ClientReceives(records: seq<Record>)
    | ServerReceives(records: seq<Record>)
    | ClientTimer
    | ServerTimer
    | ServerReads
    | ClientSends(text: bytes)
    | ServerSends(text: bytes)
    | ClientDeadline
    | ServerDeadline

  /** Records as the peer will parse them. */
  function Wired(sent: seq<Record>): set<Record> {
    set r | r in sent :: OnWire(r)
  }

  // ---- The start ----

  ghost function NewClient(u: Setup): Result<CD.Client>
    requires u.suite.curve.order > 0
  {
    var kkpp :- EcJpakeCodec.EncodeKkpp(u.suite.curve, u.ClientOne());
    var none := Message(ClientHello, 0, []);
    CD.WithNewHello(CD.Client(
      CD.AwaitVerify, None, CH.ClientHandshake(u.client, u.ClientOne(), None, None, u.clientRandom, None, []),
      CH.HelloState(u.clientRandom, [], kkpp, 0, None), u.v(4), 0, [], none, false, [], 0, none, none, None, false))
  }

  ghost function NewServer(u: Setup): SD.Server
    requires u.suite.curve.order > 0
  {
    SD.Server(
      SD.AwaitHello, None, SH.ServerHandshake(u.server, u.ServerOne(), None, None, u.serverRandom, None, []),
      u.cookieKey, u.v(5), Message(ClientHello, 0, []), 0, [], 0, false, None, None, None, [], false)
  }

  ghost function Start(u: Setup): System
    requires u.suite.curve.order > 0 && NewClient(u).Ok?
  {
    var client := NewClient(u).value;
    System(client, NewServer(u), Wired(client.flight), {})
  }

  // ---- Steps ----

  ghost predicate Runs(u: Setup, s: System) {
    CD.Ready(u.suite, s.client) && SD.Ready(u.suite, s.server)
    && (s.client.phase == CD.Established ==> s.client.session.Some?)
  }

  /** A delivery of records that were never sent does not happen. */
  ghost function Step(u: Setup, s: System, e: Event): System
    requires Runs(u, s)
  {
    match e
    case ClientReceives(records) =>
      if exists r :: r in records && r !in s.toClient then s else
      var (client, sent) := CD.OnDatagram(u.suite, s.client, records);
      s.(client := client, toServer := s.toServer + Wired(sent))
    case ServerReceives(records) =>
      if exists r :: r in records && r !in s.toServer then s else
      var (server, sent) := SD.OnDatagram(u.suite, s.server, records);
      s.(server := server, toClient := s.toClient + Wired(sent))
    case ClientTimer =>
      var (client, sent) := CD.OnTimeout(s.client);
      s.(client := client, toServer := s.toServer + Wired(sent))
    case ServerTimer =>
      var (server, sent) := SD.OnTimeout(s.server);
      s.(server := server, toClient := s.toClient + Wired(sent))
    case ServerReads => s.(server := SD.OnRead(s.server))
    case ClientSends(text) =>
      if s.client.failure.Some? || s.client.phase != CD.Established then s else
      var session := s.client.session.value;
      var sent := S.Protected(session, ApplicationData, text);
      s.(client := s.client.(session := Some(S.AfterProtect(session, ApplicationData, text))),
         toServer := s.toServer + if sent.Ok? then Wired([sent.value]) else {})
    case ServerSends(text) =>
      if s.server.failure.Some? || s.server.phase != SD.Established then s else
      var session := s.server.session.value;
      var sent := S.Protected(session, ApplicationData, text);
      s.(server := s.server.(session := Some(S.AfterProtect(session, ApplicationData, text))),
         toClient := s.toClient + if sent.Ok? then Wired([sent.value]) else {})
    case ClientDeadline =>
      if s.client.failure.Some? || s.client.phase == CD.Established then s
      else s.(client := s.client.(failure := Some(CD.DeadlinePassed)))
    case ServerDeadline =>
      if s.server.failure.Some? || s.server.phase == SD.Established then s
      else s.(server := s.server.(failure := Some(CD.DeadlinePassed)))
  }

  // ---- The invariant ----

  ghost predicate Good(u: Setup, x: Script, s: System) {
    && Works(u, x) && ClientGood(u, x, s.client) && ServerGood(u, x, s.server)
    && Compatible(Rank(s.client.phase), ServerRank(s.server.phase)) && Awaited(x, Rank(s.client.phase), s.server)
    && (forall r :: r in s.toServer ==> FromClient(u, x, Rank(s.client.phase), r))
    && (forall r :: r in s.toClient ==> FromServer(u, x, ServerRank(s.server.phase), r))
  }

  lemma GoodRuns(u: Setup, x: Script, s: System)
    requires Good(u, x, s)
    ensures Runs(u, s)
  {
    hide Works, Compatible, FromClient, FromServer;
    WorksFits(u, x);
    GoodIsReady(u, x, s.client);
    EstablishedIsReady(u, x, s.server);
  }

  lemma SealedOnWire(u: Setup, x: Script, role: S.Role, contentType: ContentType, text: bytes, r: Record)
    requires Sealed(u, x, role, contentType, text, r)
    ensures OnWire(r) == r
  {
    hide Protection.Protect;
  }

  lemma ClientOnWire(u: Setup, x: Script, rank: nat, r: Record)
    requires FromClient(u, x, rank, r)
    ensures FromClient(u, x, rank, OnWire(r))
  {
    hide Packed, Packed0, Sealed;
    if rank >= 2 && Sealed(u, x, S.Client, Handshake, Packed0(x.clientFinished), r) {
      SealedOnWire(u, x, S.Client, Handshake, Packed0(x.clientFinished), r);
    } else if rank >= 3 && AppData(u, x, S.Client, r) {
      var text :| Sealed(u, x, S.Client, ApplicationData, text, r);
      SealedOnWire(u, x, S.Client, ApplicationData, text, r);
    }
  }

  lemma ServerOnWire(u: Setup, x: Script, rank: nat, r: Record)
    requires FromServer(u, x, rank, r)
    ensures FromServer(u, x, rank, OnWire(r))
  {
    hide Packed, Packed0, Sealed;
    if rank >= 2 && Sealed(u, x, S.Server, Handshake, Packed0(x.serverFinished), r) {
      SealedOnWire(u, x, S.Server, Handshake, Packed0(x.serverFinished), r);
    } else if rank >= 2 && AppData(u, x, S.Server, r) {
      var text :| Sealed(u, x, S.Server, ApplicationData, text, r);
      SealedOnWire(u, x, S.Server, ApplicationData, text, r);
    }
  }

  /** The client's steps as the system sees them. */
  lemma ClientMoves(u: Setup, x: Script, s: System, next: CD.Client, sent: seq<Record>)
    requires Good(u, x, s) && Fits(u, x)
    requires GoodStep(u, x, ServerRank(s.server.phase), s.client, next, sent)
    ensures Good(u, x, s.(client := next, toServer := s.toServer + Wired(sent)))
  {
    hide Works, ClientGood, ServerGood, Hs, Sealed, AppData, Packed0, ServerFlightRecord;
    var rank := Rank(next.phase);
    forall r | r in Wired(sent) ensures FromClient(u, x, rank, r) {
      var q :| q in sent && r == OnWire(q);
      ClientOnWire(u, x, rank, q);
    }
  }

  lemma ServerMoves(u: Setup, x: Script, s: System, next: SD.Server, sent: seq<Record>)
    requires Good(u, x, s) && Fits(u, x)
    requires GoodServerStep(u, x, Rank(s.client.phase), s.server, next, sent)
    ensures Good(u, x, s.(server := next, toClient := s.toClient + Wired(sent)))
  {
    hide Works, ClientGood, ServerGood, Hs, Sealed, AppData, Packed0, ServerFlightRecord;
    var rank := ServerRank(next.phase);
    forall r | r in Wired(sent) ensures FromServer(u, x, rank, r) {
      var q :| q in sent && r == OnWire(q);
      ServerOnWire(u, x, rank, q);
    }
  }

  lemma ClientStepGood(u: Setup, x: Script, s: System, e: Event)
    requires Good(u, x, s) && Runs(u, s) && (e.ClientReceives? || e.ClientTimer?)
    ensures Good(u, x, Step(u, s, e))
  {
    hide Works, ClientGood, ServerGood, FromServer, FromClient, CD.OnDatagram, CD.OnTimeout, GoodStep;
    WorksFits(u, x);
    var server := ServerRank(s.server.phase);
    match e
    case ClientReceives(records) =>
      if forall r :: r in records ==> r in s.toClient {
        DatagramGood(u, x, server, s.client, records);
        var r := CD.OnDatagram(u.suite, s.client, records);
        ClientMoves(u, x, s, r.0, r.1);
      }
    case ClientTimer =>
      TimerGood(u, x, server, s.client);
      var r := CD.OnTimeout(s.client);
      ClientMoves(u, x, s, r.0, r.1);
  }

  lemma ServerStepGood(u: Setup, x: Script, s: System, e: Event)
    requires Good(u, x, s) && Runs(u, s) && (e.ServerReceives? || e.ServerTimer? || e.ServerReads?)
    ensures Good(u, x, Step(u, s, e))
  {
    hide Works, ClientGood, ServerGood, FromServer, FromClient, SD.OnDatagram, SD.OnTimeout, SD.OnRead, GoodServerStep;
    WorksFits(u, x);
    var client := Rank(s.client.phase);
    match e
    case ServerReceives(records) =>
      if forall r :: r in records ==> r in s.toServer {
        ServerDatagramGood(u, x, client, s.server, records);
        var r := SD.OnDatagram(u.suite, s.server, records);
        ServerMoves(u, x, s, r.0, r.1);
      }
    case ServerTimer =>
      ServerTimerGood(u, x, client, s.server);
      var r := SD.OnTimeout(s.server);
      ServerMoves(u, x, s, r.0, r.1);
    case ServerReads =>
      ReadGood(u, x, client, s.server);
      ServerMoves(u, x, s, SD.OnRead(s.server), []);
      assert s.toClient + Wired([]) == s.toClient;
  }

  /** Application data goes out under the handshake's keys. */
  lemma DataSealed(u: Setup, x: Script, session: S.Session, role: S.Role, text: bytes)
    requires KeyedSession(u, x, session, role)
    ensures KeyedSession(u, x, S.AfterProtect(session, ApplicationData, text), role)
    ensures S.AfterProtect(session, ApplicationData, text).unread == session.unread
    ensures S.Protected(session, ApplicationData, text).Ok? ==>
              AppData(u, x, role, S.Protected(session, ApplicationData, text).value)
  {
    hide Protection.Protect;
    assert S.Protected(session, ApplicationData, text)
           == SealedAt(u, x, role, ApplicationData, text, session.nextSequence);
    if S.Protected(session, ApplicationData, text).Ok? {
      assert Sealed(u, x, role, ApplicationData, text, S.Protected(session, ApplicationData, text).value);
    }
  }

  lemma ClientSendGood(u: Setup, x: Script, s: System, text: bytes)
    requires Good(u, x, s) && Runs(u, s) && s.client.phase == CD.Established && s.client.failure.None?
    ensures Good(u, x, Step(u, s, ClientSends(text)))
  {
    hide Works, ServerGood, Packed0, Sealed, Hs, S.Protected, S.AfterProtect, AppData, ClientAt, InVerify, InFlight,
         InFinished;
    WorksFits(u, x);
    var session := s.client.session.value;
    DataSealed(u, x, session, S.Client, text);
    var next := s.client.(session := Some(S.AfterProtect(session, ApplicationData, text)));
    var sent := S.Protected(session, ApplicationData, text);
    ClientMoves(u, x, s, next, if sent.Ok? then [sent.value] else []);
  }

  lemma ServerSendGood(u: Setup, x: Script, s: System, text: bytes)
    requires Good(u, x, s) && Runs(u, s) && s.server.phase == SD.Established && s.server.failure.None?
    ensures Good(u, x, Step(u, s, ServerSends(text)))
  {
    hide Works, ClientGood, Packed0, Sealed, Hs, S.Protected, S.AfterProtect, AppData, ServerFlightRecord, ServerAt,
         InExchange;
    WorksFits(u, x);
    var session := s.server.session.value;
    DataSealed(u, x, session, S.Server, text);
    var next := s.server.(session := Some(S.AfterProtect(session, ApplicationData, text)));
    var sent := S.Protected(session, ApplicationData, text);
    ServerMoves(u, x, s, next, if sent.Ok? then [sent.value] else []);
  }

  lemma ClientLate(u: Setup, x: Script, c: CD.Client)
    requires Fits(u, x) && ClientGood(u, x, c)
    ensures ClientGood(u, x, c.(failure := Some(CD.DeadlinePassed)))
  {
    hide Handled, ClientAt, Hs;
    if c.phase == CD.AwaitFlight {
      HandledToo(u, x, c, c.(failure := Some(CD.DeadlinePassed)));
    }
  }

  lemma ServerLate(u: Setup, x: Script, v: SD.Server)
    requires Fits(u, x) && ServerGood(u, x, v)
    ensures ServerGood(u, x, v.(failure := Some(CD.DeadlinePassed)))
  {
    hide ServerAt, ServerFlightRecord;
  }

  lemma DeadlineGood(u: Setup, x: Script, s: System, e: Event)
    requires Good(u, x, s) && Runs(u, s) && (e.ClientDeadline? || e.ServerDeadline?)
    ensures Good(u, x, Step(u, s, e))
  {
    hide Works, FromClient, FromServer, ClientGood, ServerGood;
    WorksFits(u, x);
    if e.ClientDeadline? {
      ClientLate(u, x, s.client);
    } else {
      ServerLate(u, x, s.server);
    }
  }

  /** Every event keeps the invariant. */
  lemma StepGood(u: Setup, x: Script, s: System, e: Event)
    requires Good(u, x, s)
    ensures Runs(u, s) && Good(u, x, Step(u, s, e))
  {
    hide Good, CD.OnDatagram, SD.OnDatagram, CD.OnTimeout, SD.OnTimeout, SD.OnRead, S.Protected, S.AfterProtect;
    GoodRuns(u, x, s);
    match e
    case ClientReceives(_) => ClientStepGood(u, x, s, e);
    case ClientTimer => ClientStepGood(u, x, s, e);
    case ServerReceives(_) => ServerStepGood(u, x, s, e);
    case ServerTimer => ServerStepGood(u, x, s, e);
    case ServerReads => ServerStepGood(u, x, s, e);
    case ClientSends(text) =>
      if s.client.phase == CD.Established && s.client.failure.None? {
        ClientSendGood(u, x, s, text);
      }
    case ServerSends(text) =>
      if s.server.phase == SD.Established && s.server.failure.None? {
        ServerSendGood(u, x, s, text);
      }
    case ClientDeadline => DeadlineGood(u, x, s, e);
    case ServerDeadline => DeadlineGood(u, x, s, e);
  }

  lemma NewClientGood(u: Setup, x: Script)
    requires Works(u, x) && EcJpakeCodec.EncodeKkpp(u.suite.curve, u.ClientOne()) == Ok(x.kkpp)
    ensures Fits(u, x) && NewClient(u).Ok?
    ensures var c := NewClient(u).value;
            ClientGood(u, x, c) && c.phase == CD.AwaitVerify && AllHs(c.flight, x.firstHello)
  {
    hide ClientWorks, ServerWorks, Suite.Lawful, Packed, EcJpakeCodec.EncodeKkpp, EcJpake.FirstRound,
         CH.NextClientHello, CD.WithNewHello, Script.Sized, Packed0, Hs;
    assert Recall(Laws) && Recall(CookieSteps);
    WorksFits(u, x);
    SizesOf(x);
    assert x.Canonical()[..0] == [];
    assert x.Transcript(0) == [];
    var none := Message(ClientHello, 0, []);
    var blank := CD.Client(
      CD.AwaitVerify, None, CH.ClientHandshake(u.client, u.ClientOne(), None, None, u.clientRandom, None, []),
      CH.HelloState(u.clientRandom, [], x.kkpp, 0, None), u.v(4), 0, [], none, false, [], 0, none, none, None, false);
    NewHelloBuilt(blank, HelloAt(u, x, 1, []), x.firstHello);
  }

  lemma NewServerGood(u: Setup, x: Script)
    requires Fits(u, x) && Works(u, x)
    ensures ServerGood(u, x, NewServer(u))
  {
    hide Works, EcJpake.FirstRound;
    assert x.Canonical()[..0] == [];
    assert x.Transcript(0) == [];
  }

  lemma StartGood(u: Setup, x: Script)
    requires Works(u, x) && EcJpakeCodec.EncodeKkpp(u.suite.curve, u.ClientOne()) == Ok(x.kkpp)
    ensures NewClient(u).Ok? && Good(u, x, Start(u))
  {
    hide Works, NewClient, ClientGood, ServerGood, FromClient, FromServer, Wired, Hs, EcJpakeCodec.EncodeKkpp;
    NewClientGood(u, x);
    NewServerGood(u, x);
    StartOnWire(u, x, NewClient(u).value.flight);
  }

  lemma StartOnWire(u: Setup, x: Script, flight: seq<Record>)
    requires AllHs(flight, x.firstHello)
    ensures forall r :: r in Wired(flight) ==> FromClient(u, x, 0, r)
  {
    hide Packed, Packed0, Sealed, AppData;
    forall r | r in Wired(flight) ensures FromClient(u, x, 0, r) {
      var q :| q in flight && r == OnWire(q);
      assert Hs(q, x.firstHello);
    }
  }

  // ---- Whole runs ----

  /** The state a run of events leads to, or nothing if some step could not
      even be taken. */
  ghost function RunFrom(u: Setup, s: System, events: seq<Event>): Option<System> {
    if events == [] then Some(s)
    else
      var before := RunFrom(u, s, events[..|events| - 1]);
      if before.Some? && Runs(u, before.value) then Some(Step(u, before.value, events[|events| - 1])) else None
  }

  ghost function After(u: Setup, events: seq<Event>): Option<System>
    requires u.suite.curve.order > 0
  {
    if NewClient(u).Ok? then RunFrom(u, Start(u), events) else None
  }

  lemma {:induction false} RunFromGood(u: Setup, x: Script, s: System, events: seq<Event>)
    requires Good(u, x, s)
    ensures RunFrom(u, s, events).Some? && Good(u, x, RunFrom(u, s, events).value)
    decreases |events|
  {
    hide Good, Step;
    if events != [] {
      RunFromGood(u, x, s, events[..|events| - 1]);
      StepGood(u, x, RunFrom(u, s, events[..|events| - 1]).value, events[|events| - 1]);
    }
  }

  lemma RunGood(u: Setup, x: Script, events: seq<Event>)
    requires Works(u, x) && EcJpakeCodec.EncodeKkpp(u.suite.curve, u.ClientOne()) == Ok(x.kkpp)
    ensures Fits(u, x) && After(u, events).Some? && Good(u, x, After(u, events).value)
  {
    hide Works, Good, Start, NewClient, RunFrom, EcJpakeCodec.EncodeKkpp, EcJpake.FirstRound;
    WorksFits(u, x);
    StartGood(u, x);
    RunFromGood(u, x, Start(u), events);
  }

  /** The message kinds of the canonical transcript, in order. */
  predicate CanonicalKinds(messages: seq<Message>) {
    |messages| == 7
    && messages[0].kind == ClientHello && messages[1].kind == ServerHello && messages[2].kind == ServerKeyExchange
    && messages[3].kind == ServerHelloDone && messages[4].kind == ClientKeyExchange
    && messages[5].kind == Finished && messages[6].kind == Finished
  }

  predicate CarriesCookie(m: Message, cookie: bytes) {
    Hello.DecodeClientHello(m.body).Ok? && Hello.DecodeClientHello(m.body).value.cookie == cookie
  }

  /** The transcript is that of the first messages of a list. */
  ghost predicate IsPrefix(transcript: bytes, messages: seq<Message>) {
    exists k: nat :: k <= |messages| && (forall i :: 0 <= i < |messages| ==> Encodable(messages[i]))
                     && transcript == PackedAll(messages[..k])
  }

  /** What holds in every state of every run. */
  ghost predicate Safe(messages: seq<Message>, s: System) {
    && IsPrefix(s.client.handshake.transcript, messages)
    && IsPrefix(s.server.handshake.transcript, messages)
    && OnlyDeadlineOrCounter(s.client.failure, s.client.session)
    && OnlyDeadlineOrCounter(s.server.failure, s.server.session)
    && (s.client.phase == CD.Established ==> s.server.phase == SD.Established)
    && (s.client.phase == CD.Established ==>
          && s.client.handshake.transcript == s.server.handshake.transcript
          && (forall i :: 0 <= i < |messages| ==> Encodable(messages[i]))
          && s.client.handshake.transcript == PackedAll(messages)
          && s.client.session.Some? && s.server.session.Some?
          && s.client.session.value.keys == s.server.session.value.keys)
  }

  lemma TranscriptIsPrefix(x: Script, k: nat)
    requires k <= 7 && x.Sized()
    ensures IsPrefix(x.Transcript(k), x.Canonical())
  {
    hide PackedAll;
  }

  lemma GoodIsSafe(u: Setup, x: Script, s: System)
    requires Fits(u, x) && Good(u, x, s)
    ensures Safe(x.Canonical(), s)
  {
    hide Works, FromClient, FromServer, IsPrefix, PackedAll, Hs, ServerFlightRecord;
    forall k: nat | k <= 7 ensures IsPrefix(x.Transcript(k), x.Canonical()) {
      TranscriptIsPrefix(x, k);
    }
    assert x.Canonical()[..7] == x.Canonical();
  }

  /** For an honest client and server with the same secret there is one
      canonical list of seven messages such that in every state of every run
      both transcripts are prefixes of it, neither side has failed other than
      by its deadline or an exhausted 2^48 counter, and a finished client means
      a finished server with the same whole transcript and the same keys. */
  lemma EveryRunIsSafe(u: Setup) returns (messages: seq<Message>)
    requires u.Good()
    ensures CanonicalKinds(messages) && u.suite.curve.order > 0
    ensures CarriesCookie(messages[0], u.Cookie())
    ensures forall events :: After(u, events).Some? && Safe(messages, After(u, events).value)
  {
    hide Setup.Good, Works, Good, After, Safe, CarriesCookie, EcJpakeCodec.EncodeKkpp, EcJpake.FirstRound;
    var x := ScriptFor(u);
    WorksFits(u, x);
    messages := x.Canonical();
    KindsInOrder(u, x);
    forall events ensures After(u, events).Some? && Safe(messages, After(u, events).value) {
      RunGood(u, x, events);
      GoodIsSafe(u, x, After(u, events).value);
    }
  }

  lemma KindsInOrder(u: Setup, x: Script)
    requires Works(u, x)
    ensures CanonicalKinds(x.Canonical()) && CarriesCookie(x.clientHello, u.Cookie())
  {
    hide ClientWorks, ServerWorks, Suite.Lawful, Script.Sized, Hello.DecodeClientHello, Hello.DecodeHelloVerify,
         Hello.EncodeHelloVerify, CH.NextClientHello;
    assert Recall(Laws) && Recall(CookieSteps);
  }
}
