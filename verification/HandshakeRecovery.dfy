/** From every state of every run in which neither side has given up, and with
    everything in transit lost, the handshake can still be completed: the
    retransmissions suffice. */
module HandshakeRecovery {
  import opened Wire
  import opened Records
  import opened Framing
  import opened Flights
  import opened Suites
  import opened HandshakeScript
  import opened HandshakeClient
  import opened HandshakeServer
  import opened HandshakeSystem
  import CD = ClientDriver
  import SD = ServerDriver
  import Protection
  import S = Session

  // ---- Reaching states ----

  ghost predicate Leads(u: Setup, s: System, t: System) {
    exists events :: RunFrom(u, s, events) == Some(t)
  }

  lemma LeadsNowhere(u: Setup, s: System)
    ensures Leads(u, s, s)
  {
    assert RunFrom(u, s, []) == Some(s);
  }

  lemma LeadsByStep(u: Setup, s: System, e: Event)
    requires Runs(u, s)
    ensures Leads(u, s, Step(u, s, e))
  {
    hide Step;
    assert [e][..0] == [];
    assert RunFrom(u, s, []) == Some(s);
    assert RunFrom(u, s, [e]) == Some(Step(u, s, e));
  }

  lemma {:induction false} RunsOn(u: Setup, s: System, t: System, a: seq<Event>, b: seq<Event>)
    requires RunFrom(u, s, a) == Some(t)
    ensures RunFrom(u, s, a + b) == RunFrom(u, t, b)
    decreases |b|
  {
    hide Step, Runs;
    if b == [] {
      assert a + b == a;
    } else {
      assert (a + b)[..|a + b| - 1] == a + b[..|b| - 1];
      RunsOn(u, s, t, a, b[..|b| - 1]);
    }
  }

  lemma LeadsOn(u: Setup, s: System, t: System, w: System)
    requires Leads(u, s, t) && Leads(u, t, w)
    ensures Leads(u, s, w)
  {
    hide RunFrom;
    var a :| RunFrom(u, s, a) == Some(t);
    var b :| RunFrom(u, t, b) == Some(w);
    RunsOn(u, s, t, a, b);
  }

  // ---- Healthy states ----

  ghost predicate Healthy(u: Setup, x: Script, s: System) {
    Good(u, x, s) && s.client.failure.None? && s.server.failure.None?
  }

  predicate At(s: System, client: CD.Phase, server: SD.Phase) {
    s.client.phase == client && s.server.phase == server
  }

  lemma HealthyStep(u: Setup, x: Script, s: System, e: Event)
    requires Healthy(u, x, s)
    ensures Fits(u, x) && Works(u, x) && Runs(u, s) && Good(u, x, Step(u, s, e)) && Leads(u, s, Step(u, s, e))
  {
    hide Step, Leads, Works, ClientGood, ServerGood, FromClient, FromServer;
    StepGood(u, x, s, e);
    LeadsByStep(u, s, e);
    WorksFits(u, x);
  }

  lemma WiredMember(sent: seq<Record>, i: nat)
    requires i < |sent|
    ensures OnWire(sent[i]) in Wired(sent)
  {
  }

  // ---- The client's timers ----

  /** The client sends its hello again. */
  lemma HelloRepeated(u: Setup, x: Script, s: System) returns (r: Record, t: System)
    requires Healthy(u, x, s) && (s.client.phase == CD.AwaitVerify || s.client.phase == CD.AwaitFlight)
    ensures Leads(u, s, t) && Healthy(u, x, t) && At(t, s.client.phase, s.server.phase)
    ensures r in t.toServer && Hs(r, if s.client.phase == CD.AwaitVerify then x.firstHello else x.clientHello)
  {
    hide Works, Packed, Leads, FromClient, FromServer, Good, Renumbered, ClientAt, Handled, InFinished, CD.Resealed,
         ServerGood, OnlyDeadlineOrCounter;
    HealthyStep(u, x, s, ClientTimer);
    GoodParts(u, x, s);
    t := Step(u, s, ClientTimer);
    var m := if s.client.phase == CD.AwaitVerify then x.firstHello else x.clientHello;
    var sent := Renumbered(s.client.flight, s.client.nextRecord).0;
    HsRenumbered(s.client.flight, s.client.nextRecord, m);
    r := OnWire(sent[0]);
    WiredMember(sent, 0);
    assert Hs(sent[0], m);
  }

  lemma GoodParts(u: Setup, x: Script, s: System)
    requires Good(u, x, s)
    ensures Works(u, x) && Fits(u, x) && ClientGood(u, x, s.client) && ServerGood(u, x, s.server)
    ensures Compatible(Rank(s.client.phase), ServerRank(s.server.phase)) && Awaited(x, Rank(s.client.phase), s.server)
  {
    hide Works, ClientGood, ServerGood, FromClient, FromServer;
    WorksFits(u, x);
  }

  /** A counter that still allows a protected record. */
  predicate CanSeal(session: Option<S.Session>) {
    session.Some? ==> session.value.nextSequence < SEQUENCE_LIMIT
  }

  /** The client sends its third flight again. */
  lemma ThirdFlightRepeated(u: Setup, x: Script, s: System) returns (records: seq<Record>, t: System)
    requires Healthy(u, x, s) && s.client.phase == CD.AwaitFinished && CanSeal(s.client.session)
    ensures Leads(u, s, t) && Healthy(u, x, t) && At(t, s.client.phase, s.server.phase) && t.server == s.server
    ensures ThirdFlight(u, x, records) && forall r :: r in records ==> r in t.toServer
  {
    hide Works, Packed, Packed0, Leads, FromClient, FromServer, Good, ClientAt, CD.Resealed, Sealed;
    HealthyStep(u, x, s, ClientTimer);
    GoodParts(u, x, s);
    t := Step(u, s, ClientTimer);
    Reseals(u, x, s.client);
    var sent := CD.Resealed(s.client).sent;
    records := ThirdOnWire(u, x, sent);
  }

  lemma ThirdOnWire(u: Setup, x: Script, sent: seq<Record>) returns (records: seq<Record>)
    requires ThirdFlight(u, x, sent)
    ensures ThirdFlight(u, x, records) && forall r :: r in records ==> r in Wired(sent)
  {
    hide Packed, Packed0, Sealed;
    WiredMember(sent, 0);
    WiredMember(sent, 1);
    WiredMember(sent, 2);
    SealedOnWire(u, x, S.Client, Handshake, Packed0(x.clientFinished), sent[2]);
    records := [OnWire(sent[0]), OnWire(sent[1]), sent[2]];
  }

  lemma LastOnWire(u: Setup, x: Script, sent: seq<Record>) returns (records: seq<Record>)
    requires LastFlight(u, x, sent)
    ensures LastFlight(u, x, records) && forall r :: r in records ==> r in Wired(sent)
  {
    hide Packed0, Sealed;
    WiredMember(sent, 0);
    WiredMember(sent, 1);
    SealedOnWire(u, x, S.Server, Handshake, Packed0(x.serverFinished), sent[1]);
    records := [OnWire(sent[0]), sent[1]];
  }

  lemma WholeOnWire(x: Script, sent: seq<Record>) returns (records: seq<Record>)
    requires WholeFlight(x, sent)
    ensures WholeFlight(x, records) && forall r :: r in records ==> r in Wired(sent)
  {
    hide Packed;
    WiredMember(sent, 0);
    WiredMember(sent, 1);
    WiredMember(sent, 2);
    records := [OnWire(sent[0]), OnWire(sent[1]), OnWire(sent[2])];
  }

  // ---- One record ----

  lemma ClientTakesOne(s: Suite, c: CD.Client, r: Record)
    requires CD.Ready(s, c)
    ensures var v := CD.OneRecord(s, c, r); CD.OnRecords(s, c, [r]) == (v.client, if v.Leave? then v.sent else [])
  {
    hide CD.OneRecord;
    CD.PhaseStays(s, c, r);
    var v := CD.OneRecord(s, c, r);
    assert [r][1..] == [];
    assert v.Next? ==> CD.OnRecords(s, v.client, []) == (v.client, []);
  }

  lemma ServerTakesOne(s: Suite, v: SD.Server, r: Record)
    requires s.curve.order > 0
    ensures var w := SD.OneRecord(s, v, r); SD.OnRecords(s, v, [r]) == (w.server, w.sent)
  {
    hide SD.OneRecord;
    var w := SD.OneRecord(s, v, r);
    assert [r][1..] == [];
    assert w.Next? ==> SD.OnRecords(s, w.server, []) == (w.server, []);
    assert w.sent + [] == w.sent;
  }

  /** The first ClientHello is answered with the cookie. */
  lemma CookieSent(u: Setup, x: Script, s: System, r: Record) returns (q: Record, t: System)
    requires Healthy(u, x, s) && At(s, CD.AwaitVerify, SD.AwaitHello) && r in s.toServer && Hs(r, x.firstHello)
    ensures Leads(u, s, t) && Healthy(u, x, t) && At(t, CD.AwaitVerify, SD.AwaitHello)
    ensures q in t.toClient && Hs(q, x.verify)
  {
    hide Works, Packed, Leads, FromClient, FromServer, Good, ServerAt, SD.HelloMessage, SD.HelloMessages, Messages,
         SD.OnRecords, SD.ClientRecord, ClientGood;
    HealthyStep(u, x, s, ServerReceives([r]));
    GoodParts(u, x, s);
    t := Step(u, s, ServerReceives([r]));
    HsReads(r, x.firstHello);
    assert Recall(Laws);
    OneHelloMessage(u.suite, s.server, r, x.firstHello);
    FirstHelloAnswered(u, x, s.server, r);
    ServerTakesOne(u.suite, s.server, r);
    var sent := SD.HelloMessage(u.suite, s.server, r, x.firstHello).sent;
    q := OnWire(sent[0]);
    WiredMember(sent, 0);
  }

  /** The cookie lets the client go on. */
  lemma CookieTaken(u: Setup, x: Script, s: System, q: Record) returns (t: System)
    requires Healthy(u, x, s) && At(s, CD.AwaitVerify, SD.AwaitHello) && q in s.toClient && Hs(q, x.verify)
    ensures Leads(u, s, t) && Healthy(u, x, t) && At(t, CD.AwaitFlight, SD.AwaitHello)
  {
    hide Works, Packed, Leads, FromClient, FromServer, Good, ClientAt, CD.OnRecords, CD.VerifyRecord, CD.FlightRecord,
         CD.FinishedRecord, ServerGood, CD.RepeatsFinalServerMessage;
    HealthyStep(u, x, s, ClientReceives([q]));
    GoodParts(u, x, s);
    t := Step(u, s, ClientReceives([q]));
    VerifyHandled(u, x, s.client, q);
    ClientTakesOne(u.suite, s.client, q);
  }

  /** The cookie-bearing ClientHello is answered with the server's flight. */
  lemma HelloTakenUp(u: Setup, x: Script, s: System, r: Record) returns (t: System)
    requires Healthy(u, x, s) && At(s, CD.AwaitFlight, SD.AwaitHello) && r in s.toServer && Hs(r, x.clientHello)
    ensures Leads(u, s, t) && Healthy(u, x, t) && At(t, CD.AwaitFlight, SD.AwaitClientFlight)
  {
    hide Works, Packed, Leads, FromClient, FromServer, Good, ServerAt, SD.HelloMessage, SD.HelloMessages, Messages,
         SD.OnRecords, SD.ClientRecord, ClientGood, WholeFlight;
    HealthyStep(u, x, s, ServerReceives([r]));
    GoodParts(u, x, s);
    t := Step(u, s, ServerReceives([r]));
    HsReads(r, x.clientHello);
    OneHelloMessage(u.suite, s.server, r, x.clientHello);
    CookieAccepted(u, x, s.server, r);
    ServerTakesOne(u.suite, s.server, r);
  }

  // ---- The server's flight ----

  /** The server sends its flight again. */
  lemma FlightRepeated(u: Setup, x: Script, s: System) returns (records: seq<Record>, t: System)
    requires Healthy(u, x, s) && At(s, CD.AwaitFlight, SD.AwaitClientFlight)
    ensures Leads(u, s, t) && Healthy(u, x, t) && At(t, CD.AwaitFlight, SD.AwaitClientFlight)
    ensures WholeFlight(x, records) && forall r :: r in records ==> r in t.toClient
  {
    hide Works, Packed, Leads, FromClient, FromServer, Good, ServerAt, Renumbered, ClientGood, WholeFlight;
    HealthyStep(u, x, s, ServerTimer);
    GoodParts(u, x, s);
    t := Step(u, s, ServerTimer);
    FlightRenumbered(x, s.server.flight, s.server.nextRecord);
    records := WholeOnWire(x, Renumbered(s.server.flight, s.server.nextRecord).0);
  }

  lemma ClientGoesOn(s: Suite, c: CD.Client, records: seq<Record>)
    requires CD.Ready(s, c) && records != [] && CD.OneRecord(s, c, records[0]).Next?
    ensures var next := CD.OneRecord(s, c, records[0]).client;
            CD.Ready(s, next) && CD.OnRecords(s, c, records) == CD.OnRecords(s, next, records[1..])
  {
    hide CD.OneRecord;
    CD.PhaseStays(s, c, records[0]);
  }

  lemma ClientStops(s: Suite, c: CD.Client, records: seq<Record>)
    requires CD.Ready(s, c) && records != [] && CD.OneRecord(s, c, records[0]).Leave?
    ensures var v := CD.OneRecord(s, c, records[0]); CD.OnRecords(s, c, records) == (v.client, v.sent)
  {
    hide CD.OneRecord;
  }

  /** One message of the server's flight, in its own record. */
  lemma FlightRecordRead(u: Setup, c: CD.Client, r: Record, m: Message)
    requires u.suite.curve.order > 0 && c.phase == CD.AwaitFlight && Hs(r, m)
    ensures CD.Ready(u.suite, c) && CD.OneRecord(u.suite, c, r) == CD.FlightMessage(u.suite, c, r, m)
  {
    hide CD.FlightMessage, CD.FlightMessages, Messages, Packed;
    HsReads(r, m);
    OneFlightMessage(u.suite, c, r, m);
  }

  /** The whole flight takes the client to its third wait. */
  lemma FlightTaken(u: Setup, x: Script, c: CD.Client, records: seq<Record>)
    requires FlightReady(u, x, c) && WholeFlight(x, records)
    ensures Fits(u, x) && CD.Ready(u.suite, c)
    ensures var r := CD.OnRecords(u.suite, c, records);
            r.0.phase == CD.AwaitFinished && r.0.failure.None? && ThirdFlight(u, x, r.1)
  {
    hide Works, ClientGood, Hs, CD.OneRecord, CD.OnRecords, CD.FlightMessage, AllFromClient, ThirdFlight;
    WorksFits(u, x);
    FlightRecordRead(u, c, records[0], x.serverHello);
    HelloTaken(u, x, c, records[0]);
    ClientGoesOn(u.suite, c, records);
    var c1 := CD.OneRecord(u.suite, c, records[0]).client;
    FlightRecordRead(u, c1, records[1], x.serverKeyExchange);
    KeyExchangeTaken(u, x, c1, records[1]);
    ClientGoesOn(u.suite, c1, records[1..]);
    var c2 := CD.OneRecord(u.suite, c1, records[1]).client;
    assert records[1..][1..] == [records[2]];
    FlightRecordRead(u, c2, records[2], x.serverHelloDone);
    DoneTaken(u, x, c2, records[2]);
    ClientStops(u.suite, c2, [records[2]]);
  }

  /** The client sends its third flight. */
  lemma ThirdWaitReached(u: Setup, x: Script, s: System, records: seq<Record>) returns (third: seq<Record>, t: System)
    requires Healthy(u, x, s) && At(s, CD.AwaitFlight, SD.AwaitClientFlight)
    requires WholeFlight(x, records) && forall r :: r in records ==> r in s.toClient
    ensures Leads(u, s, t) && Healthy(u, x, t) && At(t, CD.AwaitFinished, SD.AwaitClientFlight)
    ensures ThirdFlight(u, x, third) && forall r :: r in third ==> r in t.toServer
  {
    hide Works, Packed, Leads, FromClient, FromServer, Good, ClientGood, CD.OnRecords, ServerGood, WholeFlight,
         CD.RepeatsFinalServerMessage, ThirdFlight;
    HealthyStep(u, x, s, ClientReceives(records));
    GoodParts(u, x, s);
    t := Step(u, s, ClientReceives(records));
    FlightTaken(u, x, s.client, records);
    third := ThirdOnWire(u, x, CD.OnRecords(u.suite, s.client, records).1);
  }

  // ---- The client's third flight ----

  lemma ServerGoesOn(s: Suite, v: SD.Server, records: seq<Record>)
    requires s.curve.order > 0 && records != []
    requires SD.OneRecord(s, v, records[0]).Next? && SD.OneRecord(s, v, records[0]).sent == []
    ensures SD.OnRecords(s, v, records) == SD.OnRecords(s, SD.OneRecord(s, v, records[0]).server, records[1..])
  {
    hide SD.OneRecord;
    var rest := SD.OnRecords(s, SD.OneRecord(s, v, records[0]).server, records[1..]);
    assert [] + rest.1 == rest.1;
  }

  lemma ServerStops(s: Suite, v: SD.Server, r: Record)
    requires s.curve.order > 0 && SD.OneRecord(s, v, r).Leave?
    ensures SD.OnRecords(s, v, [r]) == (SD.OneRecord(s, v, r).server, SD.OneRecord(s, v, r).sent)
  {
    hide SD.OneRecord;
  }

  lemma ExchangeRecord(u: Setup, v: SD.Server, r: Record)
    requires u.suite.curve.order > 0 && v.phase == SD.AwaitClientFlight
    ensures SD.OneRecord(u.suite, v, r) == SD.ClientRecord(u.suite, v, r)
  {
    hide SD.ClientRecord;
  }

  /** The third flight establishes the server, which answers with its last. */
  lemma ThirdFlightTaken(u: Setup, x: Script, v: SD.Server, records: seq<Record>)
    requires ExchangeReady(u, x, v) && ThirdFlight(u, x, records)
    ensures Fits(u, x)
    ensures var r := SD.OnRecords(u.suite, v, records);
            r.0.phase == SD.Established && r.0.failure.None? && LastFlight(u, x, r.1)
  {
    hide Works, ServerGood, Hs, SD.OneRecord, SD.OnRecords, SD.ClientRecord, LastFlight, Sealed, Packed0, AllFromServer;
    WorksFits(u, x);
    ExchangeRecord(u, v, records[0]);
    PlainRecordGood(u, x, v, records[0]);
    ServerGoesOn(u.suite, v, records);
    var v1 := SD.OneRecord(u.suite, v, records[0]).server;
    ExchangeRecord(u, v1, records[1]);
    PlainRecordGood(u, x, v1, records[1]);
    ServerGoesOn(u.suite, v1, records[1..]);
    var v2 := SD.OneRecord(u.suite, v1, records[1]).server;
    assert records[1..][1..] == [records[2]];
    ExchangeRecord(u, v2, records[2]);
    SealedRecordGood(u, x, v2, records[2]);
    ServerStops(u.suite, v2, records[2]);
  }

  /** The third flight is no repeated ClientHello. */
  lemma NoHelloInThird(u: Setup, x: Script, records: seq<Record>)
    requires Works(u, x) && ThirdFlight(u, x, records)
    ensures !Flights.Carries(records, x.clientHello) && IsClientFinishedFlight(records)
  {
    hide ClientWorks, ServerWorks, CookieWorks, Suite.Lawful, Script.Sized, Packed, Packed0, Messages,
         Protection.Protect;
    assert Recall(Laws);
    HsReads(records[0], x.clientKeyExchange);
    SealedIsHandshake(u, x, S.Client, Packed0(x.clientFinished), records[2]);
    assert ClientFinishedRecord(records[2]);
  }

  lemma ServerEstablished(u: Setup, x: Script, s: System, records: seq<Record>) returns (last: seq<Record>, t: System)
    requires Healthy(u, x, s) && At(s, CD.AwaitFinished, SD.AwaitClientFlight)
    requires ThirdFlight(u, x, records) && forall r :: r in records ==> r in s.toServer
    ensures Leads(u, s, t) && Healthy(u, x, t) && At(t, CD.AwaitFinished, SD.Established)
    ensures LastFlight(u, x, last) && forall r :: r in last ==> r in t.toClient
  {
    hide Works, Leads, FromClient, FromServer, Good, ClientGood, SD.OnRecords, ThirdFlight, LastFlight, Flights.Carries,
         IsClientFinishedFlight, WholeFlight, ServerAt;
    HealthyStep(u, x, s, ServerReceives(records));
    GoodParts(u, x, s);
    t := Step(u, s, ServerReceives(records));
    NoHelloInThird(u, x, records);
    ThirdFlightTaken(u, x, s.server, records);
    last := LastOnWire(u, x, SD.OnRecords(u.suite, s.server, records).1);
  }

  /** An established server that is read from answers a repeated third flight. */
  lemma BudgetRenewed(u: Setup, x: Script, s: System) returns (t: System)
    requires Healthy(u, x, s) && At(s, CD.AwaitFinished, SD.Established)
    ensures Leads(u, s, t) && Healthy(u, x, t) && At(t, CD.AwaitFinished, SD.Established) && t.client == s.client
    ensures t.server.duplicates == 0 && t.server.reading && t.server.session.Some? && s.server.session.Some?
    ensures t.server.session.value.nextSequence == s.server.session.value.nextSequence
  {
    hide Works, Leads, FromClient, FromServer, Good, ClientGood, S.OpenNext, ServerAt, Packed0;
    HealthyStep(u, x, s, ServerReads);
    GoodParts(u, x, s);
    t := Step(u, s, ServerReads);
    OpenNextKeeps(s.server.session.value);
    NothingToRead(s.server.session.value);
  }

  lemma LastFlightRepeated(u: Setup, x: Script, s: System, records: seq<Record>) returns (last: seq<Record>, t: System)
    requires Healthy(u, x, s) && At(s, CD.AwaitFinished, SD.Established)
    requires s.server.duplicates == 0 && s.server.reading
    requires CanSeal(s.server.session)
    requires ThirdFlight(u, x, records) && forall r :: r in records ==> r in s.toServer
    ensures Leads(u, s, t) && Healthy(u, x, t) && At(t, CD.AwaitFinished, SD.Established)
    ensures LastFlight(u, x, last) && forall r :: r in last ==> r in t.toClient
  {
    hide ClientWorks, CookieWorks, ServerWorks, Script.Sized, Leads, FromClient, FromServer, Good, ClientGood,
         SD.OnRecords, ThirdFlight, LastFlight, Flights.Carries, IsClientFinishedFlight, ServerAt, Packed0,
         SD.FinishedFlight, Protection.Cipher.Lawful, NoneUsable;
    HealthyStep(u, x, s, ServerReceives(records));
    GoodParts(u, x, s);
    t := Step(u, s, ServerReceives(records));
    NoHelloInThird(u, x, records);
    FinishedNotEmpty(x);
    assert Recall(Laws);
    LastFlightBuilt(u, x, s.server.session.value, s.server.nextRecord);
    last := LastOnWire(u, x, SD.FinishedFlight(s.server.session.value, s.server.finished, s.server.nextRecord).value.0);
  }

  lemma FinishedNotEmpty(x: Script)
    requires x.Sized()
    ensures Packed0(x.serverFinished) != []
  {
    SizesOf(x);
    EncodeIsTranscriptForm(x.serverFinished);
  }

  // ---- The end ----

  lemma LastFlightTaken(u: Setup, x: Script, c: CD.Client, records: seq<Record>)
    requires FinishedReady(u, x, c) && LastFlight(u, x, records)
    ensures Fits(u, x) && CD.Ready(u.suite, c)
    ensures var r := CD.OnRecords(u.suite, c, records); r.0.phase == CD.Established && r.0.failure.None?
  {
    hide Works, ClientGood, CD.FinishedRecord, CD.OnRecords, Sealed, Packed0;
    WorksFits(u, x);
    GoodIsReady(u, x, c);
    OthersIgnored(u, x, c, records[0]);
    ClientGoesOn(u.suite, c, records);
    var c1 := CD.OneRecord(u.suite, c, records[0]).client;
    assert records[1..] == [records[1]];
    FinishedTaken(u, x, c1, records[1]);
    ClientStops(u.suite, c1, [records[1]]);
  }

  lemma NothingRepeated(u: Setup, x: Script, records: seq<Record>, serverFlight: seq<Message>)
    requires LastFlight(u, x, records)
    ensures !CD.RepeatsFinalServerMessage(records, serverFlight)
  {
    hide Messages, Packed0;
    SealedIsHandshake(u, x, S.Server, Packed0(x.serverFinished), records[1]);
  }

  ghost predicate Completed(s: System) {
    At(s, CD.Established, SD.Established) && s.client.failure.None? && s.server.failure.None?
  }

  lemma ClientEstablished(u: Setup, x: Script, s: System, last: seq<Record>) returns (t: System)
    requires Healthy(u, x, s) && At(s, CD.AwaitFinished, SD.Established)
    requires LastFlight(u, x, last) && forall r :: r in last ==> r in s.toClient
    ensures Leads(u, s, t) && Completed(t)
  {
    hide Works, Leads, FromClient, FromServer, Good, ClientGood, ServerGood, CD.OnRecords, LastFlight,
         CD.RepeatsFinalServerMessage;
    HealthyStep(u, x, s, ClientReceives(last));
    GoodParts(u, x, s);
    t := Step(u, s, ClientReceives(last));
    NothingRepeated(u, x, last, s.client.serverFlight);
    LastFlightTaken(u, x, s.client, last);
  }

  // ---- Putting the stages together ----

  lemma FromThirdFlight(u: Setup, x: Script, s: System, records: seq<Record>) returns (t: System)
    requires Healthy(u, x, s) && At(s, CD.AwaitFinished, SD.AwaitClientFlight)
    requires ThirdFlight(u, x, records) && forall r :: r in records ==> r in s.toServer
    ensures Leads(u, s, t) && Completed(t)
  {
    hide Healthy, Leads, ThirdFlight, LastFlight, Completed;
    var last, s1 := ServerEstablished(u, x, s, records);
    t := ClientEstablished(u, x, s1, last);
    LeadsOn(u, s, s1, t);
  }

  lemma FromServerFlight(u: Setup, x: Script, s: System) returns (t: System)
    requires Healthy(u, x, s) && At(s, CD.AwaitFlight, SD.AwaitClientFlight)
    ensures Leads(u, s, t) && Completed(t)
  {
    hide Healthy, Leads, ThirdFlight, WholeFlight, Completed;
    var records, s1 := FlightRepeated(u, x, s);
    var third, s2 := ThirdWaitReached(u, x, s1, records);
    t := FromThirdFlight(u, x, s2, third);
    LeadsOn(u, s, s1, s2);
    LeadsOn(u, s, s2, t);
  }

  lemma FromHello(u: Setup, x: Script, s: System) returns (t: System)
    requires Healthy(u, x, s) && At(s, CD.AwaitFlight, SD.AwaitHello)
    ensures Leads(u, s, t) && Completed(t)
  {
    hide Healthy, Leads, Hs, Completed;
    var r, s1 := HelloRepeated(u, x, s);
    var s2 := HelloTakenUp(u, x, s1, r);
    t := FromServerFlight(u, x, s2);
    LeadsOn(u, s, s1, s2);
    LeadsOn(u, s, s2, t);
  }

  lemma FromStart(u: Setup, x: Script, s: System) returns (t: System)
    requires Healthy(u, x, s) && At(s, CD.AwaitVerify, SD.AwaitHello)
    ensures Leads(u, s, t) && Completed(t)
  {
    hide Healthy, Leads, Hs, Completed;
    var r, s1 := HelloRepeated(u, x, s);
    var q, s2 := CookieSent(u, x, s1, r);
    var s3 := CookieTaken(u, x, s2, q);
    t := FromHello(u, x, s3);
    LeadsOn(u, s, s1, s2);
    LeadsOn(u, s, s2, s3);
    LeadsOn(u, s, s3, t);
  }

  lemma FromServerDone(u: Setup, x: Script, s: System) returns (t: System)
    requires Healthy(u, x, s) && At(s, CD.AwaitFinished, SD.Established)
    requires CanSeal(s.client.session) && CanSeal(s.server.session)
    ensures Leads(u, s, t) && Completed(t)
  {
    hide Healthy, Leads, ThirdFlight, LastFlight, Completed;
    var s1 := BudgetRenewed(u, x, s);
    var records, s2 := ThirdFlightRepeated(u, x, s1);
    var last, s3 := LastFlightRepeated(u, x, s2, records);
    t := ClientEstablished(u, x, s3, last);
    LeadsOn(u, s, s1, s2);
    LeadsOn(u, s, s2, s3);
    LeadsOn(u, s, s3, t);
  }

  /** Everything in transit is lost. */
  ghost function AllLost(s: System): System {
    s.(toServer := {}, toClient := {})
  }

  lemma RecoversFrom(u: Setup, x: Script, s: System) returns (t: System)
    requires Healthy(u, x, s) && CanSeal(s.client.session) && CanSeal(s.server.session)
    ensures Leads(u, s, t) && Completed(t)
  {
    hide Leads, Works, ClientGood, ServerGood, FromClient, FromServer;
    match (s.client.phase, s.server.phase) {
      case (AwaitVerify, AwaitHello) => t := FromStart(u, x, s);
      case (AwaitFlight, AwaitHello) => t := FromHello(u, x, s);
      case (AwaitFlight, AwaitClientFlight) => t := FromServerFlight(u, x, s);
      case (AwaitFinished, AwaitClientFlight) =>
        var records, s1 := ThirdFlightRepeated(u, x, s);
        t := FromThirdFlight(u, x, s1, records);
        LeadsOn(u, s, s1, t);
      case (AwaitFinished, Established) => t := FromServerDone(u, x, s);
      case (Established, Established) =>
        t := s;
        LeadsNowhere(u, s);
      case _ => assert false;
    }
  }

  /** Whatever has happened so far, as long as neither side has given up and
      its counter allows another protected record, the handshake can be
      completed even if everything in transit is lost. */
  lemma EveryRunCanComplete(u: Setup, events: seq<Event>) returns (more: seq<Event>)
    requires u.Good()
    ensures u.suite.curve.order > 0 && After(u, events).Some?
    ensures var s := After(u, events).value;
            s.client.failure.None? && s.server.failure.None? && CanSeal(s.client.session)
            && CanSeal(s.server.session) ==>
              RunFrom(u, AllLost(s), more).Some? && Completed(RunFrom(u, AllLost(s), more).value)
  {
    hide Setup.Good, Works, ClientGood, ServerGood, After, RunFrom, FromClient, FromServer;
    var x := ScriptFor(u);
    RunGood(u, x, events);
    var s := After(u, events).value;
    more := [];
    if s.client.failure.None? && s.server.failure.None? && CanSeal(s.client.session) && CanSeal(s.server.session) {
      var t := RecoversFrom(u, x, AllLost(s));
      more :| RunFrom(u, AllLost(s), more) == Some(t);
    }
  }
}
