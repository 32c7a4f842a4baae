/** One honest client and one honest server with the same secret, and the
    messages their handshake consists of. */
module HandshakeScript {
  import opened Wire
  import opened Framing
  import opened Suites
  import opened Protection
  import opened Curves
  import opened Modular
  import CH = ClientHandshakes
  import SH = ServerHandshakes
  import SD = ServerDriver
  import Records
  import Hello
  import EcJpake
  import EcJpakeCodec
  import Schnorr
  import S = Session

  datatype Setup = Setup(
    suite: Suite, client: EcJpake.Party, server: EcJpake.Party, v: nat -> nat,
    clientRandom: Hello.Random, serverRandom: Hello.Random, cookieKey: bytes)
  {
    ghost function Exchange(): EcJpake.Honest {
      EcJpake.Honest(suite.curve, client, server, v)
    }

    /** Equal secrets and none of the three sums that make EC J-PAKE give up. */
    ghost predicate Good() {
      && suite.Lawful() && Exchange().Valid()
      && client.id == CH.CLIENT_ID && server.id == CH.SERVER_ID
      && client.secret == server.secret
      && !Zero(suite.curve.order, client.x1 + server.x1)
      && !Zero(suite.curve.order, Exchange().ServerBase())
      && !Zero(suite.curve.order, Exchange().ClientBase())
    }

    ghost function ClientOne(): EcJpake.RoundOne
      requires suite.curve.order > 0
    {
      Exchange().ClientOne()
    }

    ghost function ServerOne(): EcJpake.RoundOne
      requires suite.curve.order > 0
    {
      Exchange().ServerOne()
    }

    function Cookie(): bytes {
      suite.cookie(cookieKey, clientRandom)
    }
  }

  /** The messages of the handshake and the keys it ends with. */
  datatype Script = Script(
    kkpp: bytes, serverKkpp: bytes, clientTwo: EcJpake.RoundTwo, serverTwo: EcJpake.RoundTwo,
    firstHello: Message, verify: Message, clientHello: Message,
    serverHello: Message, serverKeyExchange: Message, serverHelloDone: Message,
    clientKeyExchange: Message, clientFinished: Message, serverFinished: Message, keys: Keys)
  {
    /** The one canonical transcript; the first ClientHello and the
        HelloVerifyRequest are not part of it. */
    function Canonical(): seq<Message> {
      [clientHello, serverHello, serverKeyExchange, serverHelloDone,
       clientKeyExchange, clientFinished, serverFinished]
    }

    /** Every message fits a record. */
    ghost predicate Sized() {
      && |firstHello.body| <= 1000 && |verify.body| <= 1000
      && forall i :: 0 <= i < 7 ==> |Canonical()[i].body| <= 1000
    }

    ghost function Transcript(k: nat): bytes
      requires k <= 7 && Sized()
    {
      PackedAll(Canonical()[..k])
    }
  }

  ghost predicate Fits(u: Setup, x: Script) {
    u.suite.curve.order > 0 && x.Sized()
  }

  lemma SizesOf(x: Script)
    requires x.Sized()
    ensures |x.firstHello.body| <= 1000 && |x.verify.body| <= 1000 && |x.clientHello.body| <= 1000
    ensures |x.serverHello.body| <= 1000 && |x.serverKeyExchange.body| <= 1000 && |x.serverHelloDone.body| <= 1000
    ensures |x.clientKeyExchange.body| <= 1000 && |x.clientFinished.body| <= 1000 && |x.serverFinished.body| <= 1000
  {
    assert forall i :: 0 <= i < 7 ==> |x.Canonical()[i].body| <= 1000;
    assert x.Canonical()[0] == x.clientHello && x.Canonical()[1] == x.serverHello;
    assert x.Canonical()[2] == x.serverKeyExchange && x.Canonical()[3] == x.serverHelloDone;
    assert x.Canonical()[4] == x.clientKeyExchange && x.Canonical()[5] == x.clientFinished;
    assert x.Canonical()[6] == x.serverFinished;
  }

  /** The client's handshake state once `k` canonical messages are recorded. */
  ghost function ClientAt(u: Setup, x: Script, k: nat): CH.ClientHandshake
    requires Fits(u, x) && k <= 7
  {
    CH.ClientHandshake(
      u.client, u.ClientOne(),
      if k >= 2 then Some(u.ServerOne()) else None,
      if k >= 3 then Some(x.serverTwo) else None,
      u.clientRandom,
      if k >= 2 then Some(u.serverRandom) else None,
      x.Transcript(k))
  }

  ghost function ServerAt(u: Setup, x: Script, k: nat): SH.ServerHandshake
    requires Fits(u, x) && k <= 7
  {
    SH.ServerHandshake(
      u.server, u.ServerOne(),
      if k >= 1 then Some(u.ClientOne()) else None,
      if k >= 5 then Some(x.clientTwo) else None,
      u.serverRandom,
      if k >= 1 then Some(u.clientRandom) else None,
      x.Transcript(k))
  }

  /** The client's cookie-retry state after `sent` ClientHellos. */
  ghost function HelloAt(u: Setup, x: Script, sent: nat, cookie: bytes): CH.HelloState
    requires sent <= 2
  {
    CH.HelloState(u.clientRandom, cookie, x.kkpp, sent, if sent == 0 then None else Some(sent - 1))
  }

  ghost predicate Kinds(x: Script) {
    && x.firstHello.kind == ClientHello && x.firstHello.messageSeq == 0
    && x.verify.kind == HelloVerifyRequest && x.verify.messageSeq == 0
    && x.clientHello.kind == ClientHello && x.clientHello.messageSeq == 1
    && x.serverHello.kind == ServerHello && x.serverHello.messageSeq == 1
    && x.serverKeyExchange.kind == ServerKeyExchange && x.serverKeyExchange.messageSeq == 2
    && x.serverHelloDone == Message(ServerHelloDone, 3, [])
    && x.clientKeyExchange.kind == ClientKeyExchange && x.clientKeyExchange.messageSeq == 2
    && x.clientFinished.kind == Finished && x.clientFinished.messageSeq == 3
    && x.serverFinished.kind == Finished && x.serverFinished.messageSeq == 4
  }

  /** The cookie exchange on the script's messages. */
  ghost predicate CookieWorks(u: Setup, x: Script) {
    && CH.NextClientHello(HelloAt(u, x, 0, [])) == Ok((HelloAt(u, x, 1, []), x.firstHello))
    && CH.NextClientHello(HelloAt(u, x, 1, u.Cookie())) == Ok((HelloAt(u, x, 2, u.Cookie()), x.clientHello))
    && Hello.EncodeHelloVerify(Hello.HelloVerify(Records.DTLS_1_2, u.Cookie())) == Ok(x.verify.body)
    && Hello.DecodeHelloVerify(x.verify.body) == Ok(Hello.HelloVerify(Records.DTLS_1_2, u.Cookie()))
    && Hello.DecodeClientHello(x.firstHello.body) == Ok(CH.HelloBody(HelloAt(u, x, 0, [])))
    && Hello.DecodeClientHello(x.clientHello.body) == Ok(CH.HelloBody(HelloAt(u, x, 1, u.Cookie())))
    && u.Cookie() != []
  }

  /** Each client step on the canonical messages leads to the next stage. */
  ghost predicate ClientWorks(u: Setup, x: Script)
    requires Fits(u, x)
  {
    && CH.RecordClientHello(ClientAt(u, x, 0), x.clientHello) == Ok(ClientAt(u, x, 1))
    && CH.HandleServerHello(u.suite, ClientAt(u, x, 1), x.serverHello) == Ok(ClientAt(u, x, 2))
    && CH.HandleServerKeyExchange(u.suite, ClientAt(u, x, 2), x.serverKeyExchange) == Ok(ClientAt(u, x, 3))
    && CH.HandleServerHelloDone(ClientAt(u, x, 3), x.serverHelloDone) == Ok(ClientAt(u, x, 4))
    && CH.BuildClientKeyExchange(u.suite, ClientAt(u, x, 4), 2, u.v(4)) == Ok((ClientAt(u, x, 5), x.clientKeyExchange))
    && CH.DeriveKeys(u.suite, ClientAt(u, x, 5)) == Ok(x.keys)
    && CH.BuildClientFinished(u.suite, ClientAt(u, x, 5), 3) == Ok((ClientAt(u, x, 6), x.clientFinished))
    && CH.VerifyServerFinished(u.suite, ClientAt(u, x, 6), x.serverFinished, x.keys) == Ok(ClientAt(u, x, 7))
  }

  ghost predicate ServerWorks(u: Setup, x: Script)
    requires Fits(u, x)
  {
    && SD.Answer(u.suite, ServerAt(u, x, 0), x.clientHello, u.v(5))
       == Ok((ServerAt(u, x, 4), [x.serverHello, x.serverKeyExchange, x.serverHelloDone]))
    && SH.HandleClientKeyExchange(u.suite, ServerAt(u, x, 4), x.clientKeyExchange) == Ok(ServerAt(u, x, 5))
    && SH.DeriveKeys(u.suite, ServerAt(u, x, 5)) == Ok(x.keys)
    && SH.VerifyClientFinished(u.suite, ServerAt(u, x, 5), x.clientFinished, x.keys) == Ok(ServerAt(u, x, 6))
    && SH.BuildServerFinished(u.suite, ServerAt(u, x, 6), 4, x.keys) == Ok((ServerAt(u, x, 7), x.serverFinished))
  }

  datatype Fact = Laws | CookieSteps | ClientSteps | ServerSteps

  /** Brings one group of the script's facts into a proof. */
  predicate Recall(fact: Fact) {
    true
  }

  ghost predicate Holds(u: Setup, x: Script, fact: Fact)
    requires Fits(u, x)
  {
    match fact
    case Laws => u.suite.Lawful() && Kinds(x)
    case CookieSteps => CookieWorks(u, x)
    case ClientSteps => ClientWorks(u, x)
    case ServerSteps => ServerWorks(u, x)
  }

  /** The script is what an honest handshake of the setup consists of. */
  ghost predicate Works(u: Setup, x: Script) {
    Fits(u, x) && forall fact {:trigger Recall(fact)} :: Recall(fact) ==> Holds(u, x, fact)
  }

  // ---- Building the script ----

  lemma ProofCanonical(c: Curve, b: int, x: int, id: bytes, v: nat)
    requires c.Lawful() && !Zero(c.order, b) && !Zero(c.order, v) && !Zero(c.order, b * x)
    ensures var point, proof := c.encode(c.At(b * x)), Schnorr.Generate(c, c.At(b), x, c.At(b * x), id, v);
            EcJpakeCodec.CanonicalKey(c, point, proof, id)
  {
    hide Schnorr.Challenge, PointFromBytes, ToBytes, FromBytes, Curve.IsGroup, Curve.IsEncoding;
    OrderFits(c);
    Product(c, b, v);
    NoZeroDivisors(c.order, b, v);
    DecodePoint(c, b * v);
    DecodePoint(c, b * x);
    ScalarReadBack(c, v - x * Schnorr.Challenge(c, c.At(b), c.At(b * v), c.At(b * x), id));
  }

  lemma OrderFits(c: Curve)
    requires c.Lawful()
    ensures 0 < c.order <= Pow256(32) && IsPrime(c.order)
  {
  }

  lemma ScalarReadBack(c: Curve, r: int)
    requires 0 < c.order <= Pow256(32)
    ensures var s := ToBytes(r % c.order, 32); |s| == 32 && ScalarFromBytes(c, s).Ok?
  {
    ReadBack(r % c.order, 32);
  }

  lemma FirstRoundCanonical(c: Curve, p: EcJpake.Party, v1: nat, v2: nat)
    requires c.Lawful() && p.Valid(c) && 0 < v1 < c.order && 0 < v2 < c.order
    ensures var one := EcJpake.FirstRound(c, p, v1, v2);
            && EcJpakeCodec.CanonicalKey(c, one.g1, one.proof1, one.id)
            && EcJpakeCodec.CanonicalKey(c, one.g2, one.proof2, one.id)
            && EcJpakeCodec.EncodeKkpp(c, one).Ok? && |EcJpakeCodec.EncodeKkpp(c, one).value| <= 330
            && EcJpakeCodec.DecodeKkpp(c, EcJpakeCodec.EncodeKkpp(c, one).value, p.id) == Ok(one)
  {
    hide EcJpakeCodec.EncodeKkpp, EcJpakeCodec.DecodeKkpp, EcJpakeCodec.CanonicalKey, Schnorr.Generate,
         EcJpake.FirstRoundVerifies;
    EcJpake.CanonicalNonzero(c.order, 1);
    EcJpake.CanonicalNonzero(c.order, p.x1);
    EcJpake.CanonicalNonzero(c.order, p.x2);
    EcJpake.CanonicalNonzero(c.order, v1);
    EcJpake.CanonicalNonzero(c.order, v2);
    assert 1 * p.x1 == p.x1 && 1 * p.x2 == p.x2;
    ProofCanonical(c, 1, p.x1, p.id, v1);
    ProofCanonical(c, 1, p.x2, p.id, v2);
    EcJpake.FirstRoundHonest(c, p, v1, v2);
    EcJpakeCodec.KkppRoundTrip(c, EcJpake.FirstRound(c, p, v1, v2));
  }

  lemma SecondRoundCanonical(
    c: Curve, p: EcJpake.Party, own: EcJpake.RoundOne, peer: EcJpake.RoundOne, v: nat, b: int, curveParams: bool)
    requires c.Lawful() && p.Valid(c) && 0 < v < c.order && !Zero(c.order, b)
    requires EcJpake.FirstRoundVerifies(c, peer)
    requires EcJpake.SecondRoundBase(c, p.role, own, peer, p.role) == Ok(c.At(b))
    ensures var two := EcJpake.SecondRound(c, p, own, peer, v);
            && two.Ok? && EcJpakeCodec.CanonicalKey(c, two.value.point, two.value.proof, p.id)
            && EcJpakeCodec.EncodeKeyExchange(c, two.value, curveParams).Ok?
            && |EcJpakeCodec.EncodeKeyExchange(c, two.value, curveParams).value| <= 168
            && EcJpakeCodec.DecodeKeyExchange(
                 c, EcJpakeCodec.EncodeKeyExchange(c, two.value, curveParams).value, p.id, curveParams) == two
  {
    hide EcJpakeCodec.EncodeKeyExchange, EcJpakeCodec.DecodeKeyExchange, EcJpakeCodec.CanonicalKey, Schnorr.Generate,
         EcJpake.FirstRoundVerifies, EcJpake.SecondRoundBase;
    var e := p.x2 * p.secret % c.order;
    EcJpake.CanonicalNonzero(c.order, v);
    EcJpake.ExponentNonzero(c, p, b);
    Product(c, b, e);
    Equal(c, b, 0);
    ProofCanonical(c, b, e, p.id, v);
    EcJpakeCodec.KeyExchangeRoundTrip(c, EcJpake.SecondRound(c, p, own, peer, v).value, p.id, curveParams);
  }

  /** What the script's messages carry. */
  ghost predicate Carries(u: Setup, x: Script)
    requires u.suite.curve.order > 0
  {
    var c := u.suite.curve;
    && EcJpakeCodec.EncodeKkpp(c, u.ClientOne()) == Ok(x.kkpp) && |x.kkpp| <= 330
    && EcJpakeCodec.EncodeKkpp(c, u.ServerOne()) == Ok(x.serverKkpp) && |x.serverKkpp| <= 330
    && EcJpakeCodec.DecodeKkpp(c, x.kkpp, CH.CLIENT_ID) == Ok(u.ClientOne())
    && EcJpakeCodec.DecodeKkpp(c, x.serverKkpp, CH.SERVER_ID) == Ok(u.ServerOne())
    && u.Exchange().ClientTwo() == Ok(x.clientTwo) && u.Exchange().ServerTwo() == Ok(x.serverTwo)
    && EcJpakeCodec.EncodeKeyExchange(c, x.serverTwo, true) == Ok(x.serverKeyExchange.body)
    && EcJpakeCodec.EncodeKeyExchange(c, x.clientTwo, false) == Ok(x.clientKeyExchange.body)
    && EcJpakeCodec.DecodeKeyExchange(c, x.serverKeyExchange.body, CH.SERVER_ID, true) == Ok(x.serverTwo)
    && EcJpakeCodec.DecodeKeyExchange(c, x.clientKeyExchange.body, CH.CLIENT_ID, false) == Ok(x.clientTwo)
    && |x.serverKeyExchange.body| <= 168 && |x.clientKeyExchange.body| <= 168
  }

  ghost predicate Greets(u: Setup, x: Script) {
    && Hello.EncodeClientHello(CH.HelloBody(HelloAt(u, x, 0, []))) == Ok(x.firstHello.body)
    && Hello.EncodeClientHello(CH.HelloBody(HelloAt(u, x, 1, u.Cookie()))) == Ok(x.clientHello.body)
    && Hello.EncodeHelloVerify(Hello.HelloVerify(Records.DTLS_1_2, u.Cookie())) == Ok(x.verify.body)
    && Hello.EncodeServerHello(ServerHelloOf(u, x)) == Ok(x.serverHello.body)
    && |x.firstHello.body| <= 1000 && |x.clientHello.body| <= 1000
    && |x.serverHello.body| <= 1000 && |x.verify.body| <= 1000
  }

  ghost function ServerHelloOf(u: Setup, x: Script): Hello.ServerHello {
    Hello.ServerHello(
      u.serverRandom, [], Hello.ECJPAKE_AES_128_CCM_8, Hello.NULL_COMPRESSION,
      [Hello.Extension(Hello.ECJPAKE_KKPP, x.serverKkpp), Hello.Extension(Hello.EC_POINT_FORMATS, [1, 0])])
  }

  /** Both sides derive the same keys, and each Finished covers the transcript
      before it. */
  ghost predicate Concludes(u: Setup, x: Script)
    requires u.suite.curve.order > 0 && x.Sized()
  {
    && (exists premaster ::
         && EcJpake.Finish(u.suite.curve, u.client, u.ClientOne(), u.ServerOne(), x.serverTwo) == Ok(premaster)
         && EcJpake.Finish(u.suite.curve, u.server, u.ServerOne(), u.ClientOne(), x.clientTwo) == Ok(premaster)
         && x.keys == u.suite.keysFrom(premaster, u.clientRandom, u.serverRandom))
    && x.clientFinished.body == u.suite.verifyData(x.keys.master, S.Client, x.Transcript(5))
    && x.serverFinished.body == u.suite.verifyData(x.keys.master, S.Server, x.Transcript(6))
  }

  /** The encoded size of an extension list. */
  ghost function Size(extensions: seq<Hello.Extension>): nat {
    if extensions == [] then 0 else 4 + |extensions[0].data| + Size(extensions[1..])
  }

  lemma {:induction false} ExtensionsFit(extensions: seq<Hello.Extension>)
    requires Size(extensions) < 0x1_0000
    ensures Hello.ExtensionBytes(extensions).Ok? && |Hello.ExtensionBytes(extensions).value| == Size(extensions)
  {
    if extensions != [] {
      ExtensionsFit(extensions[1..]);
    }
  }

  lemma ClientHelloFits(s: CH.HelloState)
    requires |s.kkpp| <= 330 && |s.cookie| <= COOKIE_LEN
    ensures var body := Hello.EncodeClientHello(CH.HelloBody(s));
            body.Ok? && |body.value| <= 1000
  {
    hide Hello.ExtensionBytes, Hello.SuiteBytes;
    var extensions := CH.HelloBody(s).extensions;
    assert Size(extensions[4..]) == 5 by { assert extensions[4..][1..] == []; }
    assert Size(extensions[3..]) == 9 + |s.kkpp| by { assert extensions[3..][1..] == extensions[4..]; }
    assert Size(extensions[2..]) == 15 + |s.kkpp| by { assert extensions[2..][1..] == extensions[3..]; }
    assert Size(extensions[1..]) == 23 + |s.kkpp| by { assert extensions[1..][1..] == extensions[2..]; }
    ExtensionsFit(extensions);
  }

  lemma ServerHelloFits(u: Setup, x: Script)
    requires |x.serverKkpp| <= 330
    ensures var body := Hello.EncodeServerHello(ServerHelloOf(u, x));
            body.Ok? && |body.value| <= 1000
  {
    hide Hello.ExtensionBytes;
    var extensions := ServerHelloOf(u, x).extensions;
    assert Size(extensions[1..]) == 6 by { assert extensions[1..][1..] == []; }
    ExtensionsFit(extensions);
  }

  lemma PushNext(x: Script, k: nat)
    requires k < 7 && x.Sized()
    ensures CH.Push(x.Transcript(k), x.Canonical()[k]) == Ok(x.Transcript(k + 1))
  {
    var m := x.Canonical()[k];
    assert x.Canonical()[..k + 1] == x.Canonical()[..k] + [m];
    PackedAllPush(x.Canonical()[..k], m);
    EncodeIsTranscriptForm(m);
  }

  // ---- The script works ----

  lemma CookieExchanged(u: Setup, x: Script)
    requires u.suite.Lawful() && Greets(u, x) && Kinds(x)
    ensures CookieWorks(u, x)
  {
    hide Hello.EncodeClientHello, Hello.DecodeClientHello, Hello.EncodeHelloVerify, Hello.DecodeHelloVerify,
         Hello.EncodeServerHello, CH.HelloBody, Curve.Lawful, Cipher.Lawful;
    Hello.ClientHelloRoundTrip(CH.HelloBody(HelloAt(u, x, 0, [])));
    Hello.ClientHelloRoundTrip(CH.HelloBody(HelloAt(u, x, 1, u.Cookie())));
    Hello.HelloVerifyRoundTrip(Hello.HelloVerify(Records.DTLS_1_2, u.Cookie()));
    assert |u.Cookie()| == COOKIE_LEN;
  }

  lemma KkppInClientHello(s: CH.HelloState)
    ensures Hello.FindExtension(CH.HelloBody(s).extensions, Hello.ECJPAKE_KKPP) == Some(s.kkpp)
  {
    var e := CH.HelloBody(s).extensions;
    assert e[1..][0] == e[1] && e[1..][1..] == e[2..];
    assert e[2..][0] == e[2] && e[2..][1..] == e[3..];
    assert e[3..][0] == e[3];
    assert Hello.FindExtension(e[3..], Hello.ECJPAKE_KKPP) == Some(s.kkpp);
    assert Hello.FindExtension(e[2..], Hello.ECJPAKE_KKPP) == Some(s.kkpp);
    assert Hello.FindExtension(e[1..], Hello.ECJPAKE_KKPP) == Some(s.kkpp);
  }

  ghost predicate Complete(u: Setup, x: Script) {
    && u.suite.Lawful() && u.suite.curve.order > 0
    && x.Sized() && Kinds(x) && Carries(u, x) && Greets(u, x) && Concludes(u, x)
  }

  lemma ServerHelloHandled(u: Setup, x: Script)
    requires u.suite.curve.order > 0 && x.Sized() && Kinds(x)
    requires Hello.EncodeServerHello(ServerHelloOf(u, x)) == Ok(x.serverHello.body)
    requires EcJpakeCodec.DecodeKkpp(u.suite.curve, x.serverKkpp, CH.SERVER_ID) == Ok(u.ServerOne())
    ensures CH.RecordClientHello(ClientAt(u, x, 0), x.clientHello) == Ok(ClientAt(u, x, 1))
    ensures CH.HandleServerHello(u.suite, ClientAt(u, x, 1), x.serverHello) == Ok(ClientAt(u, x, 2))
  {
    hide Hello.EncodeServerHello, Hello.DecodeServerHello, EcJpakeCodec.DecodeKkpp, CH.Push, EcJpake.FirstRound;
    PushNext(x, 0);
    PushNext(x, 1);
    Hello.ServerHelloRoundTrip(ServerHelloOf(u, x));
  }

  lemma ServerFlightHandled(u: Setup, x: Script)
    requires u.suite.curve.order > 0 && x.Sized() && Kinds(x)
    requires EcJpakeCodec.DecodeKeyExchange(u.suite.curve, x.serverKeyExchange.body, CH.SERVER_ID, true)
             == Ok(x.serverTwo)
    ensures CH.HandleServerKeyExchange(u.suite, ClientAt(u, x, 2), x.serverKeyExchange) == Ok(ClientAt(u, x, 3))
    ensures CH.HandleServerHelloDone(ClientAt(u, x, 3), x.serverHelloDone) == Ok(ClientAt(u, x, 4))
  {
    hide EcJpakeCodec.DecodeKeyExchange, CH.Push, EcJpake.FirstRound;
    PushNext(x, 2);
    PushNext(x, 3);
  }

  lemma ClientConcludes(u: Setup, x: Script)
    requires Complete(u, x)
    ensures CH.BuildClientKeyExchange(u.suite, ClientAt(u, x, 4), 2, u.v(4))
            == Ok((ClientAt(u, x, 5), x.clientKeyExchange))
    ensures CH.DeriveKeys(u.suite, ClientAt(u, x, 5)) == Ok(x.keys)
    ensures CH.BuildClientFinished(u.suite, ClientAt(u, x, 5), 3) == Ok((ClientAt(u, x, 6), x.clientFinished))
    ensures CH.VerifyServerFinished(u.suite, ClientAt(u, x, 6), x.serverFinished, x.keys) == Ok(ClientAt(u, x, 7))
  {
    hide EcJpakeCodec.EncodeKkpp, EcJpakeCodec.DecodeKkpp, EcJpakeCodec.EncodeKeyExchange,
         EcJpakeCodec.DecodeKeyExchange, Greets, CH.Push, EcJpake.FirstRound, EcJpake.SecondRound, EcJpake.Finish,
         Suite.Lawful;
    PushNext(x, 4);
    PushNext(x, 5);
    PushNext(x, 6);
  }

  lemma ClientHelloHandled(u: Setup, x: Script)
    requires u.suite.curve.order > 0 && x.Sized() && Kinds(x)
    requires Hello.EncodeClientHello(CH.HelloBody(HelloAt(u, x, 1, u.Cookie()))) == Ok(x.clientHello.body)
    requires EcJpakeCodec.DecodeKkpp(u.suite.curve, x.kkpp, CH.CLIENT_ID) == Ok(u.ClientOne())
    ensures SH.HandleClientHello(u.suite, ServerAt(u, x, 0), x.clientHello) == Ok(ServerAt(u, x, 1))
  {
    hide Hello.DecodeClientHello, Hello.EncodeClientHello, EcJpakeCodec.DecodeKkpp, CH.Push, EcJpake.FirstRound,
         Hello.FindExtension;
    PushNext(x, 0);
    var state := HelloAt(u, x, 1, u.Cookie());
    Hello.ClientHelloRoundTrip(CH.HelloBody(state));
    KkppInClientHello(state);
  }

  lemma ServerHelloBuilt(u: Setup, x: Script)
    requires u.suite.curve.order > 0 && x.Sized() && Kinds(x)
    requires Hello.EncodeServerHello(ServerHelloOf(u, x)) == Ok(x.serverHello.body)
    requires EcJpakeCodec.EncodeKkpp(u.suite.curve, u.ServerOne()) == Ok(x.serverKkpp)
    ensures SH.BuildServerHello(u.suite, ServerAt(u, x, 1), 1) == Ok((ServerAt(u, x, 2), x.serverHello))
  {
    hide Hello.EncodeServerHello, EcJpakeCodec.EncodeKkpp, CH.Push, EcJpake.FirstRound;
    PushNext(x, 1);
  }

  lemma ServerFlightBuilt(u: Setup, x: Script)
    requires u.suite.curve.order > 0 && x.Sized() && Kinds(x)
    requires u.Exchange().ServerTwo() == Ok(x.serverTwo)
    requires EcJpakeCodec.EncodeKeyExchange(u.suite.curve, x.serverTwo, true) == Ok(x.serverKeyExchange.body)
    ensures SH.BuildServerKeyExchange(u.suite, ServerAt(u, x, 2), 2, u.v(5))
            == Ok((ServerAt(u, x, 3), x.serverKeyExchange))
    ensures SH.BuildServerHelloDone(ServerAt(u, x, 3), 3) == Ok((ServerAt(u, x, 4), x.serverHelloDone))
  {
    hide EcJpakeCodec.EncodeKeyExchange, CH.Push, EcJpake.FirstRound, EcJpake.SecondRound;
    PushNext(x, 2);
    PushNext(x, 3);
  }

  lemma ServerAnswers(u: Setup, x: Script)
    requires Complete(u, x)
    ensures SD.Answer(u.suite, ServerAt(u, x, 0), x.clientHello, u.v(5))
            == Ok((ServerAt(u, x, 4), [x.serverHello, x.serverKeyExchange, x.serverHelloDone]))
  {
    hide Hello.EncodeServerHello, Hello.EncodeClientHello, EcJpakeCodec.EncodeKkpp, EcJpakeCodec.DecodeKkpp,
         EcJpakeCodec.EncodeKeyExchange, EcJpakeCodec.DecodeKeyExchange, Concludes, EcJpake.FirstRound, ServerAt,
         EcJpake.SecondRound, SH.HandleClientHello, SH.BuildServerHello, SH.BuildServerKeyExchange,
         SH.BuildServerHelloDone, Suite.Lawful;
    ClientHelloHandled(u, x);
    ServerHelloBuilt(u, x);
    ServerFlightBuilt(u, x);
  }

  lemma ServerConcludes(u: Setup, x: Script)
    requires Complete(u, x)
    ensures SH.HandleClientKeyExchange(u.suite, ServerAt(u, x, 4), x.clientKeyExchange) == Ok(ServerAt(u, x, 5))
    ensures SH.DeriveKeys(u.suite, ServerAt(u, x, 5)) == Ok(x.keys)
    ensures SH.VerifyClientFinished(u.suite, ServerAt(u, x, 5), x.clientFinished, x.keys) == Ok(ServerAt(u, x, 6))
    ensures SH.BuildServerFinished(u.suite, ServerAt(u, x, 6), 4, x.keys) == Ok((ServerAt(u, x, 7), x.serverFinished))
  {
    hide EcJpakeCodec.EncodeKkpp, EcJpakeCodec.DecodeKkpp, EcJpakeCodec.EncodeKeyExchange,
         EcJpakeCodec.DecodeKeyExchange, Greets, CH.Push, EcJpake.FirstRound, EcJpake.SecondRound, EcJpake.Finish,
         Suite.Lawful;
    PushNext(x, 4);
    PushNext(x, 5);
    PushNext(x, 6);
  }

  lemma CompleteWorks(u: Setup, x: Script)
    requires Complete(u, x)
    ensures Works(u, x)
  {
    hide Concludes, CookieWorks, CH.RecordClientHello, CH.HandleServerHello, CH.HandleServerKeyExchange,
         CH.HandleServerHelloDone, CH.BuildClientKeyExchange, CH.DeriveKeys, CH.BuildClientFinished,
         CH.VerifyServerFinished, SD.Answer, SH.HandleClientKeyExchange, SH.DeriveKeys, SH.VerifyClientFinished,
         SH.BuildServerFinished, ClientAt, ServerAt, EcJpake.FirstRound, EcJpake.SecondRound, Hello.EncodeServerHello,
         Hello.EncodeClientHello, EcJpakeCodec.EncodeKkpp, EcJpakeCodec.DecodeKkpp, EcJpakeCodec.EncodeKeyExchange,
         EcJpakeCodec.DecodeKeyExchange, Suite.Lawful;
    CookieExchanged(u, x);
    ServerHelloHandled(u, x);
    ServerFlightHandled(u, x);
    ClientConcludes(u, x);
    ServerAnswers(u, x);
    ServerConcludes(u, x);
  }

  // ---- Every good setup has a script ----

  lemma FirstRoundsEncode(u: Setup)
    requires u.Good()
    ensures var c := u.suite.curve;
            && EcJpakeCodec.EncodeKkpp(c, u.ClientOne()).Ok? && |EcJpakeCodec.EncodeKkpp(c, u.ClientOne()).value| <= 330
            && EcJpakeCodec.EncodeKkpp(c, u.ServerOne()).Ok? && |EcJpakeCodec.EncodeKkpp(c, u.ServerOne()).value| <= 330
            && EcJpakeCodec.DecodeKkpp(c, EcJpakeCodec.EncodeKkpp(c, u.ClientOne()).value, CH.CLIENT_ID)
               == Ok(u.ClientOne())
            && EcJpakeCodec.DecodeKkpp(c, EcJpakeCodec.EncodeKkpp(c, u.ServerOne()).value, CH.SERVER_ID)
               == Ok(u.ServerOne())
  {
    hide EcJpakeCodec.EncodeKkpp, EcJpakeCodec.DecodeKkpp, EcJpake.FirstRound, EcJpakeCodec.CanonicalKey, Curve.Lawful,
         Cipher.Lawful;
    FirstRoundCanonical(u.suite.curve, u.client, u.v(0), u.v(1));
    FirstRoundCanonical(u.suite.curve, u.server, u.v(2), u.v(3));
  }

  lemma SecondRoundsEncode(u: Setup)
    requires u.Good()
    ensures var c, a, b := u.suite.curve, u.Exchange().ClientTwo(), u.Exchange().ServerTwo();
            && a.Ok? && b.Ok?
            && EcJpakeCodec.EncodeKeyExchange(c, a.value, false).Ok?
            && EcJpakeCodec.EncodeKeyExchange(c, b.value, true).Ok?
            && |EcJpakeCodec.EncodeKeyExchange(c, a.value, false).value| <= 168
            && |EcJpakeCodec.EncodeKeyExchange(c, b.value, true).value| <= 168
            && EcJpakeCodec.DecodeKeyExchange(
                 c, EcJpakeCodec.EncodeKeyExchange(c, a.value, false).value, CH.CLIENT_ID, false) == a
            && EcJpakeCodec.DecodeKeyExchange(
                 c, EcJpakeCodec.EncodeKeyExchange(c, b.value, true).value, CH.SERVER_ID, true) == b
  {
    hide EcJpakeCodec.EncodeKeyExchange, EcJpakeCodec.DecodeKeyExchange, EcJpake.FirstRound, EcJpake.SecondRound,
         EcJpake.FirstRoundVerifies, EcJpake.SecondRoundBase, EcJpakeCodec.CanonicalKey, Curve.Lawful, Cipher.Lawful;
    var h := u.Exchange();
    EcJpake.FirstRoundHonest(h.c, u.client, u.v(0), u.v(1));
    EcJpake.FirstRoundHonest(h.c, u.server, u.v(2), u.v(3));
    EcJpake.BasesHonest(h);
    SecondRoundCanonical(h.c, u.client, h.ClientOne(), h.ServerOne(), u.v(4), h.ClientBase(), false);
    SecondRoundCanonical(h.c, u.server, h.ServerOne(), h.ClientOne(), u.v(5), h.ServerBase(), true);
  }

  lemma KeysAgree(u: Setup, clientTwo: EcJpake.RoundTwo, serverTwo: EcJpake.RoundTwo)
    requires u.Good() && u.Exchange().ClientTwo() == Ok(clientTwo) && u.Exchange().ServerTwo() == Ok(serverTwo)
    ensures var c := u.suite.curve;
            var premaster := EcJpake.Finish(c, u.client, u.ClientOne(), u.ServerOne(), serverTwo);
            premaster.Ok? && EcJpake.Finish(c, u.server, u.ServerOne(), u.ClientOne(), clientTwo) == premaster
  {
    hide EcJpake.FirstRound, EcJpake.SecondRound, EcJpake.SharedPoint, Curve.Lawful, Cipher.Lawful;
    EcJpake.EqualSecretsSucceedExactly(u.Exchange());
  }

  /** `y` differs from `x` at most in its hellos, Finished messages and keys. */
  ghost predicate SameExchange(x: Script, y: Script) {
    && y.kkpp == x.kkpp && y.serverKkpp == x.serverKkpp && y.clientTwo == x.clientTwo && y.serverTwo == x.serverTwo
    && y.serverKeyExchange == x.serverKeyExchange && y.clientKeyExchange == x.clientKeyExchange
  }

  ghost predicate SameHellos(x: Script, y: Script) {
    && y.firstHello == x.firstHello && y.verify == x.verify && y.clientHello == x.clientHello
    && y.serverHello == x.serverHello
  }

  lemma CarriesToo(u: Setup, x: Script, y: Script)
    requires u.suite.curve.order > 0 && Carries(u, x) && SameExchange(x, y)
    ensures Carries(u, y)
  {
    hide EcJpakeCodec.EncodeKeyExchange, EcJpakeCodec.DecodeKeyExchange, EcJpakeCodec.EncodeKkpp,
         EcJpakeCodec.DecodeKkpp, EcJpake.FirstRound, EcJpake.SecondRound;
  }

  lemma GreetsToo(u: Setup, x: Script, y: Script)
    requires Greets(u, x) && SameExchange(x, y) && SameHellos(x, y)
    ensures Greets(u, y)
  {
    hide Hello.EncodeClientHello, Hello.EncodeServerHello, Hello.EncodeHelloVerify, CH.HelloBody;
  }

  lemma GoodLengths(u: Setup)
    requires u.Good()
    ensures u.suite.Lawful() && u.suite.curve.order > 0 && |u.Cookie()| == COOKIE_LEN
  {
    hide Cipher.Lawful, EcJpake.Honest.Valid;
  }

  /** The key exchanges of a script, with hellos and Finished still empty. */
  lemma Exchanges(u: Setup) returns (x: Script)
    requires u.Good()
    ensures u.suite.curve.order > 0 && Kinds(x) && Carries(u, x)
    ensures x.clientFinished.body == x.serverFinished.body == []
  {
    hide EcJpakeCodec.EncodeKeyExchange, EcJpakeCodec.DecodeKeyExchange, EcJpakeCodec.EncodeKkpp,
         EcJpakeCodec.DecodeKkpp, EcJpake.FirstRound, EcJpake.SecondRound, Setup.Good, Suite.Lawful;
    var c := u.suite.curve;
    GoodLengths(u);
    FirstRoundsEncode(u);
    SecondRoundsEncode(u);
    var a, b := u.Exchange().ClientTwo().value, u.Exchange().ServerTwo().value;
    x := Script(EcJpakeCodec.EncodeKkpp(c, u.ClientOne()).value, EcJpakeCodec.EncodeKkpp(c, u.ServerOne()).value, a, b,
                Message(ClientHello, 0, []), Message(HelloVerifyRequest, 0, []), Message(ClientHello, 1, []),
                Message(ServerHello, 1, []),
                Message(ServerKeyExchange, 2, EcJpakeCodec.EncodeKeyExchange(c, b, true).value),
                Message(ServerHelloDone, 3, []),
                Message(ClientKeyExchange, 2, EcJpakeCodec.EncodeKeyExchange(c, a, false).value),
                Message(Finished, 3, []), Message(Finished, 4, []), EmptyKeys());
  }

  lemma HellosEncode(u: Setup, x: Script)
    requires |x.kkpp| <= 330 && |x.serverKkpp| <= 330 && |u.Cookie()| == COOKIE_LEN
    ensures var first, second := Hello.EncodeClientHello(CH.HelloBody(HelloAt(u, x, 0, []))),
                                 Hello.EncodeClientHello(CH.HelloBody(HelloAt(u, x, 1, u.Cookie())));
            var verify := Hello.EncodeHelloVerify(Hello.HelloVerify(Records.DTLS_1_2, u.Cookie()));
            var server := Hello.EncodeServerHello(ServerHelloOf(u, x));
            && first.Ok? && |first.value| <= 1000 && second.Ok? && |second.value| <= 1000
            && verify.Ok? && |verify.value| <= 1000 && server.Ok? && |server.value| <= 1000
  {
    hide Hello.EncodeClientHello, Hello.EncodeServerHello, CH.HelloBody;
    ClientHelloFits(HelloAt(u, x, 0, []));
    ClientHelloFits(HelloAt(u, x, 1, u.Cookie()));
    ServerHelloFits(u, x);
  }

  lemma Opening(u: Setup) returns (x: Script)
    requires u.Good()
    ensures u.suite.curve.order > 0 && Kinds(x) && Carries(u, x) && Greets(u, x)
    ensures x.clientFinished.body == x.serverFinished.body == []
  {
    hide Hello.EncodeClientHello, Hello.EncodeServerHello, Hello.EncodeHelloVerify, CH.HelloBody, Setup.Good,
         Suite.Lawful, Carries;
    var y := Exchanges(u);
    KkppFit(u, y);
    GoodLengths(u);
    HellosEncode(u, y);
    x := y.(firstHello := Message(ClientHello, 0, Hello.EncodeClientHello(CH.HelloBody(HelloAt(u, y, 0, []))).value),
            clientHello :=
              Message(ClientHello, 1, Hello.EncodeClientHello(CH.HelloBody(HelloAt(u, y, 1, u.Cookie()))).value),
            verify := Message(HelloVerifyRequest, 0,
                              Hello.EncodeHelloVerify(Hello.HelloVerify(Records.DTLS_1_2, u.Cookie())).value),
            serverHello := Message(ServerHello, 1, Hello.EncodeServerHello(ServerHelloOf(u, y)).value));
    CarriesToo(u, y, x);
  }

  lemma KkppFit(u: Setup, x: Script)
    requires u.suite.curve.order > 0 && Carries(u, x)
    ensures |x.kkpp| <= 330 && |x.serverKkpp| <= 330
    ensures EcJpakeCodec.EncodeKkpp(u.suite.curve, u.ClientOne()) == Ok(x.kkpp)
    ensures u.Exchange().ClientTwo() == Ok(x.clientTwo) && u.Exchange().ServerTwo() == Ok(x.serverTwo)
  {
  }

  function EmptyKeys(): Keys {
    var iv: FixedIv := [0, 0, 0, 0];
    Keys([], [], [], iv, iv)
  }

  lemma OpeningFits(u: Setup, x: Script)
    requires u.suite.curve.order > 0 && Kinds(x) && Carries(u, x) && Greets(u, x)
    requires |x.clientFinished.body| <= 1000 && |x.serverFinished.body| <= 1000
    ensures x.Sized()
  {
    hide EcJpakeCodec.EncodeKeyExchange, EcJpakeCodec.DecodeKeyExchange, EcJpakeCodec.EncodeKkpp,
         EcJpakeCodec.DecodeKkpp, EcJpake.FirstRound, EcJpake.SecondRound, Hello.EncodeClientHello,
         Hello.EncodeServerHello, Hello.EncodeHelloVerify;
  }

  lemma Retouched(u: Setup, x: Script, y: Script)
    requires u.suite.curve.order > 0 && Carries(u, x) && Greets(u, x) && SameExchange(x, y) && SameHellos(x, y)
    requires Kinds(y) && |y.clientFinished.body| <= 1000 && |y.serverFinished.body| <= 1000
    ensures Carries(u, y) && Greets(u, y) && y.Sized()
  {
    hide Carries, Greets;
    CarriesToo(u, x, y);
    GreetsToo(u, x, y);
    OpeningFits(u, y);
  }

  /** Every good setup has a script. */
  lemma ScriptFor(u: Setup) returns (x: Script)
    requires u.Good()
    ensures Works(u, x) && EcJpakeCodec.EncodeKkpp(u.suite.curve, u.ClientOne()) == Ok(x.kkpp)
  {
    hide Carries, Greets, EcJpake.FirstRound, EcJpake.SecondRound, EcJpake.Finish, Setup.Good, Curve.Lawful,
         Cipher.Lawful, Works, PackedAll;
    GoodLengths(u);
    var o := Opening(u);
    KkppFit(u, o);
    KeysAgree(u, o.clientTwo, o.serverTwo);
    var premaster := EcJpake.Finish(u.suite.curve, u.client, u.ClientOne(), u.ServerOne(), o.serverTwo).value;
    var w := o.(keys := u.suite.keysFrom(premaster, u.clientRandom, u.serverRandom));
    Retouched(u, o, w);
    var y := w.(clientFinished := Message(Finished, 3, u.suite.verifyData(w.keys.master, S.Client, w.Transcript(5))));
    Retouched(u, w, y);
    x := y.(serverFinished := Message(Finished, 4, u.suite.verifyData(w.keys.master, S.Server, y.Transcript(6))));
    Retouched(u, w, x);
    assert x.Canonical()[..5] == w.Canonical()[..5] && x.Canonical()[..6] == y.Canonical()[..6];
    CompleteWorks(u, x);
  }
}
