/** A run in which one protected record holds two Finished messages, and the
    session reports a completed handshake for each. */
module JoinerExample {
  import opened Wire
  import opened Records
  import opened Framing
  import opened Suites
  import opened Protection
  import opened HandshakeScript
  import opened HandshakeClient
  import opened HandshakeServer
  import opened Joiner
  import opened JoinerRuns
  import opened JoinerCompletions
  import CH = ClientHandshakes
  import SH = ServerHandshakes
  import SD = ServerDriver
  import Hello
  import HandshakeExample
  import Curves
  import Replay
  import S = Session

  /** A session for the server of a setup. */
  ghost function NewSession(u: Setup): Joiner
    requires u.suite.curve.order > 0
  {
    New(SH.ServerHandshake(u.server, u.ServerOne(), None, None, u.serverRandom, None, []), u.cookieKey)
  }

  ghost function EnvOf(u: Setup): Env {
    Env(u.suite, _ => true)
  }

  /** A second Finished, over the transcript with both first ones. */
  ghost function SecondFinished(u: Setup, x: Script): Message
    requires Fits(u, x)
  {
    Message(Finished, 4, u.suite.verifyData(x.keys.master, S.Client, x.Transcript(7)))
  }

  // ---- One record after the other ----

  lemma PlaintextAlone(e: Env, s: Joiner, r: Record, m: Message, input: Input)
    requires e.suite.curve.order > 0 && Hs(r, m)
    ensures OneRecord(e, s, false, r, input) == Plaintext(e, s, m, r.header.sequence, input.v)
  {
    hide Plaintext, Messages, Packed;
    HsReads(r, m);
    assert [m][1..] == [];
    var o := Plaintext(e, s, m, r.header.sequence, input.v);
    assert Plaintexts(e, o.state, [], r.header.sequence, input.v) == Quiet(o.state);
    assert o.log + [] == o.log;
  }

  /** The cookie-bearing ClientHello opens the session. */
  lemma HelloOpens(u: Setup, x: Script, s: Joiner, sequence: u64)
    requires Works(u, x) && s.phase == AwaitingClientHello && s.handshake == ServerAt(u, x, 0)
             && s.cookieKey == u.cookieKey
    ensures var o := Plaintext(EnvOf(u), s, x.clientHello, sequence, u.v(5));
            && o.ok && Aside(o.log)
            && o.state == s.(handshake := ServerAt(u, x, 4), clientHello := Some(x.clientHello),
                             flight := o.state.flight, epoch0 := o.state.epoch0, phase := AwaitingClientFlight)
  {
    hide ClientWorks, Hello.DecodeClientHello, Hello.EncodeHelloVerify, Hello.DecodeHelloVerify, SD.FlightOf,
         CH.NextClientHello, ServerAt, Suite.Lawful, Script.Sized, SD.Answer, SH.HandleClientKeyExchange, SH.DeriveKeys,
         SH.VerifyClientFinished, SH.BuildServerFinished, Packed;
    assert Recall(Laws) && Recall(CookieSteps) && Recall(ServerSteps);
    FlightBuilt(x, sequence);
  }

  lemma KeysDerived(u: Setup, x: Script, s: Joiner, sequence: u64)
    requires Works(u, x) && s.phase == AwaitingClientFlight && s.handshake == ServerAt(u, x, 4) && s.keyExchange == None
    ensures Plaintext(EnvOf(u), s, x.clientKeyExchange, sequence, u.v(5))
            == Quiet(s.(handshake := ServerAt(u, x, 5), keys := Some(x.keys), keyExchange := Some(x.clientKeyExchange)))
  {
    hide ClientWorks, CookieWorks, ServerAt, Suite.Lawful, Script.Sized, SD.Answer, SH.HandleClientKeyExchange,
         SH.DeriveKeys, SH.VerifyClientFinished, SH.BuildServerFinished;
    assert Recall(Laws) && Recall(ServerSteps);
  }

  // ---- Two Finished messages ----

  lemma FlightSent(e: Env, s: Joiner)
    requires e.suite.cipher.Lawful() && s.keys.Some? && s.epoch1 < 2 && |s.finished| <= 1100
    ensures var (t, flight) := FinishedFlight(e.suite.cipher, s);
            flight.Ok? && t == s.(epoch0 := t.epoch0, epoch1 := s.epoch1 + 1)
  {
    hide Protect;
    ProtectSucceedsExactly(e.suite.cipher, Handshake, 1, s.epoch1, s.keys.value.serverKey, s.keys.value.serverIv,
                           s.finished);
  }

  /** A Finished that verifies, answered with one that can be built. */
  lemma FinishedAnsweredOnce(
    e: Env, s: Joiner, m: Message, h: SH.ServerHandshake, after: SH.ServerHandshake, f: Message)
    requires e.suite.cipher.Lawful() && m.kind == Finished && s.keys.Some? && s.clientHello.Some? && s.epoch1 < 2
    requires SH.VerifyClientFinished(e.suite, s.handshake, m, s.keys.value) == Ok(h)
    requires SH.BuildServerFinished(e.suite, h, (s.clientHello.value.messageSeq + 3) % 0x1_0000, s.keys.value)
             == Ok((after, f))
    requires |f.body| <= 1000
    ensures var o := ClientFinished(e, s, m);
            && o.ok && o.state == s.(handshake := after, finished := o.state.finished, phase := Connected,
                                     epoch0 := o.state.epoch0, epoch1 := s.epoch1 + 1)
  {
    hide SH.VerifyClientFinished, SH.BuildServerFinished, Encode, FinishedFlight, Packed;
    HsBuilt(f, 0);
    FlightSent(e, s.(handshake := after, finished := Packed(f)));
  }

  lemma SecondVerifies(u: Setup, x: Script)
    requires Works(u, x)
    ensures |SecondFinished(u, x).body| <= 1000
    ensures var v := SH.VerifyClientFinished(u.suite, ServerAt(u, x, 7), SecondFinished(u, x), x.keys);
            && v.Ok?
            && var b := SH.BuildServerFinished(u.suite, v.value, 4, x.keys); b.Ok? && |b.value.1.body| <= 1000
  {
    hide ClientWorks, CookieWorks, ServerWorks, Curves.Curve.Lawful, Cipher.Lawful, Script.Sized, PackedAll;
    assert Recall(Laws);
    EncodeIsTranscriptForm(SecondFinished(u, x));
    var h := SH.VerifyClientFinished(u.suite, ServerAt(u, x, 7), SecondFinished(u, x), x.keys).value;
    EncodeIsTranscriptForm(Message(Finished, 4, u.suite.verifyData(x.keys.master, S.Server, h.transcript)));
  }

  lemma BothAnswered(u: Setup, x: Script, s: Joiner)
    requires Works(u, x) && s.handshake == ServerAt(u, x, 5) && s.keys == Some(x.keys) && s.epoch1 == 0
    requires s.clientHello == Some(x.clientHello)
    ensures ClientFinisheds(EnvOf(u), s, [x.clientFinished, SecondFinished(u, x)]).ok
  {
    hide ClientWorks, CookieWorks, ServerAt, Curves.Curve.Lawful, Cipher.Lawful, Script.Sized, ClientFinished,
         SD.Answer, SH.HandleClientKeyExchange, SH.DeriveKeys, SH.VerifyClientFinished, SH.BuildServerFinished,
         SecondFinished;
    assert Recall(Laws) && Recall(ServerSteps);
    SizesOf(x);
    var e, m := EnvOf(u), SecondFinished(u, x);
    FinishedAnsweredOnce(e, s, x.clientFinished, ServerAt(u, x, 6), ServerAt(u, x, 7), x.serverFinished);
    var t := ClientFinished(e, s, x.clientFinished).state;
    SecondVerifies(u, x);
    SecondIsFinished(u, x);
    var h := SH.VerifyClientFinished(u.suite, ServerAt(u, x, 7), m, x.keys).value;
    var built := SH.BuildServerFinished(u.suite, h, 4, x.keys).value;
    FinishedAnsweredOnce(e, t, m, h, built.0, built.1);
    assert [x.clientFinished, m][1..] == [m] && [m][1..] == [];
    assert ClientFinisheds(e, ClientFinished(e, t, m).state, []).ok;
    assert ClientFinisheds(e, t, [m]).ok;
  }

  lemma SecondIsFinished(u: Setup, x: Script)
    requires Fits(u, x)
    ensures SecondFinished(u, x).kind == Finished
  {
  }

  /** The record that holds both. */
  lemma BothInOneRecord(u: Setup, x: Script) returns (r: Record)
    requires Works(u, x)
    ensures r.header.epoch == 1 && r.header.contentType == Handshake && r.header.sequence == 0
    ensures |r.payload| == r.header.length
    ensures var text := Open(u.suite.cipher, r, x.keys.clientKey, x.keys.clientIv);
            && text.Ok?
            && var plain := NewRecord(Handshake, 1, 0, text.value);
            plain.Ok? && Messages(plain.value) == Ok([x.clientFinished, SecondFinished(u, x)])
  {
    hide ClientWorks, CookieWorks, ServerWorks, Curves.Curve.Lawful, Cipher.Lawful, Script.Sized, Packed, PackedAll,
         Open, SecondFinished, Protect, Unpacked;
    assert Recall(Laws);
    SizesOf(x);
    SecondVerifies(u, x);
    var a, b := x.clientFinished, SecondFinished(u, x);
    var text := TwoPacked(a, b);
    ProtectedLength(u.suite.cipher, x.keys.clientKey, x.keys.clientIv, text);
    ProtectSucceedsExactly(u.suite.cipher, Handshake, 1, 0, x.keys.clientKey, x.keys.clientIv, text);
    OpenAfterProtect(u.suite.cipher, Handshake, 1, 0, x.keys.clientKey, x.keys.clientIv, text);
    r := Protect(u.suite.cipher, Handshake, 1, 0, x.keys.clientKey, x.keys.clientIv, text).value;
  }

  lemma TwoPacked(a: Message, b: Message) returns (text: bytes)
    requires |a.body| <= 1000 && |b.body| <= 1000
    ensures |text| <= 2200 && Unpacked(text) == Ok([a, b])
  {
    hide Packed, Unpacked;
    HsBuilt(a, 0);
    HsBuilt(b, 0);
    assert [a, b][1..] == [b] && [b][1..] == [];
    assert PackedAll([b]) == Packed(b) + [];
    text := PackedAll([a, b]);
    UnpackAfterPack([a, b]);
  }

  lemma ProtectedLength(c: Cipher, key: bytes, iv: FixedIv, text: bytes)
    ensures var r := Protect(c, Handshake, 1, 0, key, iv, text); r.Ok? ==> |r.value.payload| == r.value.header.length
  {
    hide Nonce;
  }

  lemma BothReported(u: Setup, x: Script, s: Joiner, r: Record)
    requires Works(u, x) && s.handshake == ServerAt(u, x, 5) && s.keys == Some(x.keys) && s.epoch1 == 0
    requires s.clientHello == Some(x.clientHello) && s.phase == AwaitingClientFlight && s.sawChangeCipherSpec
    requires s.window == Replay.Fresh
    requires var text := Open(u.suite.cipher, r, x.keys.clientKey, x.keys.clientIv);
             && text.Ok?
             && var plain := NewRecord(Handshake, 1, 0, text.value);
             plain.Ok? && Messages(plain.value) == Ok([x.clientFinished, SecondFinished(u, x)])
    ensures var o := Encrypted(EnvOf(u), s, r);
            o.ok && [Unsealed([x.clientFinished, SecondFinished(u, x)])] <= o.log
  {
    hide Works, ServerAt, Open, Messages, ClientFinisheds, SecondFinished;
    WorksFits(u, x);
    BothAnswered(u, x, s.(window := Replay.MarkSeen(s.window, r.header.sequence)));
  }

  // ---- The whole run ----

  lemma NextRecord(e: Env, s: Joiner, records: seq<Record>, input: Input)
    requires e.suite.curve.order > 0 && records != []
    requires OneRecord(e, s, false, records[0], input).ok
    ensures var o := OneRecord(e, s, false, records[0], input);
            var rest := AllRecords(e, o.state, false, records[1..], input);
            var all := AllRecords(e, s, false, records, input);
            all.ok == rest.ok && all.log == o.log + rest.log
  {
    hide OneRecord;
  }

  /** ClientHello, ClientKeyExchange, ChangeCipherSpec and both Finished. */
  lemma FourRecords(u: Setup, x: Script) returns (records: seq<Record>)
    requires Works(u, x)
    ensures |records| == 4 && Fits48(records) && Encoded(records).Ok?
    ensures Hs(records[0], x.clientHello) && Hs(records[1], x.clientKeyExchange) && IsCcs(records[2])
    ensures records[3].header.epoch == 1 && records[3].header.contentType == Handshake
    ensures var text := Open(u.suite.cipher, records[3], x.keys.clientKey, x.keys.clientIv);
            && text.Ok?
            && var plain := NewRecord(Handshake, 1, 0, text.value);
            plain.Ok? && Messages(plain.value) == Ok([x.clientFinished, SecondFinished(u, x)])
  {
    hide Works, Packed, Open, Messages, SecondFinished, EncodeHeader;
    WorksFits(u, x);
    SizesOf(x);
    HsBuilt(x.clientHello, 0);
    HsBuilt(x.clientKeyExchange, 1);
    var last := BothInOneRecord(u, x);
    var a := NewRecord(Handshake, 0, 0, Packed(x.clientHello)).value;
    var b := NewRecord(Handshake, 0, 1, Packed(x.clientKeyExchange)).value;
    var c := NewRecord(ChangeCipherSpec, 0, 2, [1]).value;
    records := [a, b, c, last];
    assert records[1..] == [b, c, last] && [b, c, last][1..] == [c, last] && [c, last][1..] == [last]
           && [last][1..] == [];
    assert Encoded([last]).Ok?;
    assert Encoded([c, last]).Ok?;
    assert Encoded([b, c, last]).Ok?;
  }

  lemma FourRecordsRead(u: Setup, x: Script, s: Joiner, records: seq<Record>, input: Input)
    requires Works(u, x) && Fits(u, x) && input.v == u.v(5)
    requires IsNew(s) && s.handshake == ServerAt(u, x, 0) && s.cookieKey == u.cookieKey
    requires |records| == 4
    requires Hs(records[0], x.clientHello) && Hs(records[1], x.clientKeyExchange) && IsCcs(records[2])
    requires records[3].header.epoch == 1 && records[3].header.contentType == Handshake
    requires var text := Open(u.suite.cipher, records[3], x.keys.clientKey, x.keys.clientIv);
             && text.Ok?
             && var plain := NewRecord(Handshake, 1, 0, text.value);
             plain.Ok? && Messages(plain.value) == Ok([x.clientFinished, SecondFinished(u, x)])
    ensures var o := AllRecords(EnvOf(u), s, false, records, input);
            o.ok && Unsealed([x.clientFinished, SecondFinished(u, x)]) in o.log
  {
    hide Works, ServerAt, Hs, Open, Messages, SecondFinished, Plaintext, Plaintexts, Encrypted, AllRecords, Aside;
    var e := EnvOf(u);
    PlaintextAlone(e, s, records[0], x.clientHello, input);
    HelloOpens(u, x, s, records[0].header.sequence);
    NextRecord(e, s, records, input);
    var s1 := OneRecord(e, s, false, records[0], input).state;
    PlaintextAlone(e, s1, records[1], x.clientKeyExchange, input);
    KeysDerived(u, x, s1, records[1].header.sequence);
    NextRecord(e, s1, records[1..], input);
    var s2 := OneRecord(e, s1, false, records[1], input).state;
    assert records[1..][1..] == records[2..];
    NextRecord(e, s2, records[2..], input);
    var s3 := s2.(sawChangeCipherSpec := true);
    assert OneRecord(e, s2, false, records[2], input) == Quiet(s3);
    assert records[2..][1..] == [records[3]];
    BothReported(u, x, s3, records[3]);
    NextRecord(e, s3, [records[3]], input);
    assert [records[3]][1..] == [];
    NoMoreRecords(e, OneRecord(e, s3, false, records[3], input).state, input);
    var o := Encrypted(e, s3, records[3]);
    assert o.log[0] == Unsealed([x.clientFinished, SecondFinished(u, x)]);
  }

  lemma NoMoreRecords(e: Env, s: Joiner, input: Input)
    requires e.suite.curve.order > 0
    ensures AllRecords(e, s, false, [], input) == Quiet(s)
  {
  }

  /** For every good setup one payload makes a new session report two completed
      handshakes. */
  lemma TwoFinishedReportTwice(u: Setup) returns (input: Input)
    requires u.Good()
    ensures u.suite.curve.order > 0 && IsNew(NewSession(u))
    ensures var o := Run(EnvOf(u), NewSession(u), [input]); o.ok && Count(IsDone, o.log) > 1
  {
    hide Setup.Good, Works, Hs, Open, Messages, SecondFinished, AllRecords, Encoded, Parsed, PackedAll, Count,
         SingleFinished;
    var x := ScriptFor(u);
    WorksFits(u, x);
    var records := FourRecords(u, x);
    var e, s := EnvOf(u), NewSession(u);
    input := Input(Encoded(records).value, _ => true, u.v(5));
    DatagramRoundTripExactly(records);
    assert x.Canonical()[..0] == [];
    NoTranscript();
    assert s.handshake == ServerAt(u, x, 0);
    FourRecordsRead(u, x, s, records, input);
    var all := AllRecords(e, s, false, records, input);
    assert Received(e, s, input) == Then(Quiet(s), all);
    assert [input][..0] == [];
    RunNone(e, s);
    var o := Run(e, s, [input]);
    assert o == Then(Quiet(s), Then(Quiet(s), all));
    assert o.log == all.log;
    CompletedOnceExactly(e, s, [input]);
    NotSingle(o.log, [x.clientFinished, SecondFinished(u, x)]);
    TwoAreTwo(u, x);
  }

  lemma NoTranscript()
    ensures PackedAll([]) == []
  {
  }

  lemma RunNone(e: Env, s: Joiner)
    requires e.suite.curve.order > 0
    ensures Run(e, s, []) == Quiet(s)
  {
  }

  lemma NotSingle(log: seq<Note>, messages: seq<Message>)
    requires Unsealed(messages) in log
    ensures FinishedIn(messages) > 1 ==> !SingleFinished(log)
  {
  }

  lemma TwoAreTwo(u: Setup, x: Script)
    requires Works(u, x)
    ensures FinishedIn([x.clientFinished, SecondFinished(u, x)]) == 2
  {
    hide ClientWorks, ServerWorks, CookieWorks, Suite.Lawful, Script.Sized, PackedAll;
    assert Recall(Laws);
    var a, b := x.clientFinished, SecondFinished(u, x);
    assert [a, b][1..] == [b] && [b][1..] == [];
    assert FinishedIn([b]) == 1;
  }

  /** Such a run exists. */
  lemma CompletedTwice() returns (e: Env, s: Joiner, inputs: seq<Input>)
    ensures e.suite.curve.order > 0 && IsNew(s)
    ensures Run(e, s, inputs).ok && Count(IsDone, Run(e, s, inputs).log) > 1
  {
    hide Run, Count;
    var u := HandshakeExample.GoodSetupExists();
    var input := TwoFinishedReportTwice(u);
    e, s, inputs := EnvOf(u), NewSession(u), [input];
  }
}
