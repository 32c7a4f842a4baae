/** DTLS handshake message framing: the fragment header, splitting into
    fragments, messages packed into a record, and the transcript form that the
    Finished hashes cover (sections 4.2.2, 4.2.3 and 4.2.6 of RFC 6347). */
module Framing {
  import opened Wire
  import Records

  const MAX_U24 := 0xff_ffff
  const FRAGMENT_HEADER_LEN := 12

  datatype Kind =
    | HelloRequest | ClientHello | ServerHello | HelloVerifyRequest | Certificate | ServerKeyExchange
    | CertificateRequest | ServerHelloDone | CertificateVerify | ClientKeyExchange | Finished

  function KindByte(k: Kind): byte {
    match k
    case HelloRequest => 0
    case ClientHello => 1
    case ServerHello => 2
    case HelloVerifyRequest => 3
    case Certificate => 11
    case ServerKeyExchange => 12
    case CertificateRequest => 13
    case ServerHelloDone => 14
    case CertificateVerify => 15
    case ClientKeyExchange => 16
    case Finished => 20
  }

  function KindOf(b: byte): Result<Kind> {
    match b
    case 0 => Ok(HelloRequest)
    case 1 => Ok(ClientHello)
    case 2 => Ok(ServerHello)
    case 3 => Ok(HelloVerifyRequest)
    case 11 => Ok(Certificate)
    case 12 => Ok(ServerKeyExchange)
    case 13 => Ok(CertificateRequest)
    case 14 => Ok(ServerHelloDone)
    case 15 => Ok(CertificateVerify)
    case 16 => Ok(ClientKeyExchange)
    case 20 => Ok(Finished)
    case _ => Err
  }

  datatype Message = Message(kind: Kind, messageSeq: u16, body: bytes)

  datatype FragmentHeader =
    FragmentHeader(kind: Kind, length: nat, messageSeq: u16, offset: nat, fragmentLength: nat)
  {
    predicate Valid() {
      && length <= MAX_U24 && offset <= MAX_U24 && fragmentLength <= MAX_U24
      && offset + fragmentLength <= length
    }
  }

  datatype Fragment = Fragment(header: FragmentHeader, data: bytes)

  function EncodeFragmentHeader(h: FragmentHeader): (r: Result<bytes>)
    ensures r.Ok? ==> |r.value| == FRAGMENT_HEADER_LEN
  {
    if !h.Valid() then Err
    else Ok([KindByte(h.kind)] + ToBytes(h.length, 3) + U16Bytes(h.messageSeq)
            + ToBytes(h.offset, 3) + ToBytes(h.fragmentLength, 3))
  }

  function ParseFragmentHeader(s: bytes): (r: Result<FragmentHeader>)
    ensures r.Ok? ==> |s| >= FRAGMENT_HEADER_LEN && r.value.Valid()
  {
    if |s| < FRAGMENT_HEADER_LEN then Err else
    var kind :- KindOf(s[0]);
    var h := FragmentHeader(kind, FromBytes(s[1..4]), ReadU16(s[4..6]), FromBytes(s[6..9]), FromBytes(s[9..12]));
    if h.Valid() then Ok(h) else Err
  }

  function EncodeFragment(f: Fragment): Result<bytes> {
    if |f.data| != f.header.fragmentLength then Err else
    var header :- EncodeFragmentHeader(f.header);
    Ok(header + f.data)
  }

  function ParseFragment(s: bytes): (r: Result<Fragment>)
    ensures r.Ok? ==> |r.value.data| == r.value.header.fragmentLength
                      && FRAGMENT_HEADER_LEN + |r.value.data| <= |s|
  {
    var header :- ParseFragmentHeader(s);
    var end := FRAGMENT_HEADER_LEN + header.fragmentLength;
    if |s| < end then Err else Ok(Fragment(header, s[FRAGMENT_HEADER_LEN..end]))
  }

  // ---- Splitting a message ----

  /** The fragment of `m` that carries `m.body[from..to]`. */
  function Slice(m: Message, from: nat, to: nat): Fragment
    requires from <= to <= |m.body|
  {
    Fragment(FragmentHeader(m.kind, |m.body|, m.messageSeq, from, to - from), m.body[from..to])
  }

  function SlicesFrom(m: Message, size: nat, from: nat): (fragments: seq<Fragment>)
    requires size > 0 && from <= |m.body|
    decreases |m.body| - from
  {
    if from == |m.body| then [] else
    var to := if |m.body| - from <= size then |m.body| else from + size;
    [Slice(m, from, to)] + SlicesFrom(m, size, to)
  }

  /** `fragment`: an empty body still produces one empty fragment. */
  function Fragments(m: Message, size: nat): Result<seq<Fragment>> {
    if size == 0 || |m.body| > MAX_U24 then Err
    else if m.body == [] then Ok([Slice(m, 0, 0)])
    else Ok(SlicesFrom(m, size, 0))
  }

  // ---- Whole messages ----

  function Encode(m: Message): Result<bytes> {
    var fragments :- Fragments(m, if m.body == [] then 1 else |m.body|);
    if fragments == [] then Err else EncodeFragment(fragments[0])
  }

  /** The single-fragment form that enters the transcript. */
  function TranscriptBytes(m: Message): Result<bytes> {
    var header :- EncodeFragmentHeader(FragmentHeader(m.kind, |m.body|, m.messageSeq, 0, |m.body|));
    Ok(header + m.body)
  }

  /** One unfragmented message off the front of a record payload. */
  function ParseMessage(s: bytes): (r: Result<(Message, bytes)>)
    ensures r.Ok? ==> |r.value.1| < |s|
  {
    var f :- ParseFragment(s);
    if f.header.offset != 0 || f.header.fragmentLength != f.header.length then Err
    else Ok((Message(f.header.kind, f.header.messageSeq, f.data), s[FRAGMENT_HEADER_LEN + |f.data|..]))
  }

  function Unpacked(s: bytes): Result<seq<Message>>
    decreases |s|
  {
    if s == [] then Ok([]) else
    var (message, rest) :- ParseMessage(s);
    var messages :- Unpacked(rest);
    Ok([message] + messages)
  }

  /** `parse_unfragmented_handshake_messages` as a function of the record. */
  function Messages(record: Records.Record): Result<seq<Message>> {
    if record.header.contentType != Records.Handshake then Err else Unpacked(record.payload)
  }

  method ParseMessages(record: Records.Record) returns (r: Result<seq<Message>>)
    ensures r == Messages(record)
  {
    if record.header.contentType != Records.Handshake {
      return Err;
    }
    var rest := record.payload;
    var messages: seq<Message> := [];
    PrependNothing(Unpacked(rest));
    while rest != []
      invariant Unpacked(record.payload) == Prepended(messages, Unpacked(rest))
      decreases |rest|
    {
      var next := ParseMessage(rest);
      if next.Err? {
        return Err;
      }
      PrependTwice(messages, [next.value.0], Unpacked(next.value.1));
      messages := messages + [next.value.0];
      rest := next.value.1;
    }
    assert messages + [] == messages;
    r := Ok(messages);
  }

  /** `parse_unfragmented_handshake_record`: exactly one message of one kind. */
  function SingleMessage(record: Records.Record, kind: Kind): Result<Message> {
    if record.header.contentType != Records.Handshake then Err else
    var f :- ParseFragment(record.payload);
    if FRAGMENT_HEADER_LEN + |f.data| != |record.payload| || f.header.kind != kind
       || f.header.offset != 0 || f.header.fragmentLength != f.header.length then Err
    else Ok(Message(f.header.kind, f.header.messageSeq, f.data))
  }

  ghost predicate Encodable(m: Message) {
    |m.body| <= MAX_U24
  }

  /** The bytes of a message that fits the 24-bit length field. */
  ghost function Packed(m: Message): bytes
    requires Encodable(m)
  {
    TranscriptBytes(m).value
  }

  ghost function PackedAll(messages: seq<Message>): bytes
    requires forall i :: 0 <= i < |messages| ==> Encodable(messages[i])
  {
    if messages == [] then [] else Packed(messages[0]) + PackedAll(messages[1..])
  }

  /** The wire form of a message is its transcript form. */
  lemma EncodeIsTranscriptForm(m: Message)
    ensures Encode(m) == TranscriptBytes(m)
    ensures Encodable(m) <==> Encode(m).Ok?
  {
    if Encodable(m) && m.body != [] {
      assert SlicesFrom(m, |m.body|, 0)[0] == Slice(m, 0, |m.body|);
      assert m.body[0..|m.body|] == m.body;
    }
  }

  lemma FragmentHeaderRoundTrip(h: FragmentHeader, rest: bytes)
    requires h.Valid()
    ensures ParseFragmentHeader(EncodeFragmentHeader(h).value + rest) == Ok(h)
  {
    var s := EncodeFragmentHeader(h).value + rest;
    assert s[1..4] == ToBytes(h.length, 3);
    assert s[4..6] == U16Bytes(h.messageSeq);
    assert s[6..9] == ToBytes(h.offset, 3);
    assert s[9..12] == ToBytes(h.fragmentLength, 3);
    Pow256Values();
    ReadBack(h.length, 3);
    ReadBack(h.offset, 3);
    ReadBack(h.fragmentLength, 3);
    U16RoundTrip(h.messageSeq);
  }

  lemma FragmentRoundTrip(f: Fragment, rest: bytes)
    requires EncodeFragment(f).Ok?
    ensures ParseFragment(EncodeFragment(f).value + rest) == Ok(f)
  {
    FragmentHeaderRoundTrip(f.header, f.data + rest);
    var s := EncodeFragment(f).value + rest;
    assert s == EncodeFragmentHeader(f.header).value + (f.data + rest);
    assert s[FRAGMENT_HEADER_LEN..FRAGMENT_HEADER_LEN + |f.data|] == f.data;
  }

  lemma MessageRoundTrip(m: Message, rest: bytes)
    requires Encodable(m)
    ensures ParseMessage(Packed(m) + rest) == Ok((m, rest))
  {
    var f := Fragment(FragmentHeader(m.kind, |m.body|, m.messageSeq, 0, |m.body|), m.body);
    FragmentRoundTrip(f, rest);
    assert EncodeFragment(f).value == Packed(m);
    var s := Packed(m) + rest;
    assert s[FRAGMENT_HEADER_LEN + |m.body|..] == rest;
  }

  /** Messages packed back to back are read back exactly. */
  lemma {:induction false} UnpackAfterPack(messages: seq<Message>)
    requires forall i :: 0 <= i < |messages| ==> Encodable(messages[i])
    ensures Unpacked(PackedAll(messages)) == Ok(messages)
  {
    if messages != [] {
      MessageRoundTrip(messages[0], PackedAll(messages[1..]));
      UnpackAfterPack(messages[1..]);
      assert messages == [messages[0]] + messages[1..];
    }
  }

  /** A record holding one encoded message yields that message both ways. */
  lemma SingleRoundTrip(m: Message, record: Records.Record)
    requires Encodable(m)
    requires record.header.contentType == Records.Handshake && record.payload == Packed(m)
    ensures Messages(record) == Ok([m])
    ensures SingleMessage(record, m.kind) == Ok(m)
  {
    assert PackedAll([m]) == Packed(m) + [];
    assert Packed(m) + [] == Packed(m);
    UnpackAfterPack([m]);
    var f := Fragment(FragmentHeader(m.kind, |m.body|, m.messageSeq, 0, |m.body|), m.body);
    assert EncodeFragment(f).value == Packed(m);
    FragmentRoundTrip(f, []);
  }

  /** A transcript determines the messages pushed into it. */
  lemma TranscriptInjective(a: seq<Message>, b: seq<Message>)
    requires forall i :: 0 <= i < |a| ==> Encodable(a[i])
    requires forall i :: 0 <= i < |b| ==> Encodable(b[i])
    ensures PackedAll(a) == PackedAll(b) <==> a == b
  {
    UnpackAfterPack(a);
    UnpackAfterPack(b);
  }

  /** Pushing one more message extends the transcript by its packed form. */
  lemma {:induction false} PackedAllPush(messages: seq<Message>, m: Message)
    requires forall i :: 0 <= i < |messages| ==> Encodable(messages[i])
    requires Encodable(m)
    ensures PackedAll(messages + [m]) == PackedAll(messages) + Packed(m)
  {
    if messages == [] {
      assert PackedAll([m]) == Packed(m) + PackedAll([]);
    } else {
      assert (messages + [m])[1..] == messages[1..] + [m];
      PackedAllPush(messages[1..], m);
    }
  }
}
