/** ClientHello, HelloVerifyRequest and ServerHello bodies, their TLS extension
    lists, and the client's cookie-retry state. */
module Hello {
  import opened Wire
  import Records

  const ECJPAKE_AES_128_CCM_8: u16 := 0xc0ff
  const EMPTY_RENEGOTIATION_INFO: u16 := 0x00ff
  const NULL_COMPRESSION: byte := 0
  const SUPPORTED_GROUPS: u16 := 10
  const MAX_FRAGMENT_LENGTH: u16 := 1
  const EC_POINT_FORMATS: u16 := 11
  const SIGNATURE_ALGORITHMS: u16 := 13
  const ECJPAKE_KKPP: u16 := 256

  type Random = s: bytes | |s| == 32 witness seq(32, _ => 0)

  datatype Extension = Extension(kind: u16, data: bytes)

  datatype ClientHello = ClientHello(
    random: Random, sessionId: bytes, cookie: bytes, cipherSuites: seq<u16>,
    compressionMethods: bytes, extensions: seq<Extension>)

  datatype HelloVerify = HelloVerify(version: u16, cookie: bytes)

  datatype ServerHello = ServerHello(
    random: Random, sessionId: bytes, cipherSuite: u16, compressionMethod: byte, extensions: seq<Extension>)

  // ---- Reading from the front of the remaining bytes ----

  function Take(s: bytes, n: nat): (r: Result<(bytes, bytes)>)
    ensures r.Ok? ==> |r.value.0| == n && |r.value.1| == |s| - n
  {
    if |s| < n then Err else Ok((s[..n], s[n..]))
  }

  function TakeU8(s: bytes): (r: Result<(byte, bytes)>)
    ensures r.Ok? ==> |r.value.1| < |s|
  {
    var (head, rest) :- Take(s, 1);
    Ok((head[0], rest))
  }

  function TakeU16(s: bytes): (r: Result<(u16, bytes)>)
    ensures r.Ok? ==> |r.value.1| < |s|
  {
    var (head, rest) :- Take(s, 2);
    Ok((ReadU16(head), rest))
  }

  function TakeVec8(s: bytes): Result<(bytes, bytes)> {
    var (n, rest) :- TakeU8(s);
    Take(rest, n)
  }

  function TakeVec16(s: bytes): (r: Result<(bytes, bytes)>)
    ensures r.Ok? ==> |r.value.1| < |s|
  {
    var (n, rest) :- TakeU16(s);
    Take(rest, n)
  }

  function Vec8(data: bytes): bytes
    requires |data| < 0x100
  {
    [|data|] + data
  }

  function Vec16(data: bytes): bytes
    requires |data| < 0x1_0000
  {
    U16Bytes(|data|) + data
  }

  lemma TakeBack(data: bytes, rest: bytes)
    ensures Take(data + rest, |data|) == Ok((data, rest))
  {
    assert (data + rest)[..|data|] == data && (data + rest)[|data|..] == rest;
  }

  lemma TakeU16Back(n: u16, rest: bytes)
    ensures TakeU16(U16Bytes(n) + rest) == Ok((n, rest))
  {
    TakeBack(U16Bytes(n), rest);
    U16RoundTrip(n);
  }

  lemma TakeU8Back(b: byte, rest: bytes)
    ensures TakeU8([b] + rest) == Ok((b, rest))
  {
    TakeBack([b], rest);
  }

  lemma TakeVec8Back(data: bytes, rest: bytes)
    requires |data| < 0x100
    ensures TakeVec8(Vec8(data) + rest) == Ok((data, rest))
  {
    assert Vec8(data) + rest == [|data|] + (data + rest);
    TakeU8Back(|data|, data + rest);
    TakeBack(data, rest);
  }

  lemma TakeVec16Back(data: bytes, rest: bytes)
    requires |data| < 0x1_0000
    ensures TakeVec16(Vec16(data) + rest) == Ok((data, rest))
  {
    assert Vec16(data) + rest == U16Bytes(|data|) + (data + rest);
    TakeU16Back(|data|, data + rest);
    TakeBack(data, rest);
  }

  // ---- Extension lists ----

  function ExtensionBytes(extensions: seq<Extension>): Result<bytes> {
    if extensions == [] then Ok([]) else
    var e := extensions[0];
    if |e.data| >= 0x1_0000 then Err else
    var rest :- ExtensionBytes(extensions[1..]);
    Ok(U16Bytes(e.kind) + Vec16(e.data) + rest)
  }

  /** The length-prefixed extension block that closes a hello. */
  function ExtensionBlock(extensions: seq<Extension>): Result<bytes> {
    var encoded :- ExtensionBytes(extensions);
    if |encoded| >= 0x1_0000 then Err else Ok(Vec16(encoded))
  }

  function ExtensionsIn(s: bytes): Result<seq<Extension>>
    decreases |s|
  {
    if s == [] then Ok([]) else
    var (kind, afterKind) :- TakeU16(s);
    var (data, rest) :- TakeVec16(afterKind);
    var extensions :- ExtensionsIn(rest);
    Ok([Extension(kind, data)] + extensions)
  }

  /** A hello may end before any extension block. */
  function TakeExtensions(s: bytes): Result<(seq<Extension>, bytes)> {
    if s == [] then Ok(([], [])) else
    var (block, rest) :- TakeVec16(s);
    var extensions :- ExtensionsIn(block);
    Ok((extensions, rest))
  }

  method AppendExtensions(out: bytes, extensions: seq<Extension>) returns (r: Result<bytes>)
    ensures r == Prepended(out, ExtensionBlock(extensions))
  {
    var encoded: bytes := [];
    assert extensions[0..] == extensions;
    PrependNothing(ExtensionBytes(extensions));
    for i := 0 to |extensions|
      invariant ExtensionBytes(extensions) == Prepended(encoded, ExtensionBytes(extensions[i..]))
    {
      var e := extensions[i];
      if |e.data| >= 0x1_0000 {
        return Err;
      }
      assert extensions[i..][1..] == extensions[i + 1..];
      PrependTwice(encoded, U16Bytes(e.kind) + Vec16(e.data), ExtensionBytes(extensions[i + 1..]));
      encoded := encoded + (U16Bytes(e.kind) + Vec16(e.data));
    }
    assert encoded + [] == encoded;
    if |encoded| >= 0x1_0000 {
      return Err;
    }
    r := Ok(out + Vec16(encoded));
  }

  method ReadExtensions(s: bytes) returns (r: Result<(seq<Extension>, bytes)>)
    ensures r == TakeExtensions(s)
  {
    if s == [] {
      return Ok(([], []));
    }
    var block := TakeVec16(s);
    if block.Err? {
      return Err;
    }
    var rest := block.value.0;
    var extensions: seq<Extension> := [];
    PrependNothing(ExtensionsIn(rest));
    while rest != []
      invariant ExtensionsIn(block.value.0) == Prepended(extensions, ExtensionsIn(rest))
      decreases |rest|
    {
      var kind := TakeU16(rest);
      if kind.Err? {
        return Err;
      }
      var data := TakeVec16(kind.value.1);
      if data.Err? {
        return Err;
      }
      var e := Extension(kind.value.0, data.value.0);
      PrependTwice(extensions, [e], ExtensionsIn(data.value.1));
      extensions := extensions + [e];
      rest := data.value.1;
    }
    assert extensions + [] == extensions;
    r := Ok((extensions, block.value.1));
  }

  lemma {:induction false} ExtensionsRoundTrip(extensions: seq<Extension>)
    requires ExtensionBytes(extensions).Ok?
    ensures ExtensionsIn(ExtensionBytes(extensions).value) == Ok(extensions)
  {
    if extensions != [] {
      var e, rest := extensions[0], ExtensionBytes(extensions[1..]).value;
      ExtensionsRoundTrip(extensions[1..]);
      assert U16Bytes(e.kind) + Vec16(e.data) + rest == U16Bytes(e.kind) + (Vec16(e.data) + rest);
      TakeU16Back(e.kind, Vec16(e.data) + rest);
      TakeVec16Back(e.data, rest);
      assert extensions == [e] + extensions[1..];
    }
  }

  lemma ExtensionBlockRoundTrip(extensions: seq<Extension>)
    requires ExtensionBlock(extensions).Ok?
    ensures TakeExtensions(ExtensionBlock(extensions).value) == Ok((extensions, []))
  {
    var encoded := ExtensionBytes(extensions).value;
    ExtensionsRoundTrip(extensions);
    TakeVec16Back(encoded, []);
    assert Vec16(encoded) + [] == Vec16(encoded);
  }

  /** The data of the first extension of a kind. */
  function FindExtension(extensions: seq<Extension>, kind: u16): Option<bytes> {
    if extensions == [] then None
    else if extensions[0].kind == kind then Some(extensions[0].data)
    else FindExtension(extensions[1..], kind)
  }

  // ---- Cipher suites ----

  function SuiteBytes(suites: seq<u16>): (s: bytes)
    ensures |s| == 2 * |suites|
  {
    if suites == [] then [] else U16Bytes(suites[0]) + SuiteBytes(suites[1..])
  }

  function SuitesIn(s: bytes): (suites: seq<u16>)
    requires |s| % 2 == 0
  {
    if s == [] then [] else [ReadU16(s[..2])] + SuitesIn(s[2..])
  }

  lemma {:induction false} SuitesRoundTrip(suites: seq<u16>)
    ensures SuitesIn(SuiteBytes(suites)) == suites
  {
    if suites != [] {
      var s := SuiteBytes(suites);
      assert s[..2] == U16Bytes(suites[0]) && s[2..] == SuiteBytes(suites[1..]);
      U16RoundTrip(suites[0]);
      SuitesRoundTrip(suites[1..]);
    }
  }

  // ---- The three bodies ----

  /** Cipher suites, compression methods and extensions: what follows the
      cookie in a ClientHello. */
  function EncodeOffer(h: ClientHello): Result<bytes> {
    if |h.compressionMethods| >= 0x100 || 2 * |h.cipherSuites| >= 0x1_0000 then Err else
    var block :- ExtensionBlock(h.extensions);
    Ok(Vec16(SuiteBytes(h.cipherSuites)) + (Vec8(h.compressionMethods) + block))
  }

  function DecodeOffer(s: bytes): Result<(seq<u16>, bytes, seq<Extension>)> {
    var (suites, s1) :- TakeVec16(s);
    if |suites| % 2 != 0 then Err else
    var (compressionMethods, s2) :- TakeVec8(s1);
    var (extensions, s3) :- TakeExtensions(s2);
    if s3 != [] then Err else Ok((SuitesIn(suites), compressionMethods, extensions))
  }

  function EncodeClientHello(h: ClientHello): Result<bytes> {
    if |h.sessionId| >= 0x100 || |h.cookie| >= 0x100 then Err else
    var offer :- EncodeOffer(h);
    Ok(U16Bytes(Records.DTLS_1_2) + (h.random + (Vec8(h.sessionId) + (Vec8(h.cookie) + offer))))
  }

  function DecodeClientHello(s: bytes): Result<ClientHello> {
    var (version, s1) :- TakeU16(s);
    if version != Records.DTLS_1_2 then Err else
    var (random, s2) :- Take(s1, 32);
    var (sessionId, s3) :- TakeVec8(s2);
    var (cookie, s4) :- TakeVec8(s3);
    var (suites, compressionMethods, extensions) :- DecodeOffer(s4);
    Ok(ClientHello(random, sessionId, cookie, suites, compressionMethods, extensions))
  }

  function EncodeHelloVerify(h: HelloVerify): Result<bytes> {
    if |h.cookie| >= 0x100 then Err else Ok(U16Bytes(h.version) + Vec8(h.cookie))
  }

  function DecodeHelloVerify(s: bytes): Result<HelloVerify> {
    var (version, s1) :- TakeU16(s);
    var (cookie, s2) :- TakeVec8(s1);
    if s2 != [] then Err else Ok(HelloVerify(version, cookie))
  }

  function EncodeServerHello(h: ServerHello): Result<bytes> {
    if |h.sessionId| >= 0x100 then Err else
    var block :- ExtensionBlock(h.extensions);
    Ok(U16Bytes(Records.DTLS_1_2) + (h.random + (Vec8(h.sessionId)
       + (U16Bytes(h.cipherSuite) + ([h.compressionMethod] + block)))))
  }

  function DecodeServerHello(s: bytes): Result<ServerHello> {
    var (version, s1) :- TakeU16(s);
    if version != Records.DTLS_1_2 then Err else
    var (random, s2) :- Take(s1, 32);
    var (sessionId, s3) :- TakeVec8(s2);
    var (cipherSuite, s4) :- TakeU16(s3);
    var (compressionMethod, s5) :- TakeU8(s4);
    var (extensions, s6) :- TakeExtensions(s5);
    if s6 != [] then Err else Ok(ServerHello(random, sessionId, cipherSuite, compressionMethod, extensions))
  }

  lemma OfferRoundTrip(h: ClientHello)
    requires EncodeOffer(h).Ok?
    ensures DecodeOffer(EncodeOffer(h).value) == Ok((h.cipherSuites, h.compressionMethods, h.extensions))
  {
    hide TakeVec16, TakeVec8, TakeExtensions, SuitesIn, SuiteBytes, ExtensionBlock, Vec16, Vec8;
    var block := ExtensionBlock(h.extensions).value;
    TakeVec16Back(SuiteBytes(h.cipherSuites), Vec8(h.compressionMethods) + block);
    SuitesRoundTrip(h.cipherSuites);
    TakeVec8Back(h.compressionMethods, block);
    ExtensionBlockRoundTrip(h.extensions);
  }

  /** Decoding inverts encoding whenever encoding succeeds. */
  lemma ClientHelloRoundTrip(h: ClientHello)
    requires EncodeClientHello(h).Ok?
    ensures DecodeClientHello(EncodeClientHello(h).value) == Ok(h)
  {
    hide TakeU16, Take, TakeVec8, DecodeOffer, EncodeOffer, Vec8, U16Bytes;
    var s4 := EncodeOffer(h).value;
    var s3 := Vec8(h.cookie) + s4;
    var s2 := Vec8(h.sessionId) + s3;
    TakeU16Back(Records.DTLS_1_2, h.random + s2);
    TakeBack(h.random, s2);
    TakeVec8Back(h.sessionId, s3);
    TakeVec8Back(h.cookie, s4);
    OfferRoundTrip(h);
  }

  lemma HelloVerifyRoundTrip(h: HelloVerify)
    requires EncodeHelloVerify(h).Ok?
    ensures DecodeHelloVerify(EncodeHelloVerify(h).value) == Ok(h)
  {
    TakeU16Back(h.version, Vec8(h.cookie));
    TakeVec8Back(h.cookie, []);
    assert Vec8(h.cookie) + [] == Vec8(h.cookie);
  }

  lemma ServerHelloRoundTrip(h: ServerHello)
    requires EncodeServerHello(h).Ok?
    ensures DecodeServerHello(EncodeServerHello(h).value) == Ok(h)
  {
    hide TakeU8, TakeU16, Take, TakeVec8, TakeExtensions, ExtensionBlock, Vec8, U16Bytes;
    var s5 := ExtensionBlock(h.extensions).value;
    var s4 := [h.compressionMethod] + s5;
    var s3 := U16Bytes(h.cipherSuite) + s4;
    var s2 := Vec8(h.sessionId) + s3;
    TakeU16Back(Records.DTLS_1_2, h.random + s2);
    TakeBack(h.random, s2);
    TakeVec8Back(h.sessionId, s3);
    TakeU16Back(h.cipherSuite, s4);
    TakeU8Back(h.compressionMethod, s5);
    ExtensionBlockRoundTrip(h.extensions);
  }
}
