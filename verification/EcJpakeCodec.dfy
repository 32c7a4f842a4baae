/** The TLS encodings of EC J-PAKE messages: key and proof pairs for round one,
    and the key-exchange parameters for round two. */
module EcJpakeCodec {
  import opened Wire
  import opened Hello
  import opened Curves
  import opened Schnorr
  import opened EcJpake

  const SCALAR_LEN := 32

  /** Named curve secp256r1. */
  const CURVE_PARAMS: bytes := [0x03, 0x00, 0x17]

  function WritePoint(c: Curve, point: bytes): Result<bytes> {
    var p :- PointFromBytes(c, point);
    var canonical := c.encode(p);
    if |canonical| >= 0x100 then Err else Ok(Vec8(canonical))
  }

  /** Drops leading zero bytes but keeps at least one byte. */
  function Trimmed(r: bytes): (t: bytes)
    ensures |t| <= |r| && (r != [] ==> t != [])
  {
    if |r| <= 1 || r[0] != 0 then r else Trimmed(r[1..])
  }

  function Padded(t: bytes): (r: bytes)
    requires |t| <= SCALAR_LEN
    ensures |r| == SCALAR_LEN
  {
    seq(SCALAR_LEN - |t|, _ => 0) + t
  }

  function WriteKey(c: Curve, point: bytes, proof: Proof): Result<bytes> {
    var key :- WritePoint(c, point);
    var v :- WritePoint(c, proof.v);
    var r := Trimmed(proof.r);
    if r == [] || |r| >= 0x100 then Err else Ok(key + (v + Vec8(r)))
  }

  function EncodeKkpp(c: Curve, one: RoundOne): Result<bytes> {
    var key1 :- WriteKey(c, one.g1, one.proof1);
    var key2 :- WriteKey(c, one.g2, one.proof2);
    Ok(key1 + key2)
  }

  /** ServerKeyExchange carries the curve parameters, ClientKeyExchange not. */
  function EncodeKeyExchange(c: Curve, two: RoundTwo, curveParams: bool): Result<bytes> {
    var key :- WriteKey(c, two.point, two.proof);
    Ok((if curveParams then CURVE_PARAMS else []) + key)
  }

  function TakeOpaque(s: bytes): Result<(bytes, bytes)> {
    var (data, rest) :- TakeVec8(s);
    if data == [] then Err else Ok((data, rest))
  }

  function ReadPoint(c: Curve, s: bytes): Result<(bytes, bytes)> {
    var (point, rest) :- TakeOpaque(s);
    var p :- PointFromBytes(c, point);
    Ok((c.encode(p), rest))
  }

  function ReadKey(c: Curve, s: bytes, id: bytes): Result<(bytes, Proof, bytes)> {
    var (point, s1) :- ReadPoint(c, s);
    var (v, s2) :- ReadPoint(c, s1);
    var (t, rest) :- TakeOpaque(s2);
    if |t| > SCALAR_LEN then Err else
    var _ :- ScalarFromBytes(c, Padded(t));
    Ok((point, Proof(v, Padded(t), id), rest))
  }

  /** Decodes and verifies round one. */
  function DecodeKkpp(c: Curve, s: bytes, id: bytes): Result<RoundOne> {
    var (g1, proof1, s1) :- ReadKey(c, s, id);
    var (g2, proof2, s2) :- ReadKey(c, s1, id);
    if s2 != [] then Err else
    var p1 :- PointFromBytes(c, g1);
    var p2 :- PointFromBytes(c, g2);
    if !Verifies(c, proof1, c.generator, p1, id) || !Verifies(c, proof2, c.generator, p2, id) then Err
    else Ok(RoundOne(g1, g2, proof1, proof2, id))
  }

  function DecodeKeyExchange(c: Curve, s: bytes, id: bytes, curveParams: bool): Result<RoundTwo> {
    if curveParams && (|s| < 3 || s[..3] != CURVE_PARAMS) then Err else
    var (point, proof, rest) :- ReadKey(c, if curveParams then s[3..] else s, id);
    if rest != [] then Err else Ok(RoundTwo(point, proof))
  }

  // ---- Round trips ----

  /** The bytes are the canonical encoding of a point other than the identity. */
  ghost predicate Canonical(c: Curve, point: bytes) {
    PointFromBytes(c, point).Ok? && point == c.encode(PointFromBytes(c, point).value)
  }

  ghost predicate CanonicalKey(c: Curve, point: bytes, proof: Proof, id: bytes) {
    && Canonical(c, point) && Canonical(c, proof.v)
    && |proof.r| == SCALAR_LEN && ScalarFromBytes(c, proof.r).Ok? && proof.proverId == id
  }

  lemma {:induction false} PaddedTrimmed(r: bytes)
    requires r != [] && |r| <= SCALAR_LEN
    ensures Padded(Trimmed(r)) == Padded(r)
  {
    if |r| > 1 && r[0] == 0 {
      PaddedTrimmed(r[1..]);
      assert Padded(r[1..]) == Padded(r);
    }
  }

  lemma PointRoundTrip(c: Curve, point: bytes, rest: bytes)
    requires c.IsEncoding() && Canonical(c, point)
    ensures 1 <= |point| <= 65 && WritePoint(c, point) == Ok(Vec8(point))
    ensures ReadPoint(c, Vec8(point) + rest) == Ok((point, rest))
  {
    assert Bytes(point);
    var a := LogOf(c, PointFromBytes(c, point).value);
    Encoding(c, a);
    TakeVec8Back(point, rest);
  }

  lemma KeyRoundTrip(c: Curve, point: bytes, proof: Proof, id: bytes, rest: bytes)
    requires c.IsEncoding() && CanonicalKey(c, point, proof, id)
    ensures WriteKey(c, point, proof).Ok? && |WriteKey(c, point, proof).value| <= 165
    ensures ReadKey(c, WriteKey(c, point, proof).value + rest, id) == Ok((point, proof, rest))
  {
    hide PointFromBytes, ScalarFromBytes, TakeVec8, ReadPoint, Trimmed, Padded;
    var r := Trimmed(proof.r);
    var s2 := Vec8(r) + rest;
    PointRoundTrip(c, proof.v, s2);
    var s1 := Vec8(proof.v) + s2;
    PointRoundTrip(c, point, s1);
    TakeVec8Back(r, rest);
    PaddedTrimmed(proof.r);
    PaddedWhole(proof.r);
    assert WriteKey(c, point, proof).value + rest == Vec8(point) + s1;
  }

  lemma PaddedWhole(r: bytes)
    requires |r| == SCALAR_LEN
    ensures Padded(r) == r
  {
  }

  /** Round one survives its encoding, and so does the verification that
      decoding repeats. */
  lemma KkppRoundTrip(c: Curve, one: RoundOne)
    requires c.IsEncoding() && FirstRoundVerifies(c, one)
    requires CanonicalKey(c, one.g1, one.proof1, one.id) && CanonicalKey(c, one.g2, one.proof2, one.id)
    ensures EncodeKkpp(c, one).Ok? && |EncodeKkpp(c, one).value| <= 330
    ensures DecodeKkpp(c, EncodeKkpp(c, one).value, one.id) == Ok(one)
  {
    hide Verifies, WriteKey, ReadKey;
    var key2 := WriteKey(c, one.g2, one.proof2);
    KeyRoundTrip(c, one.g2, one.proof2, one.id, []);
    KeyRoundTrip(c, one.g1, one.proof1, one.id, key2.value);
    assert key2.value + [] == key2.value;
  }

  lemma KeyExchangeRoundTrip(c: Curve, two: RoundTwo, id: bytes, curveParams: bool)
    requires c.IsEncoding() && CanonicalKey(c, two.point, two.proof, id)
    ensures EncodeKeyExchange(c, two, curveParams).Ok?
    ensures |EncodeKeyExchange(c, two, curveParams).value| <= 168
    ensures DecodeKeyExchange(c, EncodeKeyExchange(c, two, curveParams).value, id, curveParams) == Ok(two)
  {
    hide WriteKey, ReadKey;
    KeyRoundTrip(c, two.point, two.proof, id, []);
    var key := WriteKey(c, two.point, two.proof).value;
    assert key + [] == key;
    var s := EncodeKeyExchange(c, two, curveParams).value;
    if curveParams {
      assert s[..3] == CURVE_PARAMS && s[3..] == key;
    } else {
      assert s == key;
    }
  }
}
