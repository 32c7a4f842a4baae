/** AES-128-CCM-8 record protection around an ideal cipher: nonces, associated
    data and the explicit-nonce framing (section 3 of RFC 6655). */
module Protection {
  import opened Wire
  import opened Records

  const FIXED_IV_LEN := 4
  const EXPLICIT_NONCE_LEN := 8
  const TAG_LEN := 8

  type FixedIv = s: bytes | |s| == 4 witness [0, 0, 0, 0]

  /** The block cipher is uninterpreted: key, nonce, associated data, text. */
  datatype Cipher = Cipher(
    seal: (bytes, bytes, bytes, bytes) -> bytes,
    unseal: (bytes, bytes, bytes, bytes) -> Option<bytes>)
  {
    /** The only law used: opening a sealed text gives it back, and sealing
        adds the tag's length. */
    ghost predicate Lawful() {
      forall key, nonce, aad, text ::
        && |seal(key, nonce, aad, text)| == |text| + TAG_LEN
        && unseal(key, nonce, aad, seal(key, nonce, aad, text)) == Some(text)
    }
  }

  datatype Keys = Keys(
    master: bytes, clientKey: bytes, serverKey: bytes, clientIv: FixedIv, serverIv: FixedIv)

  function Nonce(iv: FixedIv, epoch: u16, sequence: u64): (r: Result<bytes>)
    ensures r.Ok? <==> sequence < SEQUENCE_LIMIT
    ensures r.Ok? ==> |r.value| == FIXED_IV_LEN + EXPLICIT_NONCE_LEN && r.value[..FIXED_IV_LEN] == iv
  {
    if sequence >= SEQUENCE_LIMIT then Err
    else Ok(iv + (U16Bytes(epoch) + ToBytes(sequence, 6)))
  }

  function AdditionalData(h: Header, plaintextLen: u16): bytes {
    U16Bytes(h.epoch) + ToBytes(h.sequence, 6) + [ContentTypeByte(h.contentType)]
    + U16Bytes(h.version) + U16Bytes(plaintextLen)
  }

  function Protect(
    c: Cipher, contentType: ContentType, epoch: u16, sequence: u64, key: bytes, iv: FixedIv, plaintext: bytes)
    : (r: Result<Record>)
    ensures r.Ok? ==> r.value.header.sequence == sequence < SEQUENCE_LIMIT
                      && r.value.header.epoch == epoch && r.value.header.contentType == contentType
  {
    if |plaintext| >= 0x1_0000 then Err else
    var nonce :- Nonce(iv, epoch, sequence);
    var aad := AdditionalData(Header(contentType, DTLS_1_2, epoch, sequence, 0), |plaintext|);
    NewRecord(contentType, epoch, sequence, nonce[FIXED_IV_LEN..] + c.seal(key, nonce, aad, plaintext))
  }

  function Open(c: Cipher, record: Record, key: bytes, iv: FixedIv): Result<bytes> {
    if |record.payload| < EXPLICIT_NONCE_LEN + TAG_LEN then Err else
    var encrypted := record.payload[EXPLICIT_NONCE_LEN..];
    if |encrypted| - TAG_LEN >= 0x1_0000 then Err else
    var nonce := iv + record.payload[..EXPLICIT_NONCE_LEN];
    match c.unseal(key, nonce, AdditionalData(record.header, |encrypted| - TAG_LEN), encrypted)
    case None => Err
    case Some(plaintext) => Ok(plaintext)
  }

  /** Whatever was protected opens to its plaintext under the same key and IV. */
  lemma OpenAfterProtect(
    c: Cipher, contentType: ContentType, epoch: u16, sequence: u64, key: bytes, iv: FixedIv, plaintext: bytes)
    requires c.Lawful()
    requires Protect(c, contentType, epoch, sequence, key, iv, plaintext).Ok?
    ensures Open(c, Protect(c, contentType, epoch, sequence, key, iv, plaintext).value, key, iv) == Ok(plaintext)
  {
    var record := Protect(c, contentType, epoch, sequence, key, iv, plaintext).value;
    var nonce := Nonce(iv, epoch, sequence).value;
    var aad := AdditionalData(Header(contentType, DTLS_1_2, epoch, sequence, 0), |plaintext|);
    var sealed := c.seal(key, nonce, aad, plaintext);
    assert record.payload == nonce[FIXED_IV_LEN..] + sealed;
    assert record.payload[EXPLICIT_NONCE_LEN..] == sealed;
    assert iv + record.payload[..EXPLICIT_NONCE_LEN] == nonce;
    assert AdditionalData(record.header, |plaintext|) == aad;
  }

  /** Protection fails only on an oversized plaintext or an exhausted counter. */
  lemma ProtectSucceedsExactly(
    c: Cipher, contentType: ContentType, epoch: u16, sequence: u64, key: bytes, iv: FixedIv, plaintext: bytes)
    requires c.Lawful()
    ensures Protect(c, contentType, epoch, sequence, key, iv, plaintext).Ok?
            <==> sequence < SEQUENCE_LIMIT && |plaintext| + EXPLICIT_NONCE_LEN + TAG_LEN < 0x1_0000
  {
  }

  /** Distinct sequence numbers give distinct nonces. */
  lemma NonceInjective(iv: FixedIv, epoch: u16, a: u64, b: u64)
    requires Nonce(iv, epoch, a).Ok? && Nonce(iv, epoch, b).Ok?
    requires Nonce(iv, epoch, a) == Nonce(iv, epoch, b)
    ensures a == b
  {
    var x, y := Nonce(iv, epoch, a).value, Nonce(iv, epoch, b).value;
    assert x[6..] == ToBytes(a, 6) && y[6..] == ToBytes(b, 6);
    Pow256Values();
    ReadBack(a, 6);
    ReadBack(b, 6);
  }
}
