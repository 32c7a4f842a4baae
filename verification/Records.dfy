/** DTLS record framing: the 13-byte header and records packed back to back
    into one datagram (section 4.1 of RFC 6347). */
module Records {
  import opened Wire

  const DTLS_1_2: u16 := 0xfefd
  const HEADER_LEN := 13

  datatype ContentType = ChangeCipherSpec | Alert | Handshake | ApplicationData

  function ContentTypeByte(t: ContentType): byte {
    match t
    case ChangeCipherSpec => 20
    case Alert => 21
    case Handshake => 22
    case ApplicationData => 23
  }

  function ContentTypeOf(b: byte): Result<ContentType> {
    if b == 20 then Ok(ChangeCipherSpec)
    else if b == 21 then Ok(Alert)
    else if b == 22 then Ok(Handshake)
    else if b == 23 then Ok(ApplicationData)
    else Err
  }

  datatype Header = Header(contentType: ContentType, version: u16, epoch: u16, sequence: u64, length: u16)

  datatype Record = Record(header: Header, payload: bytes)

  /** Builds a DTLS 1.2 record; payloads over 65535 bytes are refused. */
  function NewRecord(contentType: ContentType, epoch: u16, sequence: u64, payload: bytes): Result<Record> {
    if |payload| >= 0x1_0000 then Err
    else Ok(Record(Header(contentType, DTLS_1_2, epoch, sequence, |payload|), payload))
  }

  function EncodeHeader(h: Header): (out: bytes)
    ensures |out| == HEADER_LEN
  {
    [ContentTypeByte(h.contentType)] + U16Bytes(h.version) + U16Bytes(h.epoch)
    + ToBytes(h.sequence, 6) + U16Bytes(h.length)
  }

  function ParseHeader(s: bytes): Result<Header> {
    if |s| < HEADER_LEN then Err else
    var contentType :- ContentTypeOf(s[0]);
    SequenceFits(s[5..11]);
    Ok(Header(contentType, ReadU16(s[1..3]), ReadU16(s[3..5]), FromBytes(s[5..11]), ReadU16(s[11..13])))
  }

  lemma SequenceFits(s: bytes)
    requires |s| == 6
    ensures FromBytes(s) < SEQUENCE_LIMIT
  {
    Pow256Values();
  }

  function EncodeRecord(r: Record): Result<bytes> {
    if |r.payload| != r.header.length then Err
    else Ok(EncodeHeader(r.header) + r.payload)
  }

  /** One record off the front of a datagram, with the bytes that follow it. */
  function ParseRecord(s: bytes): (r: Result<(Record, bytes)>)
    ensures r.Ok? ==> |r.value.1| < |s|
  {
    var header :- ParseHeader(s);
    var end := HEADER_LEN + header.length;
    if |s| < end then Err
    else Ok((Record(header, s[HEADER_LEN..end]), s[end..]))
  }

  /** The records of a datagram. */
  function Parsed(s: bytes): Result<seq<Record>>
    decreases |s|
  {
    if s == [] then Ok([]) else
    var (record, rest) :- ParseRecord(s);
    var records :- Parsed(rest);
    Ok([record] + records)
  }

  /** The datagram carrying `records`. */
  function Encoded(records: seq<Record>): Result<bytes> {
    if records == [] then Ok([]) else
    var first :- EncodeRecord(records[0]);
    var rest :- Encoded(records[1..]);
    Ok(first + rest)
  }

  /** What the header field of a record keeps of a sequence number. */
  function OnWire(r: Record): Record {
    r.(header := r.header.(sequence := r.header.sequence % SEQUENCE_LIMIT))
  }

  function AllOnWire(records: seq<Record>): (out: seq<Record>)
    ensures |out| == |records|
    ensures forall i :: 0 <= i < |records| ==> out[i] == OnWire(records[i])
  {
    seq(|records|, i requires 0 <= i < |records| => OnWire(records[i]))
  }

  ghost predicate Fits48(records: seq<Record>) {
    forall i :: 0 <= i < |records| ==> records[i].header.sequence < SEQUENCE_LIMIT
  }

  /** `parse_datagram`: repeatedly strips one record off the remaining bytes. */
  method ParseDatagram(datagram: bytes) returns (r: Result<seq<Record>>)
    ensures r == Parsed(datagram)
  {
    var rest := datagram;
    var records: seq<Record> := [];
    PrependNothing(Parsed(datagram));
    while rest != []
      invariant Parsed(datagram) == Prepended(records, Parsed(rest))
      decreases |rest|
    {
      var next := ParseRecord(rest);
      if next.Err? {
        return Err;
      }
      PrependTwice(records, [next.value.0], Parsed(next.value.1));
      records := records + [next.value.0];
      rest := next.value.1;
    }
    assert records + [] == records;
    r := Ok(records);
  }

  /** `encode_datagram`: appends each record to one buffer. */
  method EncodeDatagram(records: seq<Record>) returns (r: Result<bytes>)
    ensures r == Encoded(records)
  {
    var datagram: bytes := [];
    assert records[0..] == records;
    PrependNothing(Encoded(records));
    for i := 0 to |records|
      invariant Encoded(records) == Prepended(datagram, Encoded(records[i..]))
    {
      var next := EncodeRecord(records[i]);
      if next.Err? {
        return Err;
      }
      assert records[i..][1..] == records[i + 1..];
      PrependTwice(datagram, next.value, Encoded(records[i + 1..]));
      datagram := datagram + next.value;
    }
    assert datagram + [] == datagram;
    r := Ok(datagram);
  }

  lemma HeaderRoundTrip(h: Header, rest: bytes)
    ensures ParseHeader(EncodeHeader(h) + rest) == Ok(h.(sequence := h.sequence % SEQUENCE_LIMIT))
  {
    var s := EncodeHeader(h) + rest;
    assert s[1..3] == U16Bytes(h.version);
    assert s[3..5] == U16Bytes(h.epoch);
    assert s[5..11] == ToBytes(h.sequence, 6);
    assert s[11..13] == U16Bytes(h.length);
    U16RoundTrip(h.version);
    U16RoundTrip(h.epoch);
    U16RoundTrip(h.length);
    FromToBytes(h.sequence, 6);
    Pow256Values();
  }

  lemma HeaderInverse(s: bytes)
    requires ParseHeader(s).Ok?
    ensures EncodeHeader(ParseHeader(s).value) == s[..HEADER_LEN]
  {
    U16Inverse(s[1..3]);
    U16Inverse(s[3..5]);
    ToFromBytes(s[5..11]);
    U16Inverse(s[11..13]);
    assert s[..HEADER_LEN] == [s[0]] + s[1..3] + s[3..5] + s[5..11] + s[11..13];
  }

  lemma RecordRoundTrip(r: Record, rest: bytes)
    requires EncodeRecord(r).Ok?
    ensures ParseRecord(EncodeRecord(r).value + rest) == Ok((OnWire(r), rest))
  {
    var s := EncodeRecord(r).value + rest;
    HeaderRoundTrip(r.header, r.payload + rest);
    assert s == EncodeHeader(r.header) + (r.payload + rest);
    assert s[HEADER_LEN..HEADER_LEN + r.header.length] == r.payload;
    assert s[HEADER_LEN + r.header.length..] == rest;
  }

  /** Parsing what was encoded gives the records back, with each sequence
      number reduced to the 48 bits the header carries. */
  lemma {:induction false} ParseAfterEncode(records: seq<Record>)
    requires Encoded(records).Ok?
    ensures Parsed(Encoded(records).value) == Ok(AllOnWire(records))
  {
    if records != [] {
      var rest := Encoded(records[1..]).value;
      ParseAfterEncode(records[1..]);
      RecordRoundTrip(records[0], rest);
      assert AllOnWire(records) == [OnWire(records[0])] + AllOnWire(records[1..]);
    }
  }

  lemma AllOnWireExactly(records: seq<Record>)
    ensures AllOnWire(records) == records <==> Fits48(records)
  {
    var out := AllOnWire(records);
    forall i | 0 <= i < |records|
      ensures out[i] == records[i] <==> records[i].header.sequence < SEQUENCE_LIMIT
    {
      assert out[i] == OnWire(records[i]);
    }
  }

  /** The round trip is exact precisely when every sequence number fits the
      48-bit field. */
  lemma DatagramRoundTripExactly(records: seq<Record>)
    requires Encoded(records).Ok?
    ensures Parsed(Encoded(records).value) == Ok(records) <==> Fits48(records)
  {
    ParseAfterEncode(records);
    AllOnWireExactly(records);
  }

  /** An alert numbered 2^48 encodes, and comes back numbered zero. */
  lemma LargeSequenceIsLost() returns (record: Record)
    ensures record.header.sequence == SEQUENCE_LIMIT
    ensures Encoded([record]).Ok? && Parsed(Encoded([record]).value).Ok?
    ensures var back := Parsed(Encoded([record]).value).value;
            back == [record.(header := record.header.(sequence := 0))] && back != [record]
  {
    record := Record(Header(Alert, DTLS_1_2, 0, SEQUENCE_LIMIT, 0), []);
    assert [record][1..] == [];
    ParseAfterEncode([record]);
    assert AllOnWire([record]) == [OnWire(record)];
  }

  lemma RecordInverse(s: bytes)
    requires ParseRecord(s).Ok?
    ensures var (record, rest) := ParseRecord(s).value;
            && EncodeRecord(record).Ok? && EncodeRecord(record).value + rest == s
            && record.header.sequence < SEQUENCE_LIMIT
  {
    var (record, rest) := ParseRecord(s).value;
    HeaderInverse(s);
    SequenceFits(s[5..11]);
    assert s == s[..HEADER_LEN] + s[HEADER_LEN..HEADER_LEN + record.header.length] + rest;
  }

  /** Encoding what was parsed gives the datagram back byte for byte, and what
      is parsed always fits the wire. */
  lemma {:induction false} EncodeAfterParse(s: bytes)
    requires Parsed(s).Ok?
    ensures Encoded(Parsed(s).value) == Ok(s)
    ensures Fits48(Parsed(s).value)
    decreases |s|
  {
    if s != [] {
      var (record, rest) := ParseRecord(s).value;
      var records := Parsed(rest).value;
      RecordInverse(s);
      EncodeAfterParse(rest);
      assert ([record] + records)[1..] == records;
      assert Encoded([record] + records) == Ok(EncodeRecord(record).value + rest);
    }
  }
}
