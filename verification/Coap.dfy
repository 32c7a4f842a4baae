/** The CoAP message codec: delta-encoded options in stable order, extended
    option nibbles and the payload marker (sections 3 and 3.1 of RFC 7252). */
module Coap {
  import opened Wire

  datatype CoapType = Confirmable | NonConfirmable | Acknowledgement | Reset

  datatype CoapOption = CoapOption(number: u16, value: bytes)

  datatype CoapMessage = CoapMessage(
    kind: CoapType, code: byte, messageId: u16, token: bytes, options: seq<CoapOption>, payload: bytes)

  const EMPTY: byte := 0x00
  const CHANGED: byte := 0x44
  const PAYLOAD_MARKER: byte := 0xff

  function TypeBits(t: CoapType): byte {
    match t
    case Confirmable => 0
    case NonConfirmable => 1
    case Acknowledgement => 2
    case Reset => 3
  }

  function TypeOf(bits: nat): CoapType
    requires bits < 4
  {
    if bits == 0 then Confirmable
    else if bits == 1 then NonConfirmable
    else if bits == 2 then Acknowledgement
    else Reset
  }

  // ---- Stable order ----

  ghost predicate Ordered(options: seq<CoapOption>) {
    forall i, j :: 0 <= i < j < |options| ==> options[i].number <= options[j].number
  }

  /** The options with one number, in their order of appearance. */
  ghost function WithNumber(options: seq<CoapOption>, number: u16): seq<CoapOption> {
    if options == [] then []
    else (if options[0].number == number then [options[0]] else []) + WithNumber(options[1..], number)
  }

  function Inserted(o: CoapOption, sorted: seq<CoapOption>): seq<CoapOption> {
    if sorted == [] || o.number <= sorted[0].number then [o] + sorted
    else [sorted[0]] + Inserted(o, sorted[1..])
  }

  /** The options by number, equal numbers in their original order. */
  function StableSorted(options: seq<CoapOption>): seq<CoapOption> {
    if options == [] then [] else Inserted(options[0], StableSorted(options[1..]))
  }

  lemma {:induction false} InsertedKeeps(o: CoapOption, sorted: seq<CoapOption>)
    requires Ordered(sorted)
    ensures Ordered(Inserted(o, sorted))
    ensures forall x :: x in Inserted(o, sorted) <==> x == o || x in sorted
  {
    if sorted != [] && o.number > sorted[0].number {
      InsertedKeeps(o, sorted[1..]);
      var rest := Inserted(o, sorted[1..]);
      assert forall x :: x in rest ==> x == o || x in sorted[1..];
      assert forall x :: x in sorted <==> x == sorted[0] || x in sorted[1..];
      forall i | 0 <= i < |rest|
        ensures sorted[0].number <= rest[i].number
      {
        assert rest[i] in rest;
      }
    }
  }

  lemma {:induction false} InsertedWithNumber(o: CoapOption, sorted: seq<CoapOption>, number: u16)
    requires Ordered(sorted)
    ensures WithNumber(Inserted(o, sorted), number) == WithNumber([o] + sorted, number)
  {
    if sorted != [] && o.number > sorted[0].number {
      InsertedWithNumber(o, sorted[1..], number);
      assert ([o] + sorted)[1..] == sorted;
      assert ([o] + sorted[1..])[1..] == sorted[1..];
      assert Inserted(o, sorted)[1..] == Inserted(o, sorted[1..]);
    }
  }

  /** Sorting orders the options, keeps exactly their members and keeps the
      order of equal numbers. */
  lemma {:induction false} StableSortedIsStable(options: seq<CoapOption>)
    ensures Ordered(StableSorted(options))
    ensures forall x :: x in StableSorted(options) <==> x in options
    ensures forall n: u16 :: WithNumber(StableSorted(options), n) == WithNumber(options, n)
  {
    if options != [] {
      StableSortedIsStable(options[1..]);
      InsertedKeeps(options[0], StableSorted(options[1..]));
      assert forall x :: x in options <==> x == options[0] || x in options[1..];
      forall n: u16
        ensures WithNumber(StableSorted(options), n) == WithNumber(options, n)
      {
        InsertedWithNumber(options[0], StableSorted(options[1..]), n);
        assert ([options[0]] + StableSorted(options[1..]))[1..] == StableSorted(options[1..]);
      }
    }
  }

  lemma {:induction false} WithNumberEmpty(options: seq<CoapOption>, n: u16)
    requires forall i :: 0 <= i < |options| ==> options[i].number != n
    ensures WithNumber(options, n) == []
  {
    if options != [] {
      WithNumberEmpty(options[1..], n);
    }
  }

  /** In an ordered list the first number present is the first option's. */
  lemma HeadByNumber(a: seq<CoapOption>, b: seq<CoapOption>)
    requires Ordered(a) && Ordered(b)
    requires forall n: u16 :: WithNumber(a, n) == WithNumber(b, n)
    requires a != []
    ensures b != [] && b[0].number <= a[0].number
  {
    var n := a[0].number;
    assert WithNumber(a, n) != [];
    if b == [] || b[0].number > n {
      WithNumberEmpty(b, n);
    }
  }

  /** An ordered list is determined by its options of each number, so the
      previous lemma pins `StableSorted` down completely. */
  lemma {:induction false} StableOrderUnique(a: seq<CoapOption>, b: seq<CoapOption>)
    requires Ordered(a) && Ordered(b)
    requires forall n: u16 :: WithNumber(a, n) == WithNumber(b, n)
    ensures a == b
  {
    if a != [] {
      HeadByNumber(a, b);
      HeadByNumber(b, a);
      var n := a[0].number;
      assert WithNumber(a, n)[0] == a[0] && WithNumber(b, n)[0] == b[0];
      forall k: u16
        ensures WithNumber(a[1..], k) == WithNumber(b[1..], k)
      {
        var head := if k == n then [a[0]] else [];
        assert WithNumber(a, k) == head + WithNumber(a[1..], k);
        assert WithNumber(b, k) == head + WithNumber(b[1..], k);
        assert WithNumber(a[1..], k) == WithNumber(a, k)[|head|..];
        assert WithNumber(b[1..], k) == WithNumber(b, k)[|head|..];
      }
      StableOrderUnique(a[1..], b[1..]);
      assert a == [a[0]] + a[1..] && b == [b[0]] + b[1..];
    } else if b != [] {
      HeadByNumber(b, a);
    }
  }

  // ---- Option headers ----

  /** The nibble for a value, and the extension bytes that follow the header. */
  function EncodeNibble(value: u16): (r: (byte, bytes))
    ensures r.0 <= 14
  {
    if value <= 12 then (value, [])
    else if value <= 268 then (13, [value - 13])
    else (14, U16Bytes(value - 269))
  }

  /** The value of a nibble, and the bytes after its extension. */
  function DecodeNibble(nibble: byte, s: bytes): (r: Result<(u16, bytes)>)
    requires nibble <= 15
    ensures r.Ok? ==> |r.value.1| <= |s|
  {
    if nibble <= 12 then Ok((nibble, s))
    else if nibble == 13 then
      if |s| < 1 then Err else
      Ok((s[0] as int + 13, s[1..]))
    else if nibble == 14 then
      if |s| < 2 || ReadU16(s[..2]) + 269 >= 0x1_0000 then Err
      else Ok((ReadU16(s[..2]) + 269, s[2..]))
    else Err
  }

  function OptionHeader(delta: u16, length: nat): Result<bytes> {
    if length >= 0x1_0000 then Err else
    var (deltaNibble, deltaExtra) := EncodeNibble(delta);
    var (lengthNibble, lengthExtra) := EncodeNibble(length);
    Ok([16 * deltaNibble + lengthNibble] + (deltaExtra + lengthExtra))
  }

  lemma NibbleRoundTrip(value: u16, rest: bytes)
    ensures var (nibble, extra) := EncodeNibble(value);
            DecodeNibble(nibble, extra + rest) == Ok((value, rest))
  {
    var (nibble, extra) := EncodeNibble(value);
    if value > 268 {
      U16RoundTrip(value - 269);
      assert (extra + rest)[..2] == extra;
    }
    assert (extra + rest)[|extra|..] == rest;
  }

  /** No option header can be mistaken for the payload marker. */
  lemma HeaderIsNotMarker(delta: u16, length: nat)
    requires OptionHeader(delta, length).Ok?
    ensures OptionHeader(delta, length).value[0] != PAYLOAD_MARKER
  {
  }

  // ---- Messages ----

  /** Options in the given order, each as the difference to the previous. */
  function EncodeOptions(last: u16, options: seq<CoapOption>): Result<bytes>
    decreases |options|
  {
    if options == [] then Ok([]) else
    var o := options[0];
    if o.number < last then Err else
    var header :- OptionHeader(o.number - last, |o.value|);
    var rest :- EncodeOptions(o.number, options[1..]);
    Ok(header + o.value + rest)
  }

  function PayloadPart(payload: bytes): bytes {
    if payload == [] then [] else [PAYLOAD_MARKER] + payload
  }

  function Prefix(m: CoapMessage): bytes
    requires |m.token| <= 8
  {
    [64 + 16 * TypeBits(m.kind) + |m.token|, m.code] + U16Bytes(m.messageId) + m.token
  }

  function Encoded(m: CoapMessage): Result<bytes> {
    if |m.token| > 8 then Err else
    var options :- EncodeOptions(0, StableSorted(m.options));
    Ok(Prefix(m) + options + PayloadPart(m.payload))
  }

  /** One option after `last`, and the bytes that follow it. */
  function DecodeOption(last: u16, s: bytes): (r: Result<(CoapOption, bytes)>)
    requires s != []
    ensures r.Ok? ==> |r.value.1| < |s|
    ensures r.Ok? ==> last <= r.value.0.number && |r.value.0.value| < 0x1_0000
  {
    var (delta, afterDelta) :- DecodeNibble(s[0] / 16, s[1..]);
    var (length, afterLength) :- DecodeNibble(s[0] % 16, afterDelta);
    if |afterLength| < length || last + delta >= 0x1_0000 then Err
    else Ok((CoapOption(last + delta, afterLength[..length]), afterLength[length..]))
  }

  function DecodeOptions(last: u16, s: bytes): Result<(seq<CoapOption>, bytes)>
    decreases |s|
  {
    if s == [] then Ok(([], []))
    else if s[0] == PAYLOAD_MARKER then Ok(([], s[1..]))
    else
      var (o, rest) :- DecodeOption(last, s);
      var (options, payload) :- DecodeOptions(o.number, rest);
      Ok(([o] + options, payload))
  }

  function Decoded(s: bytes): Result<CoapMessage> {
    if |s| < 4 || s[0] / 64 != 1 then Err else
    var tokenLen := s[0] % 16;
    if tokenLen > 8 || |s| < 4 + tokenLen then Err else
    var (options, payload) :- DecodeOptions(0, s[4 + tokenLen..]);
    Ok(CoapMessage(TypeOf(s[0] / 16 % 4), s[1], ReadU16(s[2..4]), s[4..4 + tokenLen], options, payload))
  }

  method Encode(m: CoapMessage) returns (r: Result<bytes>)
    ensures r == Encoded(m)
  {
    if |m.token| > 8 {
      return Err;
    }
    var out := Prefix(m);
    var options := StableSorted(m.options);
    var last: u16 := 0;
    var body: bytes := [];
    assert options[0..] == options;
    PrependNothing(EncodeOptions(0, options));
    for i := 0 to |options|
      invariant EncodeOptions(0, options) == Prepended(body, EncodeOptions(last, options[i..]))
    {
      var o := options[i];
      if o.number < last {
        return Err;
      }
      var header := OptionHeader(o.number - last, |o.value|);
      if header.Err? {
        return Err;
      }
      assert options[i..][1..] == options[i + 1..];
      PrependTwice(body, header.value + o.value, EncodeOptions(o.number, options[i + 1..]));
      body := body + (header.value + o.value);
      last := o.number;
    }
    assert body + [] == body;
    out := out + body;
    if m.payload != [] {
      out := out + ([PAYLOAD_MARKER] + m.payload);
    } else {
      assert out + [] == out;
    }
    r := Ok(out);
  }

  /** `options` ahead of a decoded option region. */
  function WithOptions(options: seq<CoapOption>,
                       r: Result<(seq<CoapOption>, bytes)>): Result<(seq<CoapOption>, bytes)> {
    match r
    case Ok((more, payload)) => Ok((options + more, payload))
    case Err => Err
  }

  method Decode(s: bytes) returns (r: Result<CoapMessage>)
    ensures r == Decoded(s)
  {
    hide DecodeOption, ReadU16;
    if |s| < 4 || s[0] / 64 != 1 {
      return Err;
    }
    var tokenLen := s[0] % 16;
    if tokenLen > 8 || |s| < 4 + tokenLen {
      return Err;
    }
    var rest := s[4 + tokenLen..];
    var last: u16 := 0;
    var options: seq<CoapOption> := [];
    var payload: bytes := [];
    ghost var region := DecodeOptions(0, rest);
    assert region == WithOptions([], region) by {
      if region.Ok? {
        assert [] + region.value.0 == region.value.0;
      }
    }
    while rest != [] && rest[0] != PAYLOAD_MARKER
      invariant region == WithOptions(options, DecodeOptions(last, rest))
      decreases |rest|
    {
      var next := DecodeOption(last, rest);
      if next.Err? {
        return Err;
      }
      ghost var more := DecodeOptions(next.value.0.number, next.value.1);
      if more.Ok? {
        assert options + ([next.value.0] + more.value.0) == (options + [next.value.0]) + more.value.0;
      }
      options := options + [next.value.0];
      last := next.value.0.number;
      rest := next.value.1;
    }
    if rest != [] {
      payload := rest[1..];
    }
    assert options + [] == options;
    r := Ok(CoapMessage(TypeOf(s[0] / 16 % 4), s[1], ReadU16(s[2..4]), s[4..4 + tokenLen], options, payload));
  }

  // ---- Round trips ----

  ghost predicate ValuesFit(options: seq<CoapOption>) {
    forall i :: 0 <= i < |options| ==> |options[i].value| < 0x1_0000
  }

  lemma FirstByte(delta: u16, length: u16)
    ensures var (d, l) := (EncodeNibble(delta).0, EncodeNibble(length).0);
            (16 * d + l) / 16 == d && (16 * d + l) % 16 == l && 16 * d + l < PAYLOAD_MARKER
  {
    var (d, l) := (EncodeNibble(delta).0, EncodeNibble(length).0);
    RemainderUnique(16 * d + l, 16, d, l);
  }

  lemma OptionRoundTrip(last: u16, o: CoapOption, rest: bytes)
    requires last <= o.number && |o.value| < 0x1_0000
    ensures OptionHeader(o.number - last, |o.value|).Ok?
    ensures var s := OptionHeader(o.number - last, |o.value|).value + o.value + rest;
            s != [] && s[0] != PAYLOAD_MARKER && DecodeOption(last, s) == Ok((o, rest))
  {
    hide EncodeNibble, DecodeNibble;
    var delta: u16, length: u16 := o.number - last, |o.value|;
    var deltaExtra, lengthExtra := EncodeNibble(delta).1, EncodeNibble(length).1;
    var s := OptionHeader(delta, length).value + o.value + rest;
    var afterLength := o.value + rest;
    FirstByte(delta, length);
    assert s[1..] == deltaExtra + (lengthExtra + afterLength);
    NibbleRoundTrip(delta, lengthExtra + afterLength);
    NibbleRoundTrip(length, afterLength);
    assert DecodeNibble(s[0] / 16, s[1..]) == Ok((delta, lengthExtra + afterLength));
    assert DecodeNibble(s[0] % 16, lengthExtra + afterLength) == Ok((length, afterLength));
    assert afterLength[..length] == o.value && afterLength[length..] == rest;
  }

  ghost predicate DecodesTo(last: u16, s: bytes, options: seq<CoapOption>, payload: bytes) {
    DecodeOptions(last, s) == Ok((options, payload))
  }

  lemma PayloadOnly(last: u16, payload: bytes)
    ensures DecodesTo(last, [] + PayloadPart(payload), [], payload)
  {
    var s := [] + PayloadPart(payload);
    assert s == PayloadPart(payload);
    if payload != [] {
      assert s[1..] == payload;
    }
  }

  /** Options that can follow an option numbered `last`. */
  ghost predicate Ascending(last: u16, options: seq<CoapOption>)
    decreases |options|
  {
    options == []
    || (last <= options[0].number && |options[0].value| < 0x1_0000 && Ascending(options[0].number, options[1..]))
  }

  lemma {:induction false} OrderedAscends(last: u16, options: seq<CoapOption>)
    requires Ordered(options) && ValuesFit(options)
    requires options != [] ==> last <= options[0].number
    ensures Ascending(last, options)
    decreases |options|
  {
    if options != [] {
      OrderedAscends(options[0].number, options[1..]);
    }
  }

  lemma {:induction false} OptionsRoundTrip(last: u16, options: seq<CoapOption>, payload: bytes)
    requires Ascending(last, options)
    ensures EncodeOptions(last, options).Ok?
    ensures DecodesTo(last, EncodeOptions(last, options).value + PayloadPart(payload), options, payload)
    decreases |options|
  {
    if options == [] {
      PayloadOnly(last, payload);
    } else {
      hide OptionHeader, DecodeOptions, PayloadPart;
      var o, rest, tail := options[0], options[1..], PayloadPart(payload);
      OptionsRoundTrip(o.number, rest, payload);
      var encodedRest := EncodeOptions(o.number, rest).value;
      OptionAhead(last, o, encodedRest, tail, rest, payload);
      var encoded := OptionHeader(o.number - last, |o.value|).value + o.value + encodedRest;
      assert EncodeOptions(last, options) == Ok(encoded);
      assert options == [o] + rest;
      assert DecodesTo(last, encoded + tail, options, payload);
    }
  }

  /** One more option in front of an encoded region. */
  lemma OptionAhead(last: u16, o: CoapOption, rest: bytes, tail: bytes, more: seq<CoapOption>, payload: bytes)
    requires last <= o.number && |o.value| < 0x1_0000
    requires DecodesTo(o.number, rest + tail, more, payload)
    ensures OptionHeader(o.number - last, |o.value|).Ok?
    ensures DecodesTo(last, OptionHeader(o.number - last, |o.value|).value + o.value + rest + tail, [o] + more, payload)
  {
    OptionRoundTrip(last, o, rest + tail);
    var first := OptionHeader(o.number - last, |o.value|).value + o.value;
    assert first + rest + tail == first + (rest + tail);
    DecodeStep(last, first + (rest + tail), o, rest + tail);
  }

  lemma DecodeStep(last: u16, s: bytes, o: CoapOption, rest: bytes)
    requires s != [] && s[0] != PAYLOAD_MARKER && DecodeOption(last, s) == Ok((o, rest))
    ensures DecodeOptions(last, s) == WithOptions([o], DecodeOptions(o.number, rest))
  {
  }

  lemma PrefixRoundTrip(m: CoapMessage, region: bytes)
    requires |m.token| <= 8
    ensures var s := Prefix(m) + region;
            && |s| >= 4 + |m.token| && s[0] / 64 == 1 && s[0] % 16 == |m.token|
            && TypeOf(s[0] / 16 % 4) == m.kind && s[1] == m.code && ReadU16(s[2..4]) == m.messageId
            && s[4..4 + |m.token|] == m.token && s[4 + |m.token|..] == region
  {
    var s := Prefix(m) + region;
    U16RoundTrip(m.messageId);
    assert s[2..4] == U16Bytes(m.messageId);
    assert s[0] == 64 + 16 * TypeBits(m.kind) + |m.token|;
    assert s[0] / 16 == 4 + TypeBits(m.kind);
  }

  /** Decoding inverts encoding up to the stable order of the options, for
      every message that fits the format. */
  lemma CoapRoundTrip(m: CoapMessage)
    requires |m.token| <= 8 && ValuesFit(m.options)
    ensures Encoded(m).Ok?
    ensures Decoded(Encoded(m).value) == Ok(m.(options := StableSorted(m.options)))
  {
    var sorted := StableSorted(m.options);
    StableSortedIsStable(m.options);
    forall i | 0 <= i < |sorted|
      ensures |sorted[i].value| < 0x1_0000
    {
      assert sorted[i] in m.options;
    }
    OrderedAscends(0, sorted);
    OptionsRoundTrip(0, sorted, m.payload);
    var region := EncodeOptions(0, sorted).value + PayloadPart(m.payload);
    PrefixRoundTrip(m, region);
    assert Encoded(m).value == Prefix(m) + region;
  }

  lemma {:induction false} OptionsTooLong(last: u16, options: seq<CoapOption>, i: nat)
    requires i < |options| && |options[i].value| >= 0x1_0000
    ensures EncodeOptions(last, options).Err?
    decreases i
  {
    if i > 0 && options[0].number >= last {
      OptionsTooLong(options[0].number, options[1..], i - 1);
    }
  }

  /** Encoding succeeds exactly on the messages that fit the format. */
  lemma EncodesExactly(m: CoapMessage)
    ensures Encoded(m).Ok? <==> |m.token| <= 8 && ValuesFit(m.options)
  {
    if |m.token| <= 8 {
      if ValuesFit(m.options) {
        CoapRoundTrip(m);
      } else {
        var i :| 0 <= i < |m.options| && |m.options[i].value| >= 0x1_0000;
        StableSortedIsStable(m.options);
        assert m.options[i] in StableSorted(m.options);
        var j :| 0 <= j < |StableSorted(m.options)| && StableSorted(m.options)[j] == m.options[i];
        OptionsTooLong(0, StableSorted(m.options), j);
      }
    }
  }

  lemma {:induction false} DecodedOptionsFit(last: u16, s: bytes)
    requires DecodeOptions(last, s).Ok?
    ensures var options := DecodeOptions(last, s).value.0;
            Ordered(options) && ValuesFit(options) && (options != [] ==> last <= options[0].number)
    decreases |s|
  {
    if s != [] && s[0] != PAYLOAD_MARKER {
      var (o, rest) := DecodeOption(last, s).value;
      DecodedOptionsFit(o.number, rest);
      var more := DecodeOptions(o.number, rest).value.0;
      assert forall i :: 0 <= i < |more| ==> more[0].number <= more[i].number;
    }
  }

  lemma {:induction false} OrderedIsSorted(options: seq<CoapOption>)
    requires Ordered(options)
    ensures StableSorted(options) == options
  {
    StableSortedIsStable(options);
    StableOrderUnique(StableSorted(options), options);
  }

  /** Anything that decodes can be encoded again and decodes to itself. */
  lemma ReencodeDecoded(s: bytes)
    requires Decoded(s).Ok?
    ensures Encoded(Decoded(s).value).Ok?
    ensures Decoded(Encoded(Decoded(s).value).value) == Decoded(s)
  {
    var m := Decoded(s).value;
    DecodedOptionsFit(0, s[4 + s[0] % 16..]);
    OrderedIsSorted(m.options);
    CoapRoundTrip(m);
  }
}
