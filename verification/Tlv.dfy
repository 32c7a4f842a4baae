/** Thread TLV lists: one-byte and extended two-byte lengths. */
module Tlv {
  import opened Wire

  const MAX_STANDARD_LENGTH := 254
  const EXTENDED_MARKER: byte := 0xff
  const MAX_EXTENDED_LENGTH := 0xffff

  datatype Entry = Entry(kind: byte, value: bytes)

  function EncodeHeader(kind: byte, length: nat): Result<bytes> {
    if length <= MAX_STANDARD_LENGTH then Ok([kind, length])
    else if length <= MAX_EXTENDED_LENGTH then Ok([kind, EXTENDED_MARKER] + U16Bytes(length))
    else Err
  }

  function EncodeEntry(e: Entry): Result<bytes> {
    var header :- EncodeHeader(e.kind, |e.value|);
    Ok(header + e.value)
  }

  function ParseOne(s: bytes): (r: Result<(Entry, bytes)>)
    ensures r.Ok? ==> |r.value.1| < |s| && |r.value.0.value| <= MAX_EXTENDED_LENGTH
  {
    if |s| < 2 || (s[1] == EXTENDED_MARKER && |s| < 4) then Err else
    var (length, headerLen) := if s[1] == EXTENDED_MARKER then (ReadU16(s[2..4]), 4) else (s[1], 2);
    var end := headerLen + length;
    if |s| < end then Err else Ok((Entry(s[0], s[headerLen..end]), s[end..]))
  }

  function Encoded(entries: seq<Entry>): Result<bytes> {
    if entries == [] then Ok([]) else
    var first :- EncodeEntry(entries[0]);
    var rest :- Encoded(entries[1..]);
    Ok(first + rest)
  }

  function Parsed(s: bytes): Result<seq<Entry>>
    decreases |s|
  {
    if s == [] then Ok([]) else
    var (entry, rest) :- ParseOne(s);
    var entries :- Parsed(rest);
    Ok([entry] + entries)
  }

  method Parse(s: bytes) returns (r: Result<seq<Entry>>)
    ensures r == Parsed(s)
  {
    var remaining := s;
    var entries: seq<Entry> := [];
    PrependNothing(Parsed(s));
    while remaining != []
      invariant Parsed(s) == Prepended(entries, Parsed(remaining))
      decreases |remaining|
    {
      var next := ParseOne(remaining);
      if next.Err? {
        return Err;
      }
      PrependTwice(entries, [next.value.0], Parsed(next.value.1));
      entries := entries + [next.value.0];
      remaining := next.value.1;
    }
    assert entries + [] == entries;
    r := Ok(entries);
  }

  method Encode(entries: seq<Entry>) returns (r: Result<bytes>)
    ensures r == Encoded(entries)
  {
    var out: bytes := [];
    assert entries[0..] == entries;
    PrependNothing(Encoded(entries));
    for i := 0 to |entries|
      invariant Encoded(entries) == Prepended(out, Encoded(entries[i..]))
    {
      var next := EncodeEntry(entries[i]);
      if next.Err? {
        return Err;
      }
      assert entries[i..][1..] == entries[i + 1..];
      PrependTwice(out, next.value, Encoded(entries[i + 1..]));
      out := out + next.value;
    }
    assert out + [] == out;
    r := Ok(out);
  }

  lemma EntryRoundTrip(e: Entry, rest: bytes)
    requires EncodeEntry(e).Ok?
    ensures ParseOne(EncodeEntry(e).value + rest) == Ok((e, rest))
  {
    var s := EncodeEntry(e).value + rest;
    var headerLen := |EncodeHeader(e.kind, |e.value|).value|;
    if |e.value| > MAX_STANDARD_LENGTH {
      U16RoundTrip(|e.value|);
      assert s[2..4] == U16Bytes(|e.value|);
    }
    assert s[headerLen..headerLen + |e.value|] == e.value;
    assert s[headerLen + |e.value|..] == rest;
  }

  /** Parsing inverts encoding whenever encoding succeeds. */
  lemma {:induction false} ParseAfterEncode(entries: seq<Entry>)
    requires Encoded(entries).Ok?
    ensures Parsed(Encoded(entries).value) == Ok(entries)
  {
    if entries != [] {
      EntryRoundTrip(entries[0], Encoded(entries[1..]).value);
      ParseAfterEncode(entries[1..]);
      assert entries == [entries[0]] + entries[1..];
    }
  }

  lemma {:induction false} EncodesExactly(entries: seq<Entry>)
    ensures Encoded(entries).Ok? <==> forall i :: 0 <= i < |entries| ==> |entries[i].value| <= MAX_EXTENDED_LENGTH
  {
    if entries != [] {
      EncodesExactly(entries[1..]);
      assert forall i :: 0 < i < |entries| ==> entries[i] == entries[1..][i - 1];
      if Encoded(entries).Ok? {
        forall i | 0 <= i < |entries|
          ensures |entries[i].value| <= MAX_EXTENDED_LENGTH
        {
          assert i > 0 ==> entries[i] == entries[1..][i - 1];
        }
      }
    }
  }

  /** What was parsed encodes again, in no more bytes than it came from. */
  lemma {:induction false} EncodeAfterParse(s: bytes)
    requires Parsed(s).Ok?
    ensures Encoded(Parsed(s).value).Ok?
    ensures |Encoded(Parsed(s).value).value| <= |s|
    decreases |s|
  {
    if s != [] {
      var (entry, rest) := ParseOne(s).value;
      EncodeAfterParse(rest);
      var entries := Parsed(rest).value;
      assert ([entry] + entries)[1..] == entries;
    }
  }

  /** Encoding after parsing is a normal form: it parses to the same entries
      and encoding those again changes nothing. */
  lemma NormalForm(s: bytes)
    requires Parsed(s).Ok?
    ensures Encoded(Parsed(s).value).Ok?
    ensures var normal := Encoded(Parsed(s).value).value;
            Parsed(normal) == Parsed(s) && Encoded(Parsed(normal).value) == Ok(normal)
  {
    EncodeAfterParse(s);
    ParseAfterEncode(Parsed(s).value);
  }

  // ---- Entry lists ----

  /** The value of the last entry of a kind. */
  function LastValue(entries: seq<Entry>, kind: byte): Option<bytes> {
    if entries == [] then None
    else if entries[|entries| - 1].kind == kind then Some(entries[|entries| - 1].value)
    else LastValue(entries[..|entries| - 1], kind)
  }
}
