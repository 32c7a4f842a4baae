/** Reassembly of one handshake message from fragments that may arrive in any
    order, overlap, repeat and differ in size (section 4.2.3 of RFC 6347). */
module Reassembly {
  import opened Wire
  import opened Framing

  /** Bound on the buffer one fragment header can make a peer allocate. */
  const MAX_MESSAGE_LEN := 64 * 1024

  /** The value of a reassembler: `body[p]` is meaningful once `filled[p]`. */
  datatype Assembly =
    Assembly(kind: Option<Kind>, messageSeq: Option<u16>, body: bytes, filled: seq<bool>)
  {
    predicate Valid() {
      |body| == |filled|
    }
  }

  const Empty := Assembly(None, None, [], [])

  function InitializeOrValidate(a: Assembly, h: FragmentHeader): (r: Result<Assembly>)
    requires a.Valid()
    ensures r.Ok? ==> r.value.Valid()
  {
    match (a.kind, a.messageSeq)
    case (None, None) =>
      if h.length > MAX_MESSAGE_LEN then Err
      else Ok(Assembly(Some(h.kind), Some(h.messageSeq), seq(h.length, _ => 0), seq(h.length, _ => false)))
    case (Some(kind), Some(messageSeq)) =>
      if kind == h.kind && messageSeq == h.messageSeq && |a.body| == h.length then Ok(a) else Err
    case _ => Err
  }

  /** Copies `data` to position `at` on, stopping at the first byte that
      contradicts a filled one; the flag says whether it got to the end. */
  function Written(a: Assembly, at: nat, data: bytes): (r: (Assembly, bool))
    requires a.Valid() && at + |data| <= |a.body|
    ensures r.0.Valid() && |r.0.body| == |a.body|
    ensures r.0.kind == a.kind && r.0.messageSeq == a.messageSeq
    decreases |data|
  {
    if data == [] then (a, true)
    else if a.filled[at] && a.body[at] != data[0] then (a, false)
    else Written(a.(body := a.body[at := data[0]], filled := a.filled[at := true]), at + 1, data[1..])
  }

  ghost predicate Complete(a: Assembly) {
    forall p :: 0 <= p < |a.filled| ==> a.filled[p]
  }

  /** `push`: the reassembler after a fragment, and what the caller gets. */
  ghost function Pushed(a: Assembly, f: Fragment): (r: (Assembly, Result<Option<Message>>))
    requires a.Valid()
    ensures r.0.Valid()
  {
    var started := InitializeOrValidate(a, f.header);
    if started.Err? then (a, Err)
    else if f.header.offset + |f.data| > |started.value.body| then (started.value, Err)
    else
      var (next, agreed) := Written(started.value, f.header.offset, f.data);
      if !agreed then (next, Err)
      else if !Complete(next) then (next, Ok(None))
      else if next.kind.None? || next.messageSeq.None? then (next, Err)
      else (next, Ok(Some(Message(next.kind.value, next.messageSeq.value, next.body))))
  }

  class HandshakeReassembler {
    var kind: Option<Kind>
    var messageSeq: Option<u16>
    var body: array<byte>
    var filled: array<bool>

    ghost predicate Valid()
      reads this
    {
      body.Length == filled.Length
    }

    ghost function Value(): Assembly
      reads this, body, filled
    {
      Assembly(kind, messageSeq, body[..], filled[..])
    }

    constructor ()
      ensures Valid() && Value() == Empty && fresh(body) && fresh(filled)
    {
      kind, messageSeq := None, None;
      body, filled := new byte[0], new bool[0];
    }

    method Push(f: Fragment) returns (r: Result<Option<Message>>)
      requires Valid()
      modifies this, body, filled
      ensures Valid()
      ensures body == old(body) || fresh(body)
      ensures filled == old(filled) || fresh(filled)
      ensures (Value(), r) == Pushed(old(Value()), f)
    {
      var started := Start(f.header);
      if !started {
        return Err;
      }
      if f.header.offset + |f.data| > body.Length {
        return Err;
      }
      var agreed := Copy(f.header.offset, f.data);
      if !agreed {
        return Err;
      }
      var all := AllFilled();
      if !all {
        return Ok(None);
      }
      if kind.None? || messageSeq.None? {
        return Err;
      }
      r := Ok(Some(Message(kind.value, messageSeq.value, body[..])));
    }

    method Copy(at: nat, data: bytes) returns (agreed: bool)
      requires Valid() && at + |data| <= body.Length
      modifies body, filled
      ensures (Value(), agreed) == Written(old(Value()), at, data)
    {
      ghost var base := Value();
      var i := 0;
      while i < |data|
        invariant 0 <= i <= |data|
        invariant Value().Valid() && Value().kind == base.kind && Value().messageSeq == base.messageSeq
        invariant Written(base, at, data) == Written(Value(), at + i, data[i..])
      {
        var position := at + i;
        if filled[position] && body[position] != data[i] {
          return false;
        }
        ghost var before := Value();
        body[position] := data[i];
        filled[position] := true;
        assert Value() == before.(body := before.body[position := data[i]],
                                  filled := before.filled[position := true]);
        assert data[i..][1..] == data[i + 1..];
        i := i + 1;
      }
      agreed := true;
    }

    method AllFilled() returns (all: bool)
      requires Valid()
      ensures all <==> Complete(Value())
    {
      for p := 0 to filled.Length
        invariant forall q :: 0 <= q < p ==> filled[q]
      {
        if !filled[p] {
          return false;
        }
      }
      all := true;
    }

    /** `initialize_or_validate`. */
    method Start(h: FragmentHeader) returns (ok: bool)
      requires Valid()
      modifies this
      ensures Valid()
      ensures body == old(body) || fresh(body)
      ensures filled == old(filled) || fresh(filled)
      ensures ok <==> InitializeOrValidate(old(Value()), h).Ok?
      ensures Value() == if ok then InitializeOrValidate(old(Value()), h).value else old(Value())
    {
      match (kind, messageSeq)
      case (None, None) =>
        if h.length > MAX_MESSAGE_LEN {
          return false;
        }
        kind, messageSeq := Some(h.kind), Some(h.messageSeq);
        body := new byte[h.length](_ => 0);
        filled := new bool[h.length](_ => false);
        ok := true;
      case (Some(k), Some(s)) =>
        ok := k == h.kind && s == h.messageSeq && body.Length == h.length;
      case _ =>
        ok := false;
    }
  }

  // ---- What any push preserves ----

  /** A filled byte of `a` is filled with the same value in `b`. */
  ghost predicate Keeps(a: Assembly, b: Assembly) {
    forall p :: 0 <= p < |a.filled| && p < |a.body| && a.filled[p] ==>
      p < |b.filled| && p < |b.body| && b.filled[p] && b.body[p] == a.body[p]
  }

  lemma {:induction false} WrittenKeeps(a: Assembly, at: nat, data: bytes)
    requires a.Valid() && at + |data| <= |a.body|
    ensures Keeps(a, Written(a, at, data).0)
    decreases |data|
  {
    if data != [] && !(a.filled[at] && a.body[at] != data[0]) {
      var next := a.(body := a.body[at := data[0]], filled := a.filled[at := true]);
      WrittenKeeps(next, at + 1, data[1..]);
    }
  }

  /** No push, accepted or rejected, changes a byte already filled. */
  lemma PushKeeps(a: Assembly, f: Fragment)
    requires a.Valid()
    requires a.kind.None? && a.messageSeq.None? ==> a == Empty
    ensures Keeps(a, Pushed(a, f).0)
    ensures Pushed(a, f).0.kind.None? && Pushed(a, f).0.messageSeq.None? ==> Pushed(a, f).0 == Empty
  {
    var started := InitializeOrValidate(a, f.header);
    if started.Ok? && f.header.offset + |f.data| <= |started.value.body| {
      WrittenKeeps(started.value, f.header.offset, f.data);
    }
  }

  /** The reassembler after a run of pushes, whatever each of them returned. */
  ghost function Run(fragments: seq<Fragment>): (a: Assembly)
    ensures a.Valid()
  {
    if fragments == [] then Empty
    else Pushed(Run(fragments[..|fragments| - 1]), fragments[|fragments| - 1]).0
  }

  /** What the last push of a run returned. */
  ghost function LastResult(fragments: seq<Fragment>): Result<Option<Message>>
    requires fragments != []
  {
    Pushed(Run(fragments[..|fragments| - 1]), fragments[|fragments| - 1]).1
  }

  /** Over a whole run of arbitrary fragments, a byte once filled never changes. */
  lemma {:induction false} RunKeeps(fragments: seq<Fragment>, n: nat)
    requires n <= |fragments|
    ensures Keeps(Run(fragments[..n]), Run(fragments))
    ensures Run(fragments).kind.None? && Run(fragments).messageSeq.None? ==> Run(fragments) == Empty
  {
    if fragments == [] || n == |fragments| {
      assert fragments[..n] == fragments;
    }
    if fragments != [] {
      var front := fragments[..|fragments| - 1];
      RunKeeps(front, if n == |fragments| then 0 else n);
      PushKeeps(Run(front), fragments[|fragments| - 1]);
      if n < |fragments| {
        assert front[..n] == fragments[..n];
      }
    }
  }

  // ---- Slices of one message ----

  ghost predicate IsSliceOf(f: Fragment, m: Message) {
    && f.header.offset + |f.data| <= |m.body|
    && f == Slice(m, f.header.offset, f.header.offset + |f.data|)
  }

  ghost predicate SlicesOf(fragments: seq<Fragment>, m: Message) {
    forall i :: 0 <= i < |fragments| ==> IsSliceOf(fragments[i], m)
  }

  ghost predicate Covers(f: Fragment, p: nat) {
    f.header.offset <= p < f.header.offset + |f.data|
  }

  ghost predicate Covered(fragments: seq<Fragment>, p: nat) {
    exists i :: 0 <= i < |fragments| && Covers(fragments[i], p)
  }

  ghost predicate CoversAll(fragments: seq<Fragment>, m: Message) {
    forall p :: 0 <= p < |m.body| ==> Covered(fragments, p)
  }

  /** The assembly holds bytes of `m` only. */
  ghost predicate Agrees(a: Assembly, m: Message) {
    && a.kind == Some(m.kind) && a.messageSeq == Some(m.messageSeq)
    && |a.body| == |a.filled| == |m.body|
    && forall p :: 0 <= p < |m.body| && a.filled[p] ==> a.body[p] == m.body[p]
  }

  /** Writing a slice into an assembly that agrees with the message always
      succeeds and fills exactly the slice's range. */
  lemma {:induction false} WriteSlice(a: Assembly, m: Message, at: nat, data: bytes)
    requires Agrees(a, m)
    requires at + |data| <= |m.body| && data == m.body[at..at + |data|]
    ensures Written(a, at, data).1
    ensures Agrees(Written(a, at, data).0, m)
    ensures forall p :: 0 <= p < |m.body| ==>
              (Written(a, at, data).0.filled[p] <==> a.filled[p] || at <= p < at + |data|)
    decreases |data|
  {
    if data != [] {
      assert data[0] == m.body[at];
      assert data[1..] == m.body[at + 1..at + 1 + |data[1..]|];
      WriteSlice(a.(body := a.body[at := data[0]], filled := a.filled[at := true]), m, at + 1, data[1..]);
    }
  }

  lemma PushSlice(a: Assembly, m: Message, f: Fragment)
    requires |m.body| <= MAX_MESSAGE_LEN && IsSliceOf(f, m)
    requires a == Empty || Agrees(a, m)
    ensures Pushed(a, f).1.Ok?
    ensures Agrees(Pushed(a, f).0, m)
    ensures forall p :: 0 <= p < |m.body| ==>
              (Pushed(a, f).0.filled[p] <==> (a != Empty && a.filled[p]) || Covers(f, p))
    ensures Pushed(a, f).1 == Ok(if Complete(Pushed(a, f).0) then Some(m) else None)
  {
    var started := InitializeOrValidate(a, f.header).value;
    assert Agrees(started, m);
    WriteSlice(started, m, f.header.offset, f.data);
    var next := Pushed(a, f).0;
    if Complete(next) {
      assert next.body == m.body;
    }
  }

  lemma CoveredByLast(fragments: seq<Fragment>, p: nat)
    requires fragments != []
    ensures Covered(fragments, p) <==>
            Covered(fragments[..|fragments| - 1], p) || Covers(fragments[|fragments| - 1], p)
  {
    var front, last := fragments[..|fragments| - 1], fragments[|fragments| - 1];
    if Covered(front, p) {
      var i :| 0 <= i < |front| && Covers(front[i], p);
      assert Covers(fragments[i], p);
    }
    if Covered(fragments, p) && !Covers(last, p) {
      var i :| 0 <= i < |fragments| && Covers(fragments[i], p);
      assert Covers(front[i], p);
    }
  }

  /** Slices of one message, in any order and with any overlap and repetition,
      fill exactly the bytes they cover. */
  lemma {:induction false} RunOfSlices(m: Message, fragments: seq<Fragment>)
    requires |m.body| <= MAX_MESSAGE_LEN && SlicesOf(fragments, m)
    requires fragments != []
    ensures Agrees(Run(fragments), m)
    ensures forall p :: 0 <= p < |m.body| ==> (Run(fragments).filled[p] <==> Covered(fragments, p))
    ensures LastResult(fragments) == Ok(if Complete(Run(fragments)) then Some(m) else None)
  {
    var front, last := fragments[..|fragments| - 1], fragments[|fragments| - 1];
    if front != [] {
      RunOfSlices(m, front);
    }
    PushSlice(Run(front), m, last);
    forall p | 0 <= p < |m.body|
      ensures Run(fragments).filled[p] <==> Covered(fragments, p)
    {
      CoveredByLast(fragments, p);
    }
  }

  /** The main result: no slice of a message of at most 64 KiB is ever
      rejected, and the message comes out of a push exactly when the slices
      pushed so far cover it. Applied to every prefix of a run, this is the
      result of every push in it. */
  lemma SlicesReassemble(m: Message, fragments: seq<Fragment>)
    requires |m.body| <= MAX_MESSAGE_LEN && SlicesOf(fragments, m)
    requires fragments != []
    ensures LastResult(fragments) == Ok(if CoversAll(fragments, m) then Some(m) else None)
  {
    RunOfSlices(m, fragments);
    assert Complete(Run(fragments)) <==> CoversAll(fragments, m);
  }

  /** A longer message is refused from the first slice on, and nothing is kept. */
  lemma {:induction false} OversizedNeverStarts(m: Message, fragments: seq<Fragment>)
    requires |m.body| > MAX_MESSAGE_LEN && SlicesOf(fragments, m)
    ensures Run(fragments) == Empty
    ensures fragments != [] ==> LastResult(fragments) == Err
  {
    if fragments != [] {
      OversizedNeverStarts(m, fragments[..|fragments| - 1]);
    }
  }

  // ---- The fragments a sender produces ----

  lemma {:induction false} SlicesFromCover(m: Message, size: nat, from: nat)
    requires size > 0 && from <= |m.body|
    ensures SlicesOf(SlicesFrom(m, size, from), m)
    ensures forall p :: from <= p < |m.body| ==> Covered(SlicesFrom(m, size, from), p)
    decreases |m.body| - from
  {
    if from < |m.body| {
      var to := if |m.body| - from <= size then |m.body| else from + size;
      SlicesFromCover(m, size, to);
      var rest, all := SlicesFrom(m, size, to), SlicesFrom(m, size, from);
      forall p | from <= p < |m.body|
        ensures Covered(all, p)
      {
        if p < to {
          assert Covers(all[0], p);
        } else {
          assert Covered(rest, p);
          var i :| 0 <= i < |rest| && Covers(rest[i], p);
          assert Covers(all[i + 1], p);
        }
      }
    }
  }

  ghost predicate ContainsAll(fragments: seq<Fragment>, needed: seq<Fragment>) {
    forall i :: 0 <= i < |needed| ==> needed[i] in fragments
  }

  /** Fragment and reassemble: fragments of a message, split at any mixture of
      sizes and delivered in any order with any repetition, give the message
      back as soon as one complete split has arrived. */
  lemma FragmentThenReassemble(m: Message, size: nat, delivered: seq<Fragment>)
    requires |m.body| <= MAX_MESSAGE_LEN && size > 0
    requires SlicesOf(delivered, m)
    requires ContainsAll(delivered, Fragments(m, size).value)
    ensures delivered != [] && LastResult(delivered) == Ok(Some(m))
  {
    var needed := Fragments(m, size).value;
    assert needed != [] && needed[0] in delivered;
    if m.body != [] {
      SlicesFromCover(m, size, 0);
      forall p | 0 <= p < |m.body|
        ensures Covered(delivered, p)
      {
        assert Covered(needed, p);
        var i :| 0 <= i < |needed| && Covers(needed[i], p);
        assert needed[i] in delivered;
        var j :| 0 <= j < |delivered| && delivered[j] == needed[i];
        assert Covers(delivered[j], p);
      }
    }
    SlicesReassemble(m, delivered);
  }
}
