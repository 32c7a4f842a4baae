/** The sliding 64-record anti-replay window (section 4.1.2.6 of RFC 6347) and
    the unbounded set of sequence numbers it stands for. */
module Replay {
  import opened Wire

  const WIDTH := 64

  // ---- 64-bit word operations ----

  function Pow2(k: nat): (p: nat)
    ensures p > 0
  {
    if k == 0 then 1 else 2 * Pow2(k - 1)
  }

  /** `(w >> i) & 1 == 1`. */
  predicate Bit(w: nat, i: nat) {
    if i == 0 then w % 2 == 1 else Bit(w / 2, i - 1)
  }

  /** `w << n` on 64 bits: each doubling drops the top bit. */
  function ShiftLeft(w: u64, n: nat): u64
    decreases n
  {
    if n == 0 then w else ShiftLeft(2 * w % U64_LIMIT, n - 1)
  }

  /** `w | (1 << i)`. */
  function SetBit(w: nat, i: nat): (r: nat) {
    if i == 0 then w - w % 2 + 1 else 2 * SetBit(w / 2, i - 1) + w % 2
  }

  lemma {:induction false} SetBitFits(w: nat, i: nat, k: nat)
    requires w < Pow2(k) && i < k
    ensures SetBit(w, i) < Pow2(k)
  {
    if i > 0 {
      SetBitFits(w / 2, i - 1, k - 1);
    }
  }

  lemma {:induction false} BitOfSetBit(w: nat, i: nat, j: nat)
    ensures Bit(SetBit(w, i), j) <==> j == i || Bit(w, j)
    decreases i
  {
    var s := SetBit(w, i);
    if i == 0 {
      assert s / 2 == w / 2;
    } else {
      assert s % 2 == w % 2 && s / 2 == SetBit(w / 2, i - 1);
      if j > 0 {
        BitOfSetBit(w / 2, i - 1, j - 1);
      }
    }
  }

  lemma {:induction false} BitOfLowPart(w: nat, k: nat, i: nat)
    requires i < k
    ensures Bit(w % Pow2(k), i) <==> Bit(w, i)
    decreases k
  {
    var low := w % Pow2(k);
    HalfOfLowPart(w, Pow2(k - 1));
    if i > 0 {
      BitOfLowPart(w / 2, k - 1, i - 1);
    }
  }

  lemma HalfOfLowPart(w: nat, p: nat)
    requires p > 0
    ensures (w % (2 * p)) % 2 == w % 2 && (w % (2 * p)) / 2 == (w / 2) % p
  {
    var h := w / 2;
    var r := 2 * (h % p) + w % 2;
    assert h == p * (h / p) + h % p;
    assert w == (2 * p) * (h / p) + r by {
      assert 2 * (p * (h / p)) == (2 * p) * (h / p);
    }
    RemainderUnique(w, 2 * p, h / p, r);
  }

  lemma Pow2Is64()
    ensures Pow2(64) == U64_LIMIT
  {
    assert Pow2(8) == 0x100;
    assert Pow2(16) == 0x100 * Pow2(8) by { Pow2Sum(8, 8); }
    assert Pow2(32) == Pow2(16) * Pow2(16) by { Pow2Sum(16, 16); }
    Pow2Sum(32, 32);
  }

  lemma {:induction false} Pow2Sum(a: nat, b: nat)
    ensures Pow2(a + b) == Pow2(a) * Pow2(b)
  {
    if a > 0 {
      Pow2Sum(a - 1, b);
    }
  }

  lemma BitOfDouble(w: u64, i: nat)
    requires i < WIDTH
    ensures Bit(2 * w % U64_LIMIT, i) <==> i > 0 && Bit(w, i - 1)
  {
    Pow2Is64();
    BitOfLowPart(2 * w, 64, i);
    assert 2 * w / 2 == w;
  }

  lemma {:induction false} BitOfShift(w: u64, n: nat, i: nat)
    requires i < WIDTH
    ensures Bit(ShiftLeft(w, n), i) <==> i >= n && Bit(w, i - n)
    decreases n
  {
    if n > 0 {
      BitOfShift(2 * w % U64_LIMIT, n - 1, i);
      if i >= n - 1 {
        BitOfDouble(w, i - (n - 1));
      }
    }
  }

  // ---- The window ----

  datatype Window = Window(newest: Option<u64>, seen: u64)

  const Fresh := Window(None, 0)

  predicate HasSeen(w: Window, sequence: u64) {
    match w.newest
    case None => false
    case Some(newest) =>
      sequence <= newest && (newest - sequence >= WIDTH || Bit(w.seen, newest - sequence))
  }

  function MarkSeen(w: Window, sequence: u64): Window {
    match w.newest
    case None => Window(Some(sequence), 1)
    case Some(newest) =>
      if sequence > newest then
        var shift := sequence - newest;
        Window(Some(sequence), if shift >= WIDTH then 1 else WithBit(ShiftLeft(w.seen, shift), 0))
      else if newest - sequence < WIDTH then w.(seen := WithBit(w.seen, newest - sequence))
      else w
  }

  function WithBit(w: u64, i: nat): u64
    requires i < WIDTH
  {
    Pow2Is64();
    SetBitFits(w, i, 64);
    SetBit(w, i)
  }

  class ReplayWindow {
    var newest: Option<u64>
    var seen: u64

    ghost function Value(): Window
      reads this
    {
      Window(newest, seen)
    }

    constructor ()
      ensures Value() == Fresh
    {
      newest, seen := None, 0;
    }

    method Seen(sequence: u64) returns (r: bool)
      ensures r == HasSeen(Value(), sequence)
    {
      if newest.None? || sequence > newest.value {
        return false;
      }
      var offset := newest.value - sequence;
      r := offset >= WIDTH || Bit(seen, offset);
    }

    method Mark(sequence: u64)
      modifies this
      ensures Value() == MarkSeen(old(Value()), sequence)
    {
      match newest
      case None =>
        newest, seen := Some(sequence), 1;
      case Some(n) =>
        if sequence > n {
          var shift := sequence - n;
          seen := if shift >= WIDTH then 1 else WithBit(ShiftLeft(seen, shift), 0);
          newest := Some(sequence);
        } else {
          var offset := n - sequence;
          if offset < WIDTH {
            seen := WithBit(seen, offset);
          }
        }
    }
  }

  // ---- Refinement of the unbounded set ----

  /** What a window that forgot nothing would answer, except that it also
      claims every number 64 or more below one it has marked. */
  ghost predicate SeenIn(marked: set<u64>, sequence: u64) {
    sequence in marked || exists m :: m in marked && m >= sequence + WIDTH
  }

  ghost predicate Represents(w: Window, marked: set<u64>) {
    match w.newest
    case None => marked == {}
    case Some(newest) =>
      && newest in marked
      && (forall m :: m in marked ==> m <= newest)
      && forall s: u64 :: s <= newest < s + WIDTH ==> (Bit(w.seen, newest - s) <==> s in marked)
  }

  lemma BitsOfOne(i: nat)
    ensures Bit(1, i) <==> i == 0
  {
    if i > 0 {
      BitsOfZero(i - 1);
    }
  }

  lemma {:induction false} BitsOfZero(i: nat)
    ensures !Bit(0, i)
  {
    if i > 0 {
      BitsOfZero(i - 1);
    }
  }

  lemma MarkRepresents(w: Window, marked: set<u64>, sequence: u64)
    requires Represents(w, marked)
    ensures Represents(MarkSeen(w, sequence), marked + {sequence})
  {
    var after := MarkSeen(w, sequence);
    var newest := after.newest.value;
    forall s: u64 | s <= newest < s + WIDTH
      ensures Bit(after.seen, newest - s) <==> s in marked + {sequence}
    {
      if w.newest.None? || sequence >= w.newest.value + WIDTH {
        BitsOfOne(newest - s);
      } else if sequence > w.newest.value {
        var shift := sequence - w.newest.value;
        BitOfSetBit(ShiftLeft(w.seen, shift), 0, newest - s);
        BitOfShift(w.seen, shift, newest - s);
      } else if newest - sequence < WIDTH {
        BitOfSetBit(w.seen, newest - sequence, newest - s);
      }
    }
  }

  lemma RepresentedAnswer(w: Window, marked: set<u64>, sequence: u64)
    requires Represents(w, marked)
    ensures HasSeen(w, sequence) <==> SeenIn(marked, sequence)
  {
    if w.newest.Some? && sequence + WIDTH <= w.newest.value {
      assert w.newest.value in marked;
    }
  }

  ghost function Marked(marks: seq<u64>): set<u64> {
    set m | m in marks
  }

  function AfterMarks(marks: seq<u64>): Window {
    if marks == [] then Fresh
    else MarkSeen(AfterMarks(marks[..|marks| - 1]), marks[|marks| - 1])
  }

  lemma {:induction false} MarksRepresented(marks: seq<u64>)
    ensures Represents(AfterMarks(marks), Marked(marks))
  {
    if marks != [] {
      var front, last := marks[..|marks| - 1], marks[|marks| - 1];
      MarksRepresented(front);
      MarkRepresents(AfterMarks(front), Marked(front), last);
      assert Marked(marks) == Marked(front) + {last};
    }
  }

  /** The bitmap refines the unbounded set: after any marks in any order, a
      number counts as seen exactly when it was marked or lies 64 or more below
      a marked one. */
  lemma WindowRefinesSet(marks: seq<u64>, sequence: u64)
    ensures HasSeen(AfterMarks(marks), sequence) <==> SeenIn(Marked(marks), sequence)
  {
    MarksRepresented(marks);
    RepresentedAnswer(AfterMarks(marks), Marked(marks), sequence);
  }

  /** Once a number counts as seen, no later mark makes it acceptable again. */
  lemma SeenStaysSeen(marks: seq<u64>, n: nat, sequence: u64)
    requires n <= |marks|
    requires HasSeen(AfterMarks(marks[..n]), sequence)
    ensures HasSeen(AfterMarks(marks), sequence)
  {
    WindowRefinesSet(marks[..n], sequence);
    WindowRefinesSet(marks, sequence);
    assert Marked(marks[..n]) <= Marked(marks);
  }
}
