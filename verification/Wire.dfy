/** Bytes, big-endian integers and the result types shared by every component.

    Machine integers are unbounded `int`s restricted by subset types; every
    truncation or wrap-around of the original is written out where it happens. */
module Wire {

  type byte = x: int | 0 <= x < 0x100 witness 0
  type u16 = x: int | 0 <= x < 0x1_0000 witness 0
  type u64 = x: int | 0 <= x < 0x1_0000_0000_0000_0000 witness 0
  type bytes = seq<byte>

  const U64_LIMIT := 0x1_0000_0000_0000_0000
  const SEQUENCE_LIMIT := 0x1_0000_0000_0000

  datatype Option<+T> = None | Some(value: T)

  /** The outcome of a fallible operation; error texts are not modelled. */
  datatype Result<+T> = Ok(value: T) | Err {
    predicate IsFailure() {
      Err?
    }

    function PropagateFailure<U>(): Result<U>
      requires Err?
    {
      Err
    }

    function Extract(): T
      requires Ok?
    {
      value
    }
  }

  /** `front` ahead of a successful sequence result. */
  function Prepended<T>(front: seq<T>, r: Result<seq<T>>): Result<seq<T>> {
    match r
    case Ok(back) => Ok(front + back)
    case Err => Err
  }

  lemma PrependNothing<T>(r: Result<seq<T>>)
    ensures Prepended([], r) == r
  {
    if r.Ok? {
      assert [] + r.value == r.value;
    }
  }

  lemma PrependTwice<T>(front: seq<T>, middle: seq<T>, r: Result<seq<T>>)
    ensures Prepended(front, Prepended(middle, r)) == Prepended(front + middle, r)
  {
    if r.Ok? {
      assert front + (middle + r.value) == (front + middle) + r.value;
    }
  }

  /** The increment of a 64-bit counter, which wraps. */
  function WrappingIncrement(n: u64): u64 {
    (n + 1) % U64_LIMIT
  }

  function Pow256(k: nat): (p: nat)
    ensures p > 0
  {
    if k == 0 then 1 else 256 * Pow256(k - 1)
  }

  /** The low `k` bytes of `n`, most significant first. */
  function ToBytes(n: nat, k: nat): (s: bytes)
    ensures |s| == k
  {
    if k == 0 then [] else ToBytes(n / 256, k - 1) + [n % 256]
  }

  /** The number written most significant byte first in `s`. */
  function FromBytes(s: bytes): (n: nat)
    ensures n < Pow256(|s|)
  {
    if s == [] then 0 else 256 * FromBytes(s[..|s| - 1]) + s[|s| - 1]
  }

  /** Writing truncates to `k` bytes and reading gives back what is left. */
  lemma {:induction false} FromToBytes(n: nat, k: nat)
    ensures FromBytes(ToBytes(n, k)) == n % Pow256(k)
  {
    if k > 0 {
      FromToBytes(n / 256, k - 1);
      assert ToBytes(n, k)[..k - 1] == ToBytes(n / 256, k - 1);
      ModByProduct(n, Pow256(k - 1));
    }
  }

  lemma ModByProduct(n: nat, p: nat)
    requires p > 0
    ensures 256 * ((n / 256) % p) + n % 256 == n % (256 * p)
  {
    var q := n / 256;
    var r := 256 * (q % p) + n % 256;
    assert n == 256 * q + n % 256;
    assert q == p * (q / p) + q % p;
    assert n == (256 * p) * (q / p) + r by {
      calc {
        n;
        256 * (p * (q / p) + q % p) + n % 256;
        (256 * p) * (q / p) + r;
      }
    }
    assert 0 <= r < 256 * p by {
      assert q % p <= p - 1;
    }
    RemainderUnique(n, 256 * p, q / p, r);
  }

  lemma AtLeastOnce(d: int, k: int)
    requires d > 0 && k >= 1
    ensures d * k >= d
  {
    assert d * k == d + d * (k - 1);
  }

  lemma RemainderUnique(n: int, d: int, q: int, r: int)
    requires 0 <= r < d
    requires n == d * q + r
    ensures n % d == r && n / d == q
  {
    var q', r' := n / d, n % d;
    assert n == d * q' + r';
    assert d * (q - q') == d * q - d * q';
    assert d * (q' - q) == d * q' - d * q;
    if q > q' {
      AtLeastOnce(d, q - q');
    } else if q < q' {
      AtLeastOnce(d, q' - q);
    }
  }

  lemma SmallMod(n: nat, d: nat)
    requires n < d
    ensures n % d == n
  {
  }

  lemma {:induction false} ToFromBytes(s: bytes)
    ensures ToBytes(FromBytes(s), |s|) == s
  {
    if s != [] {
      var front, last := s[..|s| - 1], s[|s| - 1];
      ToFromBytes(front);
      RemainderUnique(FromBytes(s), 256, FromBytes(front), last);
      assert s == front + [last];
    }
  }

  lemma Pow256Values()
    ensures Pow256(1) == 0x100 && Pow256(2) == 0x1_0000 && Pow256(3) == 0x100_0000
    ensures Pow256(6) == SEQUENCE_LIMIT
  {
    assert Pow256(4) == 256 * Pow256(3);
    assert Pow256(5) == 256 * Pow256(4);
    assert Pow256(6) == 256 * Pow256(5);
  }

  /** A number that fits survives the trip through its bytes. */
  lemma ReadBack(n: nat, k: nat)
    requires n < Pow256(k)
    ensures FromBytes(ToBytes(n, k)) == n
  {
    FromToBytes(n, k);
    SmallMod(n, Pow256(k));
  }

  function U16Bytes(n: u16): (s: bytes)
    ensures |s| == 2
  {
    ToBytes(n, 2)
  }

  function ReadU16(s: bytes): (n: u16)
    requires |s| == 2
  {
    Pow256Values();
    FromBytes(s)
  }

  lemma U16RoundTrip(n: u16)
    ensures ReadU16(U16Bytes(n)) == n
  {
    Pow256Values();
    ReadBack(n, 2);
  }

  lemma U16Inverse(s: bytes)
    requires |s| == 2
    ensures U16Bytes(ReadU16(s)) == s
  {
    ToFromBytes(s);
  }
}
