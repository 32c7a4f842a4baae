/** Arithmetic modulo a prime: the scalars of the curve's group. */
module Modular {
  import opened Wire

  ghost predicate IsPrime(n: nat) {
    n > 1 && forall d :: 1 < d < n ==> n % d != 0
  }

  /** `a` and `b` are the same scalar modulo `n`. */
  predicate Same(n: nat, a: int, b: int)
    requires n > 0
  {
    (a - b) % n == 0
  }

  predicate Zero(n: nat, a: int)
    requires n > 0
  {
    a % n == 0
  }

  lemma MultipleIsZero(n: nat, k: int)
    requires n > 0
    ensures (n * k) % n == 0
  {
    RemainderUnique(n * k, n, k, 0);
  }

  lemma ZeroIsMultiple(n: nat, a: int) returns (k: int)
    requires n > 0 && Zero(n, a)
    ensures a == n * k
  {
    k := a / n;
  }

  lemma ZeroTimes(n: nat, a: int, b: int)
    requires n > 0 && Zero(n, a)
    ensures Zero(n, a * b) && Zero(n, b * a)
  {
    var k := ZeroIsMultiple(n, a);
    assert a * b == n * (k * b);
    MultipleIsZero(n, k * b);
  }

  lemma ZeroPlus(n: nat, a: int, b: int)
    requires n > 0 && Zero(n, a)
    ensures Zero(n, a + b) <==> Zero(n, b)
    ensures Zero(n, b - a) <==> Zero(n, b)
    ensures Zero(n, -a)
  {
    var k := ZeroIsMultiple(n, a);
    var q, r := b / n, b % n;
    assert a + b == n * (k + q) + r;
    RemainderUnique(a + b, n, k + q, r);
    assert b - a == n * (q - k) + r;
    RemainderUnique(b - a, n, q - k, r);
    assert -a == n * (-k);
    MultipleIsZero(n, -k);
  }

  lemma SameIsEquivalence(n: nat, a: int, b: int, c: int)
    requires n > 0
    ensures Same(n, a, a)
    ensures Same(n, a, b) <==> Same(n, b, a)
    ensures Same(n, a, b) && Same(n, b, c) ==> Same(n, a, c)
    ensures Same(n, a, b) ==> (Zero(n, a) <==> Zero(n, b))
  {
    if Same(n, a, b) {
      ZeroPlus(n, a - b, b);
      ZeroPlus(n, a - b, b - c);
    }
    if Same(n, b, a) {
      ZeroPlus(n, b - a, 0);
    }
    if Same(n, a, b) {
      ZeroPlus(n, a - b, 0);
    }
  }

  lemma ReducedIsSame(n: nat, a: int)
    requires n > 0
    ensures Same(n, a % n, a) && Same(n, a, a % n)
  {
    assert a - a % n == n * (a / n);
    MultipleIsZero(n, a / n);
    ZeroPlus(n, a - a % n, 0);
  }

  lemma SameTimes(n: nat, a: int, b: int, c: int)
    requires n > 0 && Same(n, a, b)
    ensures Same(n, a * c, b * c) && Same(n, c * a, c * b)
  {
    ZeroTimes(n, a - b, c);
    assert (a - b) * c == a * c - b * c && c * (a - b) == c * a - c * b;
  }

  lemma SamePlus(n: nat, a: int, b: int, c: int, d: int)
    requires n > 0 && Same(n, a, b) && Same(n, c, d)
    ensures Same(n, a + c, b + d) && Same(n, a - c, b - d)
  {
    ZeroPlus(n, a - b, c - d);
    ZeroPlus(n, c - d, a - b);
    assert (a - b) + (c - d) == (a + c) - (b + d);
    assert (a - b) - (c - d) == (a - c) - (b - d);
  }

  /** Distinct canonical residues are distinct scalars. */
  lemma CanonicalSame(n: nat, a: nat, b: nat)
    requires n > 0 && a < n && b < n
    ensures Same(n, a, b) <==> a == b
  {
    if Same(n, a, b) {
      var k := ZeroIsMultiple(n, a - b);
      assert n * -k == -(n * k);
      if k >= 1 {
        AtLeastOnce(n, k);
      } else if k <= -1 {
        AtLeastOnce(n, -k);
      }
    }
  }

  lemma {:induction false} EuclidReduced(n: nat, a: nat, b: int)
    requires IsPrime(n) && 0 < a < n && Zero(n, a * b)
    ensures Zero(n, b)
    decreases a
  {
    if a > 1 {
      var k, r := n / a, n % a;
      assert n == a * k + r && 0 < r < a;
      var m := ZeroIsMultiple(n, a * b);
      assert r * b == n * (b - k * m) by {
        calc {
          r * b;
          n * b - (a * k) * b;
          n * b - k * (a * b);
          n * b - k * (n * m);
          n * (b - k * m);
        }
      }
      MultipleIsZero(n, b - k * m);
      EuclidReduced(n, r, b);
    }
  }

  /** A prime has no zero divisors. */
  lemma NoZeroDivisors(n: nat, a: int, b: int)
    requires IsPrime(n)
    ensures Zero(n, a * b) <==> Zero(n, a) || Zero(n, b)
  {
    if Zero(n, a) {
      ZeroTimes(n, a, b);
    } else if Zero(n, b) {
      ZeroTimes(n, b, a);
    } else if Zero(n, a * b) {
      ReducedIsSame(n, a);
      SameTimes(n, a % n, a, b);
      SameIsEquivalence(n, (a % n) * b, a * b, 0);
      EuclidReduced(n, a % n, b);
    }
  }

  lemma InverseStep(n: int, a: int, k: int, r: int, v: int, m: int)
    requires n == a * k + r && r * v - 1 == n * m
    ensures a * -(k * v) - 1 == n * (m - v)
  {
    calc {
      a * -(k * v);
      -((a * k) * v);
      -((n - r) * v);
      r * v - n * v;
    }
  }

  lemma {:induction false} InverseReduced(n: nat, a: nat) returns (u: int)
    requires IsPrime(n) && 0 < a < n
    ensures Same(n, a * u, 1)
    decreases a
  {
    if a == 1 {
      u := 1;
    } else {
      var k, r := n / a, n % a;
      assert n == a * k + r && 0 < r < a;
      var v := InverseReduced(n, r);
      u := -(k * v);
      var m := ZeroIsMultiple(n, r * v - 1);
      InverseStep(n, a, k, r, v, m);
      MultipleIsZero(n, m - v);
    }
  }

  /** Every nonzero scalar has an inverse. */
  lemma Inverse(n: nat, a: int) returns (u: int)
    requires IsPrime(n) && !Zero(n, a)
    ensures Same(n, a * u, 1)
  {
    u := InverseReduced(n, a % n);
    ReducedIsSame(n, a);
    SameTimes(n, a, a % n, u);
    SameIsEquivalence(n, a * u, (a % n) * u, 1);
  }
}
