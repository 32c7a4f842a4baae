/** The elliptic-curve group as an abstract group of prime order, Schnorr
    proofs of knowledge over it (section 3 of RFC 8235), and the EC J-PAKE
    exchange (section 3 of RFC 8236). */
module Curves {
  import opened Wire
  import opened Modular

  /** A point, under some name; which names lie on a curve is up to the curve. */
  datatype Point = Point(name: nat)

  // Every byte string and every pair of scalars; the laws of a curve are applied
  // only to the ones named through these.

  ghost predicate Bytes(s: bytes) {
    true
  }

  ghost predicate Scalars(a: int, b: int) {
    true
  }

  /** A curve: its group of prime order, the SEC1 encoding of its points, and
      the hash functions used over them, all uninterpreted. */
  datatype Curve = Curve(
    order: nat,
    generator: Point,
    identity: Point,
    add: (Point, Point) -> Point,
    sub: (Point, Point) -> Point,
    mul: (Point, int) -> Point,
    xCoordinate: Point -> bytes,
    encode: Point -> bytes,
    decode: bytes -> Option<Point>,
    challenge: (bytes, bytes, bytes, bytes) -> nat,
    digest: bytes -> bytes)
  {
    /** The multiple `a`·G of the generator. */
    function At(a: int): Point {
      mul(generator, a)
    }

    /** The points of the curve are the multiples of the generator. */
    ghost predicate OnCurve(p: Point) {
      exists a :: p == At(a)
    }

    /** A cyclic group of prime order written additively: multiples of the
        generator add and multiply like scalars modulo the order. */
    ghost predicate IsGroup() {
      && IsPrime(order) && order <= Pow256(32)
      && identity == At(0) && generator == At(1)
      && forall a, b {:trigger Scalars(a, b)} :: Scalars(a, b) ==>
           && add(At(a), At(b)) == At(a + b)
           && sub(At(a), At(b)) == At(a - b)
           && mul(At(a), b) == At(a * b)
           && (At(a) == At(b) <==> Same(order, a, b))
    }

    /** Only points of the curve are decoded, encodings are unambiguous and at
        most 65 bytes, and a point other than the identity is fixed by its X
        coordinate up to sign. */
    ghost predicate IsEncoding() {
      && (forall s {:trigger Bytes(s)} :: Bytes(s) && decode(s).Some? ==> OnCurve(decode(s).value))
      && (forall a, b {:trigger Scalars(a, b)} :: Scalars(a, b) ==>
            decode(encode(At(a))) == Some(At(a)) && 1 <= |encode(At(a))| <= 65)
      && forall a, b {:trigger Scalars(a, b)} :: Scalars(a, b) && At(a) != identity && At(b) != identity ==>
           (xCoordinate(At(a)) == xCoordinate(At(b)) <==> At(a) == At(b) || At(a) == At(-b))
    }

    ghost predicate Lawful() {
      IsGroup() && IsEncoding()
    }
  }

  lemma Sum(c: Curve, a: int, b: int)
    requires c.IsGroup()
    ensures c.add(c.At(a), c.At(b)) == c.At(a + b)
    ensures c.sub(c.At(a), c.At(b)) == c.At(a - b)
  {
    assert Scalars(a, b);
  }

  lemma Product(c: Curve, a: int, b: int)
    requires c.IsGroup()
    ensures c.mul(c.At(a), b) == c.At(a * b)
  {
    assert Scalars(a, b);
  }

  lemma Equal(c: Curve, a: int, b: int)
    requires c.IsGroup()
    ensures c.At(a) == c.At(b) <==> Same(c.order, a, b)
    ensures c.At(a) == c.identity <==> Zero(c.order, a)
  {
    assert Scalars(a, b);
    assert Scalars(a, 0);
  }

  /** A scalar may be replaced by its canonical residue. */
  lemma ProductReduced(c: Curve, a: int, b: int)
    requires c.IsGroup()
    ensures c.mul(c.At(a), b % c.order) == c.At(a * b)
  {
    Product(c, a, b % c.order);
    ReducedIsSame(c.order, b);
    SameTimes(c.order, b % c.order, b, a);
    Equal(c, a * (b % c.order), a * b);
  }

  lemma LogOf(c: Curve, p: Point) returns (a: int)
    requires c.OnCurve(p)
    ensures p == c.At(a)
  {
    a :| p == c.At(a);
  }

  lemma Encoding(c: Curve, a: int)
    requires c.IsEncoding()
    ensures c.decode(c.encode(c.At(a))) == Some(c.At(a)) && 1 <= |c.encode(c.At(a))| <= 65
  {
    assert Scalars(a, a);
  }

  function PointFromBytes(c: Curve, s: bytes): Result<Point> {
    match c.decode(s)
    case None => Err
    case Some(p) => if p == c.identity then Err else Ok(p)
  }

  function ScalarFromBytes(c: Curve, s: bytes): Result<nat> {
    if FromBytes(s) < c.order then Ok(FromBytes(s)) else Err
  }

  lemma DecodePoint(c: Curve, a: int)
    requires c.Lawful()
    ensures PointFromBytes(c, c.encode(c.At(a))) == if Zero(c.order, a) then Err else Ok(c.At(a))
  {
    Equal(c, a, 0);
    Encoding(c, a);
  }
}

module Schnorr {
  import opened Wire
  import opened Modular
  import opened Curves

  datatype Proof = Proof(v: bytes, r: bytes, proverId: bytes)

  function Challenge(c: Curve, base: Point, v: Point, public: Point, id: bytes): nat {
    c.challenge(c.encode(base), c.encode(v), c.encode(public), id)
  }

  /** Proves knowledge of `private` with the random scalar `v`. */
  function Generate(c: Curve, base: Point, private: int, public: Point, id: bytes, v: nat): Proof
    requires c.order > 0
  {
    var vPoint := c.mul(base, v);
    var r := (v - private * Challenge(c, base, vPoint, public, id)) % c.order;
    Proof(c.encode(vPoint), ToBytes(r, 32), id)
  }

  predicate Verifies(c: Curve, proof: Proof, base: Point, public: Point, id: bytes) {
    && proof.proverId == id
    && public != c.identity
    && var v, r := PointFromBytes(c, proof.v), ScalarFromBytes(c, proof.r);
    && v.Ok? && r.Ok?
    && c.encode(c.add(c.mul(base, r.value), c.mul(public, Challenge(c, base, v.value, public, id)))) == proof.v
  }

  /** The scalar identity behind verification. */
  lemma ResponseCancels(n: nat, b: int, x: int, v: int, h: int)
    requires n > 0
    ensures Same(n, b * ((v - x * h) % n) + (b * x) * h, b * v)
  {
    var r := (v - x * h) % n;
    ReducedIsSame(n, v - x * h);
    SameTimes(n, r, v - x * h, b);
    assert b * (v - x * h) == b * v - (b * x) * h;
    SamePlus(n, b * r, b * (v - x * h), (b * x) * h, (b * x) * h);
  }

  lemma ExpectedIsCommitment(c: Curve, b: int, x: int, v: int, h: int)
    requires c.IsGroup()
    ensures c.add(c.mul(c.At(b), (v - x * h) % c.order), c.mul(c.At(b * x), h)) == c.At(b * v)
  {
    var r := (v - x * h) % c.order;
    Opening(c, b, b * x, r, h);
    ResponseCancels(c.order, b, x, v, h);
    Equal(c, b * r + (b * x) * h, b * v);
  }

  /** Completeness: an honest proof verifies, for any base and public point
      other than the identity and any nonzero random scalar. */
  lemma HonestProofVerifies(c: Curve, b: int, x: int, id: bytes, v: nat)
    requires c.Lawful()
    requires !Zero(c.order, b) && !Zero(c.order, b * x) && !Zero(c.order, v)
    ensures Verifies(c, Generate(c, c.At(b), x, c.At(b * x), id, v), c.At(b), c.At(b * x), id)
  {
    hide FromBytes, ToBytes, Pow256, PointFromBytes, Challenge;
    Product(c, b, v);
    NoZeroDivisors(c.order, b, v);
    DecodePoint(c, b * v);
    Equal(c, b * x, 0);
    var h := Challenge(c, c.At(b), c.At(b * v), c.At(b * x), id);
    var r := (v - x * h) % c.order;
    ReadBack(r, 32);
    ExpectedIsCommitment(c, b, x, v, h);
    var proof := Generate(c, c.At(b), x, c.At(b * x), id, v);
    assert proof == Proof(c.encode(c.At(b * v)), ToBytes(r, 32), id);
    assert ScalarFromBytes(c, proof.r) == Ok(r);
    assert PointFromBytes(c, proof.v) == Ok(c.At(b * v));
  }

  /** Special soundness: two accepted proofs with one commitment and different
      challenges, as obtained by answering the hash query in two ways, give a
      scalar that takes the base to the public point. */
  lemma TwoProofsRevealTheScalar(c: Curve, other: (bytes, bytes, bytes, bytes) -> nat,
                                 proof1: Proof, proof2: Proof, base: Point, public: Point, id: bytes)
      returns (x: int)
    requires c.Lawful() && c.OnCurve(base) && c.OnCurve(public)
    requires Verifies(c, proof1, base, public, id)
    requires Verifies(c.(challenge := other), proof2, base, public, id)
    requires proof1.v == proof2.v
    requires var v := PointFromBytes(c, proof1.v).value;
             !Same(c.order, Challenge(c, base, v, public, id),
                   Challenge(c.(challenge := other), base, v, public, id))
    ensures public == c.mul(base, x)
  {
    var n := c.order;
    var v := PointFromBytes(c, proof1.v).value;
    var h1, h2 := Challenge(c, base, v, public, id), Challenge(c.(challenge := other), base, v, public, id);
    var r1, r2 := ScalarFromBytes(c, proof1.r).value, ScalarFromBytes(c, proof2.r).value;
    var b := LogOf(c, base);
    var p := LogOf(c, public);
    Opening(c, b, p, r1, h1);
    Opening(c, b, p, r2, h2);
    SameOpening(c, b * r1 + p * h1, b * r2 + p * h2);
    var u := Inverse(n, h1 - h2);
    x := (r2 - r1) * u;
    Extract(n, b, p, r1, r2, h1, h2, u);
    Product(c, b, x);
    Equal(c, p, b * x);
  }

  lemma Opening(c: Curve, b: int, p: int, r: int, h: int)
    requires c.IsGroup()
    ensures c.add(c.mul(c.At(b), r), c.mul(c.At(p), h)) == c.At(b * r + p * h)
  {
    Product(c, b, r);
    Product(c, p, h);
    Sum(c, b * r, p * h);
  }

  lemma SameOpening(c: Curve, a: int, b: int)
    requires c.Lawful()
    requires c.encode(c.At(a)) == c.encode(c.At(b))
    ensures Same(c.order, a, b)
  {
    Encoding(c, a);
    Encoding(c, b);
    Equal(c, a, b);
  }

  lemma Extract(n: nat, b: int, p: int, r1: int, r2: int, h1: int, h2: int, u: int)
    requires n > 0
    requires Same(n, b * r1 + p * h1, b * r2 + p * h2)
    requires Same(n, (h1 - h2) * u, 1)
    ensures Same(n, p, b * ((r2 - r1) * u))
  {
    var d := (b * r1 + p * h1) - (b * r2 + p * h2);
    assert d == p * (h1 - h2) - b * (r2 - r1);
    ZeroTimes(n, d, u);
    assert d * u == p * ((h1 - h2) * u) - b * ((r2 - r1) * u);
    SameTimes(n, (h1 - h2) * u, 1, p);
    SameIsEquivalence(n, p * ((h1 - h2) * u), p, 0);
    SameIsEquivalence(n, p, p * ((h1 - h2) * u), b * ((r2 - r1) * u));
  }
}

module EcJpake {
  import opened Wire
  import opened Modular
  import opened Curves
  import opened Schnorr

  datatype Role = Client | Server

  function PeerRole(r: Role): Role {
    if r == Client then Server else Client
  }

  datatype Party = Party(role: Role, id: bytes, secret: nat, x1: nat, x2: nat)
  {
    ghost predicate Valid(c: Curve) {
      c.order > 0 && 0 < secret < c.order && 0 < x1 < c.order && 0 < x2 < c.order
    }
  }

  datatype RoundOne = RoundOne(g1: bytes, g2: bytes, proof1: Proof, proof2: Proof, id: bytes)

  datatype RoundTwo = RoundTwo(point: bytes, proof: Proof)

  /** The number that secret bytes stand for: up to 32 bytes are read directly,
      longer ones are hashed first. */
  function SecretNumber(c: Curve, secret: bytes): nat {
    FromBytes(if |secret| <= 32 then secret else c.digest(secret))
  }

  /** `scalar_from_secret`: the number reduced, with zero becoming one. */
  function ScalarFromSecret(c: Curve, secret: bytes): (s: nat)
    requires c.order > 1
    ensures 0 < s < c.order
  {
    var s := SecretNumber(c, secret) % c.order;
    if s == 0 then 1 else s
  }

  /** `new_with_scalars`: a party for the secret bytes, unless one of the scalars
      is out of range or zero. */
  function NewParty(c: Curve, role: Role, id: bytes, secret: bytes, x1: nat, x2: nat): (r: Result<Party>)
    requires c.order > 1
    ensures r.Ok? <==> 0 < x1 < c.order && 0 < x2 < c.order
    ensures r.Ok? ==> r.value.Valid(c)
  {
    if x1 < c.order && x2 < c.order && x1 != 0 && x2 != 0
    then Ok(Party(role, id, ScalarFromSecret(c, secret), x1, x2))
    else Err
  }

  function FirstRound(c: Curve, p: Party, v1: nat, v2: nat): RoundOne
    requires c.order > 0
  {
    var g1, g2 := c.mul(c.generator, p.x1), c.mul(c.generator, p.x2);
    RoundOne(c.encode(g1), c.encode(g2),
             Generate(c, c.generator, p.x1, g1, p.id, v1), Generate(c, c.generator, p.x2, g2, p.id, v2), p.id)
  }

  predicate FirstRoundVerifies(c: Curve, peer: RoundOne) {
    var g1, g2 := PointFromBytes(c, peer.g1), PointFromBytes(c, peer.g2);
    && g1.Ok? && g2.Ok? && g2.value != c.identity
    && Verifies(c, peer.proof1, c.generator, g1.value, peer.id)
    && Verifies(c, peer.proof2, c.generator, g2.value, peer.id)
  }

  /** The generator of the second-round message that `sender` sends, as the
      party with `role` computes it. */
  function SecondRoundBase(c: Curve, role: Role, own: RoundOne, peer: RoundOne, sender: Role): Result<Point> {
    var ownG1 :- PointFromBytes(c, own.g1);
    var ownG2 :- PointFromBytes(c, own.g2);
    var peerG1 :- PointFromBytes(c, peer.g1);
    var peerG2 :- PointFromBytes(c, peer.g2);
    Ok(match (role, sender)
       case (Client, Client) => c.add(c.add(ownG1, peerG1), peerG2)
       case (Client, Server) => c.add(c.add(ownG1, ownG2), peerG1)
       case (Server, Server) => c.add(c.add(peerG1, peerG2), ownG1)
       case (Server, Client) => c.add(c.add(peerG1, ownG1), ownG2))
  }

  function SecondRound(c: Curve, p: Party, own: RoundOne, peer: RoundOne, v: nat): Result<RoundTwo>
    requires c.order > 0
  {
    if !FirstRoundVerifies(c, peer) then Err else
    var base :- SecondRoundBase(c, p.role, own, peer, p.role);
    if base == c.identity then Err else
    var exponent := p.x2 * p.secret % c.order;
    var point := c.mul(base, exponent);
    Ok(RoundTwo(c.encode(point), Generate(c, base, exponent, point, p.id, v)))
  }

  /** The shared point, once the peer's second round has been verified. */
  function SharedPoint(c: Curve, p: Party, own: RoundOne, peer: RoundOne, peerTwo: RoundTwo): Result<Point>
    requires c.order > 0
  {
    if !FirstRoundVerifies(c, peer) then Err else
    var peerBase :- SecondRoundBase(c, p.role, own, peer, PeerRole(p.role));
    var peerPoint :- PointFromBytes(c, peerTwo.point);
    if !Verifies(c, peerTwo.proof, peerBase, peerPoint, peer.id) then Err else
    var peerG2 :- PointFromBytes(c, peer.g2);
    var exponent := p.x2 * p.secret % c.order;
    var shared := c.mul(c.sub(peerPoint, c.mul(peerG2, exponent)), p.x2);
    if shared == c.identity then Err else Ok(shared)
  }

  /** `finish`: the session key is the digest of the shared X coordinate. */
  function Finish(c: Curve, p: Party, own: RoundOne, peer: RoundOne, peerTwo: RoundTwo): Result<bytes>
    requires c.order > 0
  {
    var shared :- SharedPoint(c, p, own, peer, peerTwo);
    Ok(c.digest(c.xCoordinate(shared)))
  }

  // ---- Honest runs ----

  /** Two parties and their random scalars. */
  datatype Honest = Honest(c: Curve, client: Party, server: Party, v: nat -> nat)
  {
    ghost predicate Valid() {
      && c.Lawful()
      && client.role == Client && server.role == Server
      && client.Valid(c) && server.Valid(c)
      && forall i: nat {:trigger v(i)} :: 0 < v(i) < c.order
    }

    function ClientOne(): RoundOne
      requires c.order > 0
    {
      FirstRound(c, client, v(0), v(1))
    }

    function ServerOne(): RoundOne
      requires c.order > 0
    {
      FirstRound(c, server, v(2), v(3))
    }

    function ClientTwo(): Result<RoundTwo>
      requires c.order > 0
    {
      SecondRound(c, client, ClientOne(), ServerOne(), v(4))
    }

    function ServerTwo(): Result<RoundTwo>
      requires c.order > 0
    {
      SecondRound(c, server, ServerOne(), ClientOne(), v(5))
    }

    function ClientShared(): Result<Point>
      requires c.order > 0
    {
      var two :- ServerTwo();
      SharedPoint(c, client, ClientOne(), ServerOne(), two)
    }

    function ServerShared(): Result<Point>
      requires c.order > 0
    {
      var two :- ClientTwo();
      SharedPoint(c, server, ServerOne(), ClientOne(), two)
    }

    // The scalars of RFC 8236: x1, x2 are the client's and x3, x4 the server's.

    ghost function ClientBase(): int {
      client.x1 + server.x1 + server.x2
    }

    ghost function ServerBase(): int {
      client.x1 + client.x2 + server.x1
    }

    ghost function ClientScalar(): int {
      (ServerBase() * (server.x2 * server.secret) - server.x2 * (client.x2 * client.secret)) * client.x2
    }

    ghost function ServerScalar(): int {
      (ClientBase() * (client.x2 * client.secret) - client.x2 * (server.x2 * server.secret)) * server.x2
    }
  }

  lemma CanonicalNonzero(n: nat, a: nat)
    requires 0 < a < n
    ensures !Zero(n, a)
  {
  }

  /** One first-round key of an honest party. */
  lemma KeyHonest(c: Curve, x: nat, id: bytes, v: nat)
    requires c.Lawful() && 0 < x < c.order && 0 < v < c.order
    ensures PointFromBytes(c, c.encode(c.At(x))) == Ok(c.At(x))
    ensures Verifies(c, Generate(c, c.generator, x, c.At(x), id, v), c.generator, c.At(x), id)
    ensures c.At(x) != c.identity
  {
    CanonicalNonzero(c.order, x);
    CanonicalNonzero(c.order, v);
    CanonicalNonzero(c.order, 1);
    DecodePoint(c, x);
    Equal(c, x, 0);
    assert 1 * x == x;
    HonestProofVerifies(c, 1, x, id, v);
  }

  lemma FirstRoundHonest(c: Curve, p: Party, v1: nat, v2: nat)
    requires c.Lawful() && p.Valid(c) && 0 < v1 < c.order && 0 < v2 < c.order
    ensures var one := FirstRound(c, p, v1, v2);
            && FirstRoundVerifies(c, one) && one.id == p.id
            && PointFromBytes(c, one.g1) == Ok(c.At(p.x1)) && PointFromBytes(c, one.g2) == Ok(c.At(p.x2))
  {
    KeyHonest(c, p.x1, p.id, v1);
    KeyHonest(c, p.x2, p.id, v2);
  }

  /** Both sides compute the same base for the same sender, in all four cases. */
  lemma BasesHonest(h: Honest)
    requires h.Valid()
    ensures SecondRoundBase(h.c, Client, h.ClientOne(), h.ServerOne(), Client) == Ok(h.c.At(h.ClientBase()))
    ensures SecondRoundBase(h.c, Server, h.ServerOne(), h.ClientOne(), Client) == Ok(h.c.At(h.ClientBase()))
    ensures SecondRoundBase(h.c, Client, h.ClientOne(), h.ServerOne(), Server) == Ok(h.c.At(h.ServerBase()))
    ensures SecondRoundBase(h.c, Server, h.ServerOne(), h.ClientOne(), Server) == Ok(h.c.At(h.ServerBase()))
  {
    hide FirstRound, FirstRoundVerifies, PointFromBytes, Verifies, Curve.IsGroup, Curve.IsEncoding;
    var c, x1, x2, x3, x4 := h.c, h.client.x1, h.client.x2, h.server.x1, h.server.x2;
    FirstRoundHonest(c, h.client, h.v(0), h.v(1));
    FirstRoundHonest(c, h.server, h.v(2), h.v(3));
    Sum(c, x1, x3);
    Sum(c, x1 + x3, x4);
    Sum(c, x1, x2);
    Sum(c, x1 + x2, x3);
    Sum(c, x3, x4);
  }

  lemma ExponentNonzero(c: Curve, p: Party, b: int)
    requires c.IsGroup() && p.Valid(c) && !Zero(c.order, b)
    ensures !Zero(c.order, b * (p.x2 * p.secret % c.order)) && !Zero(c.order, b * (p.x2 * p.secret))
  {
    var n, e := c.order, p.x2 * p.secret;
    CanonicalNonzero(n, p.x2);
    CanonicalNonzero(n, p.secret);
    NoZeroDivisors(n, p.x2, p.secret);
    NoZeroDivisors(n, b, e);
    ReducedIsSame(n, e);
    SameIsEquivalence(n, e % n, e, 0);
    NoZeroDivisors(n, b, e % n);
  }

  /** An honest second round fails only on an identity base, and otherwise
      carries b·x2·s with a proof that verifies. */
  lemma SecondRoundHonest(c: Curve, p: Party, own: RoundOne, peer: RoundOne, v: nat, b: int)
    requires c.Lawful() && p.Valid(c) && 0 < v < c.order
    requires FirstRoundVerifies(c, peer)
    requires SecondRoundBase(c, p.role, own, peer, p.role) == Ok(c.At(b))
    ensures var two := SecondRound(c, p, own, peer, v);
            && (two.Ok? <==> !Zero(c.order, b))
            && (two.Ok? ==> && PointFromBytes(c, two.value.point) == Ok(c.At(b * (p.x2 * p.secret)))
                            && Verifies(c, two.value.proof, c.At(b), c.At(b * (p.x2 * p.secret)), p.id))
  {
    Equal(c, b, 0);
    if !Zero(c.order, b) {
      var e := p.x2 * p.secret % c.order;
      ExponentNonzero(c, p, b);
      CanonicalNonzero(c.order, v);
      ProductReduced(c, b, p.x2 * p.secret);
      Product(c, b, e);
      HonestProofVerifies(c, b, e, p.id, v);
      DecodePoint(c, b * (p.x2 * p.secret));
    }
  }

  /** The shared point is ((k - y·x2·s)·x2)·G when the peer sent k·G over its
      base and y·G as its second key. */
  lemma SharedHonest(c: Curve, p: Party, own: RoundOne, peer: RoundOne, two: RoundTwo, b: int, k: int, y: int)
    requires c.Lawful() && p.Valid(c)
    requires FirstRoundVerifies(c, peer) && PointFromBytes(c, peer.g2) == Ok(c.At(y))
    requires SecondRoundBase(c, p.role, own, peer, PeerRole(p.role)) == Ok(c.At(b))
    requires PointFromBytes(c, two.point) == Ok(c.At(k)) && Verifies(c, two.proof, c.At(b), c.At(k), peer.id)
    ensures var scalar := (k - y * (p.x2 * p.secret)) * p.x2;
            SharedPoint(c, p, own, peer, two) == if Zero(c.order, scalar) then Err else Ok(c.At(scalar))
  {
    hide FirstRoundVerifies, PointFromBytes, Verifies, SecondRoundBase, Curve.IsGroup, Curve.IsEncoding;
    var e := p.x2 * p.secret;
    ProductReduced(c, y, e);
    Sum(c, k, y * e);
    Product(c, k - y * e, p.x2);
    Equal(c, (k - y * e) * p.x2, 0);
  }

  lemma ClientHonest(h: Honest)
    requires h.Valid()
    ensures h.ServerTwo().Ok? <==> !Zero(h.c.order, h.ServerBase())
    ensures h.ServerTwo().Ok? ==>
              h.ClientShared() == if Zero(h.c.order, h.ClientScalar()) then Err else Ok(h.c.At(h.ClientScalar()))
  {
    hide FirstRound, FirstRoundVerifies, SecondRoundBase, SecondRound, SharedPoint, Verifies, Curve.IsGroup,
         Curve.IsEncoding;
    var c, client, server := h.c, h.client, h.server;
    FirstRoundHonest(c, client, h.v(0), h.v(1));
    FirstRoundHonest(c, server, h.v(2), h.v(3));
    BasesHonest(h);
    SecondRoundHonest(c, server, h.ServerOne(), h.ClientOne(), h.v(5), h.ServerBase());
    if h.ServerTwo().Ok? {
      SharedHonest(c, client, h.ClientOne(), h.ServerOne(), h.ServerTwo().value,
                   h.ServerBase(), h.ServerBase() * (server.x2 * server.secret), server.x2);
    }
  }

  lemma ServerHonest(h: Honest)
    requires h.Valid()
    ensures h.ClientTwo().Ok? <==> !Zero(h.c.order, h.ClientBase())
    ensures h.ClientTwo().Ok? ==>
              h.ServerShared() == if Zero(h.c.order, h.ServerScalar()) then Err else Ok(h.c.At(h.ServerScalar()))
  {
    hide FirstRound, FirstRoundVerifies, SecondRoundBase, SecondRound, SharedPoint, Verifies, Curve.IsGroup,
         Curve.IsEncoding;
    var c, client, server := h.c, h.client, h.server;
    FirstRoundHonest(c, client, h.v(0), h.v(1));
    FirstRoundHonest(c, server, h.v(2), h.v(3));
    BasesHonest(h);
    SecondRoundHonest(c, client, h.ClientOne(), h.ServerOne(), h.v(4), h.ClientBase());
    if h.ClientTwo().Ok? {
      SharedHonest(c, server, h.ServerOne(), h.ClientOne(), h.ClientTwo().value,
                   h.ClientBase(), h.ClientBase() * (client.x2 * client.secret), client.x2);
    }
  }

  // ---- Agreement ----

  lemma Factored(a: int, u: int, v: int, s: int, t: int)
    ensures (a * (v * t) - v * (u * s)) * u == (u * v) * (a * t - u * s)
  {
    calc {
      (a * (v * t) - v * (u * s)) * u;
      { assert a * (v * t) - v * (u * s) == v * (a * t - u * s); }
      (v * (a * t - u * s)) * u;
      (u * v) * (a * t - u * s);
    }
  }

  /** Difference and sum of the two sides' scalars, factored. */
  lemma ScalarIdentities(x1: int, x2: int, x3: int, x4: int, s: int, t: int)
    ensures ((x1 + x2 + x3) * (x4 * t) - x4 * (x2 * s)) * x2 - ((x1 + x3 + x4) * (x2 * s) - x2 * (x4 * t)) * x4
            == (x2 * x4) * ((x1 + x2 + x3 + x4) * (t - s))
    ensures ((x1 + x2 + x3) * (x4 * t) - x4 * (x2 * s)) * x2 + ((x1 + x3 + x4) * (x2 * s) - x2 * (x4 * t)) * x4
            == (x2 * x4) * ((x1 + x3) * (t + s) + (x2 - x4) * (t - s))
  {
    Factored(x1 + x2 + x3, x2, x4, s, t);
    Factored(x1 + x3 + x4, x4, x2, t, s);
    var p, f, g := x2 * x4, (x1 + x2 + x3) * t - x2 * s, (x1 + x3 + x4) * s - x4 * t;
    assert p * f - p * g == p * (f - g) && p * f + p * g == p * (f + g);
    assert f - g == (x1 + x2 + x3 + x4) * (t - s);
    assert f + g == (x1 + x3) * (t + s) + (x2 - x4) * (t - s);
  }

  /** The scalars (x1, x2) and (x3, x4) of two parties and their secrets. */
  ghost predicate Exponents(n: nat, x2: nat, x4: nat, s: nat, t: nat) {
    IsPrime(n) && 0 < x2 < n && 0 < x4 < n && 0 < s < n && 0 < t < n
  }

  lemma NonzeroFactors(n: nat, x2: nat, x4: nat, k: int)
    requires IsPrime(n) && 0 < x2 < n && 0 < x4 < n
    ensures Zero(n, (x2 * x4) * k) <==> Zero(n, k)
  {
    CanonicalNonzero(n, x2);
    CanonicalNonzero(n, x4);
    NoZeroDivisors(n, x2, x4);
    NoZeroDivisors(n, x2 * x4, k);
  }

  lemma DifferenceVanishes(n: nat, x2: nat, x4: nat, total: int, s: nat, t: nat)
    requires Exponents(n, x2, x4, s, t)
    ensures Zero(n, (x2 * x4) * (total * (t - s))) <==> s == t || Zero(n, total)
  {
    NonzeroFactors(n, x2, x4, total * (t - s));
    NoZeroDivisors(n, total, t - s);
    CanonicalSame(n, t, s);
  }

  lemma ScalarsOf(h: Honest)
    requires h.Valid()
    ensures var x1, x2, x3, x4 := h.client.x1, h.client.x2, h.server.x1, h.server.x2;
            var s, t := h.client.secret, h.server.secret;
            && Exponents(h.c.order, x2, x4, s, t)
            && h.ClientScalar() - h.ServerScalar() == (x2 * x4) * (Total(h) * (t - s))
            && h.ClientScalar() + h.ServerScalar() == (x2 * x4) * ((x1 + x3) * (t + s) + (x2 - x4) * (t - s))
  {
    ScalarIdentities(h.client.x1, h.client.x2, h.server.x1, h.server.x2, h.client.secret, h.server.secret);
  }

  /** The sum x1 + x2 + x3 + x4. */
  ghost function Total(h: Honest): int {
    h.client.x1 + h.client.x2 + h.server.x1 + h.server.x2
  }

  lemma ScalarsAgree(h: Honest)
    requires h.Valid()
    ensures Same(h.c.order, h.ClientScalar(), h.ServerScalar()) <==>
            h.client.secret == h.server.secret || Zero(h.c.order, Total(h))
  {
    ScalarsOf(h);
    DifferenceVanishes(h.c.order, h.client.x2, h.server.x2, Total(h), h.client.secret, h.server.secret);
  }

  lemma BothSharedHonest(h: Honest)
    requires h.Valid() && h.ClientShared().Ok? && h.ServerShared().Ok?
    ensures h.ClientShared() == Ok(h.c.At(h.ClientScalar())) && !Zero(h.c.order, h.ClientScalar())
    ensures h.ServerShared() == Ok(h.c.At(h.ServerScalar())) && !Zero(h.c.order, h.ServerScalar())
  {
    ClientHonest(h);
    ServerHonest(h);
  }

  /** When both sides finish an honest exchange, their shared points are equal
      exactly when the secrets are equal or x1+x2+x3+x4 vanishes modulo the
      order. */
  lemma SharedPointsAgreeExactly(h: Honest, p: Point, q: Point)
    requires h.Valid() && h.ClientShared() == Ok(p) && h.ServerShared() == Ok(q)
    ensures p == q <==> h.client.secret == h.server.secret || Zero(h.c.order, Total(h))
  {
    hide FirstRound, SecondRound, SharedPoint;
    BothSharedHonest(h);
    ScalarsAgree(h);
    Equal(h.c, h.ClientScalar(), h.ServerScalar());
  }

  lemma SumOfScalars(h: Honest)
    requires h.Valid()
    ensures Same(h.c.order, h.ClientScalar(), -h.ServerScalar()) <==>
            Zero(h.c.order, (h.client.x1 + h.server.x1) * (h.server.secret + h.client.secret)
                            + (h.client.x2 - h.server.x2) * (h.server.secret - h.client.secret))
  {
    ScalarsOf(h);
    NonzeroFactors(h.c.order, h.client.x2, h.server.x2,
                   (h.client.x1 + h.server.x1) * (h.server.secret + h.client.secret)
                   + (h.client.x2 - h.server.x2) * (h.server.secret - h.client.secret));
  }

  /** The X coordinate also forgets the sign, so the key material agrees in one
      further case, again exactly. */
  lemma KeyMaterialAgreesExactly(h: Honest, p: Point, q: Point)
    requires h.Valid() && h.ClientShared() == Ok(p) && h.ServerShared() == Ok(q)
    ensures h.c.xCoordinate(p) == h.c.xCoordinate(q) <==>
            || h.client.secret == h.server.secret
            || Zero(h.c.order, Total(h))
            || Zero(h.c.order, (h.client.x1 + h.server.x1) * (h.server.secret + h.client.secret)
                               + (h.client.x2 - h.server.x2) * (h.server.secret - h.client.secret))
  {
    hide FirstRound, SecondRound, SharedPoint;
    BothSharedHonest(h);
    SharedPointsAgreeExactly(h, p, q);
    SumOfScalars(h);
    var a, b := h.ClientScalar(), h.ServerScalar();
    Equal(h.c, a, 0);
    Equal(h.c, b, 0);
    Equal(h.c, a, -b);
    assert Scalars(a, b);
  }

  // ---- Equal secrets ----

  lemma CommonProduct(x1: int, x2: int, x3: int, x4: int, s: int)
    ensures ((x1 + x2 + x3) * (x4 * s) - x4 * (x2 * s)) * x2 == (x1 + x3) * (x2 * x4 * s)
    ensures ((x1 + x3 + x4) * (x2 * s) - x2 * (x4 * s)) * x4 == (x1 + x3) * (x2 * x4 * s)
  {
    Factored(x1 + x2 + x3, x2, x4, s, s);
    Factored(x1 + x3 + x4, x4, x2, s, s);
    assert (x1 + x2 + x3) * s - x2 * s == (x1 + x3) * s;
    assert (x1 + x3 + x4) * s - x4 * s == (x1 + x3) * s;
    assert (x2 * x4) * ((x1 + x3) * s) == (x1 + x3) * (x2 * x4 * s);
  }

  lemma CommonVanishes(n: nat, x1: nat, x2: nat, x3: nat, x4: nat, s: nat)
    requires Exponents(n, x2, x4, s, s)
    ensures Zero(n, (x1 + x3) * (x2 * x4 * s)) <==> Zero(n, x1 + x3)
  {
    CanonicalNonzero(n, s);
    NonzeroFactors(n, x2, x4, s);
    NoZeroDivisors(n, x1 + x3, x2 * x4 * s);
  }

  /** (x1+x3)·x2·x4·s, the scalar of the common shared point. */
  ghost function CommonScalar(h: Honest): int {
    (h.client.x1 + h.server.x1) * (h.client.x2 * h.server.x2 * h.client.secret)
  }

  lemma CommonScalarIsBoth(h: Honest)
    requires h.Valid() && h.client.secret == h.server.secret
    ensures h.ClientScalar() == h.ServerScalar() == CommonScalar(h)
    ensures Zero(h.c.order, CommonScalar(h)) <==> Zero(h.c.order, h.client.x1 + h.server.x1)
  {
    CommonProduct(h.client.x1, h.client.x2, h.server.x1, h.server.x2, h.client.secret);
    CommonVanishes(h.c.order, h.client.x1, h.client.x2, h.server.x1, h.server.x2, h.client.secret);
  }

  /** With equal secrets an honest exchange passes every identity check and
      every proof on both sides exactly when none of x1+x3, x1+x2+x3 and
      x1+x3+x4 vanishes modulo the order, and both sides then hold
      (x1+x3)·x2·x4·s·G. */
  lemma EqualSecretsSucceedExactly(h: Honest)
    requires h.Valid() && h.client.secret == h.server.secret
    ensures h.ClientTwo().Ok? && h.ServerTwo().Ok? && h.ClientShared().Ok? && h.ServerShared().Ok? <==>
            && !Zero(h.c.order, h.client.x1 + h.server.x1)
            && !Zero(h.c.order, h.ServerBase())
            && !Zero(h.c.order, h.ClientBase())
    ensures h.ClientShared().Ok? && h.ServerShared().Ok? ==>
            h.ClientShared() == h.ServerShared() == Ok(h.c.At(CommonScalar(h)))
  {
    hide FirstRound, SecondRound, SharedPoint;
    ClientHonest(h);
    ServerHonest(h);
    CommonScalarIsBoth(h);
  }

  /** Equal secret bytes are read as equal scalars, but not conversely: the
      empty secret, a zero byte and a one byte all become the scalar one. */
  lemma SecretsCollide(c: Curve)
    requires c.order > 1
    ensures ScalarFromSecret(c, []) == ScalarFromSecret(c, [0]) == ScalarFromSecret(c, [1]) == 1
  {
    assert FromBytes([0]) == 0 && FromBytes([1]) == 1;
  }

  /** Two secrets stand for numbers that agree modulo the order, or that both
      become zero or one. */
  ghost predicate SecretsMatch(c: Curve, a: bytes, b: bytes)
    requires c.order > 1
  {
    || Same(c.order, SecretNumber(c, a), SecretNumber(c, b))
    || (SecretNumber(c, a) % c.order <= 1 && SecretNumber(c, b) % c.order <= 1)
  }

  /** Exactly when two secrets become the same scalar. */
  lemma SecretsCollideExactly(c: Curve, a: bytes, b: bytes)
    requires c.order > 1
    ensures ScalarFromSecret(c, a) == ScalarFromSecret(c, b) <==> SecretsMatch(c, a, b)
  {
    hide SecretNumber;
    var n, x, y := c.order, SecretNumber(c, a), SecretNumber(c, b);
    ReducedIsSame(n, x);
    ReducedIsSame(n, y);
    CanonicalSame(n, x % n, y % n);
    SameIsEquivalence(n, x, x % n, y % n);
    SameIsEquivalence(n, x, y % n, y);
    SameIsEquivalence(n, x % n, x, y);
    SameIsEquivalence(n, x % n, y, y % n);
  }

  /** The parties of an exchange were made for the secret bytes `a` and `b`. */
  ghost predicate MadeFor(h: Honest, a: bytes, b: bytes) {
    && h.c.order > 1
    && NewParty(h.c, Client, h.client.id, a, h.client.x1, h.client.x2) == Ok(h.client)
    && NewParty(h.c, Server, h.server.id, b, h.server.x1, h.server.x2) == Ok(h.server)
  }

  /** What the exchange says about the secret bytes themselves: when both sides
      finish, their points are equal exactly when the bytes match as numbers or
      x1+x2+x3+x4 vanishes; equal bytes always agree. */
  lemma SecretBytesAgreeExactly(h: Honest, a: bytes, b: bytes, p: Point, q: Point)
    requires h.Valid() && MadeFor(h, a, b) && h.ClientShared() == Ok(p) && h.ServerShared() == Ok(q)
    ensures p == q <==> SecretsMatch(h.c, a, b) || Zero(h.c.order, Total(h))
    ensures a == b ==> p == q
  {
    hide Honest.ClientShared, Honest.ServerShared, SecretNumber, SecretsMatch, Honest.Valid;
    SharedPointsAgreeExactly(h, p, q);
    SecretsCollideExactly(h.c, a, b);
  }
}
