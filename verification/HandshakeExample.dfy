/** The assumptions of the handshake theorems can be met together: a toy curve
    of order seven, a cipher that does not hide anything, and one setup. */
module HandshakeExample {
  import opened Wire
  import opened Modular
  import opened Curves
  import opened Suites
  import opened Protection
  import opened HandshakeScript
  import CH = ClientHandshakes
  import EcJpake
  import Hello
  import S = Session

  const ORDER := 7

  function Residue(a: int): Point {
    Point(a % ORDER)
  }

  function Coordinate(p: Point): bytes {
    var n := p.name % ORDER;
    [if n <= 3 then n else ORDER - n]
  }

  function Name(p: Point): bytes {
    [p.name % ORDER]
  }

  function PointNamed(s: bytes): Option<Point> {
    if |s| == 1 && s[0] < ORDER then Some(Point(s[0])) else None
  }

  function ToyCurve(): Curve {
    Curve(ORDER, Point(1), Point(0),
          (p: Point, q: Point) => Residue(p.name + q.name),
          (p: Point, q: Point) => Residue(p.name - q.name),
          (p: Point, k: int) => Residue(p.name * k),
          Coordinate, Name, PointNamed,
          (a: bytes, b: bytes, c: bytes, d: bytes) => 0, (s: bytes) => s)
  }

  function Zeros(n: nat): (s: bytes)
    ensures |s| == n
  {
    seq(n, _ => 0)
  }

  function Sealed(text: bytes): bytes {
    text + Zeros(TAG_LEN)
  }

  function Unsealed(s: bytes): Option<bytes> {
    if |s| >= TAG_LEN then Some(s[..|s| - TAG_LEN]) else None
  }

  function OpenCipher(): Cipher {
    Cipher((key: bytes, nonce: bytes, aad: bytes, text: bytes) => Sealed(text),
           (key: bytes, nonce: bytes, aad: bytes, s: bytes) => Unsealed(s))
  }

  function ToySuite(): Suite {
    Suite(ToyCurve(), OpenCipher(), (key: bytes, random: bytes) => Zeros(COOKIE_LEN),
          (premaster: bytes, a: bytes, b: bytes) => EmptyKeys(),
          (master: bytes, role: S.Role, transcript: bytes) => Zeros(VERIFY_DATA_LEN))
  }

  lemma ResidueOf(a: int)
    ensures ToyCurve().At(a) == Residue(a)
  {
    assert 1 * a == a;
  }

  lemma ResiduesAdd(a: int, b: int)
    ensures (a % ORDER + b % ORDER) % ORDER == (a + b) % ORDER
    ensures (a % ORDER - b % ORDER) % ORDER == (a - b) % ORDER
  {
    Shifted(a + b, a % ORDER + b % ORDER, a / ORDER + b / ORDER);
    Shifted(a - b, a % ORDER - b % ORDER, a / ORDER - b / ORDER);
  }

  lemma Shifted(x: int, y: int, k: int)
    requires x == y + ORDER * k
    ensures x % ORDER == y % ORDER
  {
  }

  lemma ResiduesMultiply(a: int, b: int)
    ensures (a % ORDER * b) % ORDER == (a * b) % ORDER
  {
    var q := a / ORDER;
    assert a == ORDER * q + a % ORDER;
    assert a * b == ORDER * (q * b) + a % ORDER * b;
  }

  lemma ResiduesSame(a: int, b: int)
    ensures a % ORDER == b % ORDER <==> Same(ORDER, a, b)
  {
  }

  lemma GroupLaws(a: int, b: int)
    ensures var c := ToyCurve();
            && c.add(c.At(a), c.At(b)) == c.At(a + b)
            && c.sub(c.At(a), c.At(b)) == c.At(a - b)
            && c.mul(c.At(a), b) == c.At(a * b)
            && (c.At(a) == c.At(b) <==> Same(c.order, a, b))
  {
    ResidueOf(a);
    ResidueOf(b);
    ResidueOf(a + b);
    ResidueOf(a - b);
    ResidueOf(a * b);
    ResiduesAdd(a, b);
    ResiduesMultiply(a, b);
    ResiduesSame(a, b);
  }

  lemma CoordinateLaws(a: int, b: int)
    requires Residue(a) != Point(0) && Residue(b) != Point(0)
    ensures Coordinate(Residue(a)) == Coordinate(Residue(b)) <==> Residue(a) == Residue(b) || Residue(a) == Residue(-b)
  {
  }

  lemma CurveIsGroup()
    ensures ToyCurve().IsGroup()
  {
    hide ToyCurve, Same, Pow256, IsPrime;
    var c := ToyCurve();
    ToyConstants();
    OrderIsSmall();
    forall a, b {:trigger Scalars(a, b)} | Scalars(a, b)
      ensures c.add(c.At(a), c.At(b)) == c.At(a + b) && c.sub(c.At(a), c.At(b)) == c.At(a - b)
              && c.mul(c.At(a), b) == c.At(a * b) && (c.At(a) == c.At(b) <==> Same(c.order, a, b))
    {
      GroupLaws(a, b);
    }
  }

  lemma ToyConstants()
    ensures var c := ToyCurve(); c.order == ORDER && c.identity == c.At(0) && c.generator == c.At(1)
  {
    ResidueOf(0);
    ResidueOf(1);
  }

  lemma EncodingLaws(a: int, b: int)
    ensures var c := ToyCurve();
            && c.decode(c.encode(c.At(a))) == Some(c.At(a)) && |c.encode(c.At(a))| == 1
            && (c.At(a) != c.identity && c.At(b) != c.identity ==>
                  (c.xCoordinate(c.At(a)) == c.xCoordinate(c.At(b)) <==> c.At(a) == c.At(b) || c.At(a) == c.At(-b)))
  {
    hide Coordinate;
    ResidueOf(a);
    ResidueOf(b);
    ResidueOf(-b);
    if Residue(a) != Point(0) && Residue(b) != Point(0) {
      CoordinateLaws(a, b);
    }
  }

  lemma DecodesToCurve(s: bytes)
    ensures var c := ToyCurve(); c.decode(s).Some? ==> c.OnCurve(c.decode(s).value)
  {
    var c := ToyCurve();
    if c.decode(s).Some? {
      ResidueOf(s[0] as int);
      assert c.decode(s).value == c.At(s[0] as int);
    }
  }

  lemma CurveIsLawful()
    ensures ToyCurve().Lawful()
  {
    hide ToyCurve, Curve.OnCurve;
    var c := ToyCurve();
    CurveIsGroup();
    forall s {:trigger Bytes(s)} | Bytes(s) && c.decode(s).Some? ensures c.OnCurve(c.decode(s).value) {
      DecodesToCurve(s);
    }
    forall a, b {:trigger Scalars(a, b)} | Scalars(a, b)
      ensures c.decode(c.encode(c.At(a))) == Some(c.At(a)) && |c.encode(c.At(a))| == 1
      ensures c.At(a) != c.identity && c.At(b) != c.identity ==>
                (c.xCoordinate(c.At(a)) == c.xCoordinate(c.At(b)) <==> c.At(a) == c.At(b) || c.At(a) == c.At(-b))
    {
      EncodingLaws(a, b);
    }
  }

  lemma OrderIsSmall()
    ensures IsPrime(ORDER) && ORDER <= Pow256(32)
  {
    AtLeast256(31);
  }

  lemma {:induction false} AtLeast256(k: nat)
    ensures Pow256(k + 1) >= 256
  {
    if k > 0 {
      AtLeast256(k - 1);
    }
  }

  lemma CipherIsLawful()
    ensures OpenCipher().Lawful()
  {
    forall text ensures Unsealed(Sealed(text)) == Some(text) {
      assert Sealed(text)[..|text|] == text;
    }
  }

  /** All scalars and secrets are one. */
  lemma GoodSetupExists() returns (u: Setup)
    ensures u.Good()
  {
    CurveIsLawful();
    CipherIsLawful();
    var random: Hello.Random := Zeros(32);
    u := Setup(ToySuite(), EcJpake.Party(EcJpake.Client, CH.CLIENT_ID, 1, 1, 1),
               EcJpake.Party(EcJpake.Server, CH.SERVER_ID, 1, 1, 1), (i: nat) => 1, random, random, []);
  }

  /** Two parties made for the same secret bytes give a good setup, unless one
      of the three sums vanishes. */
  lemma SameSecretIsGood(u: Setup, secret: bytes)
    requires u.suite.Lawful() && EcJpake.MadeFor(u.Exchange(), secret, secret)
    requires u.client.id == CH.CLIENT_ID && u.server.id == CH.SERVER_ID
    requires forall i: nat {:trigger u.v(i)} :: 0 < u.v(i) < u.suite.curve.order
    ensures u.Good() <==>
            && !Zero(u.suite.curve.order, u.client.x1 + u.server.x1)
            && !Zero(u.suite.curve.order, u.Exchange().ServerBase())
            && !Zero(u.suite.curve.order, u.Exchange().ClientBase())
  {
    hide Curve.IsGroup, Curve.IsEncoding, EcJpake.SecretNumber;
  }

  // ---- Different secrets that agree ----

  function Toy(secret: nat, peerSecret: nat, peerX2: nat): EcJpake.Honest {
    EcJpake.Honest(ToyCurve(), EcJpake.Party(EcJpake.Client, CH.CLIENT_ID, secret, 1, 1),
                   EcJpake.Party(EcJpake.Server, CH.SERVER_ID, peerSecret, 1, peerX2), (i: nat) => 1)
  }

  /** When the exchange on the toy curve finishes on both sides, and what both
      sides then hold. */
  lemma ToyFinishes(secret: nat, peerSecret: nat, peerX2: nat)
    requires 0 < secret < ORDER && 0 < peerSecret < ORDER && 0 < peerX2 < ORDER
    requires peerX2 != 5
    ensures var h := Toy(secret, peerSecret, peerX2);
            && h.Valid()
            && h.ClientScalar() == 3 * (peerX2 * peerSecret) - peerX2 * secret
            && h.ServerScalar() == ((2 + peerX2) * secret - peerX2 * peerSecret) * peerX2
            && (h.ClientScalar() % ORDER != 0 ==> h.ClientShared() == Ok(Residue(h.ClientScalar())))
            && (h.ServerScalar() % ORDER != 0 ==> h.ServerShared() == Ok(Residue(h.ServerScalar())))
  {
    hide EcJpake.FirstRound, EcJpake.SecondRound, EcJpake.SharedPoint, ToyCurve, Curve.Lawful, Residue;
    var h := Toy(secret, peerSecret, peerX2);
    CurveIsLawful();
    ToyConstants();
    EcJpake.ClientHonest(h);
    EcJpake.ServerHonest(h);
    ResidueOf(h.ClientScalar());
    ResidueOf(h.ServerScalar());
    ResiduesSame(h.ClientScalar(), 0);
    ResiduesSame(h.ServerScalar(), 0);
    ResiduesSame(3, 0);
    ResiduesSame(2 + peerX2, 0);
  }

  /** The secrets one and two reach the same point when the four scalars add up
      to the order. */
  lemma DifferentSecretsAgree() returns (h: EcJpake.Honest, p: Point)
    ensures h.Valid() && h.client.secret != h.server.secret
    ensures h.ClientShared() == Ok(p) && h.ServerShared() == Ok(p)
  {
    hide EcJpake.Honest.ClientShared, EcJpake.Honest.ServerShared, EcJpake.Honest.Valid;
    ToyFinishes(1, 2, 4);
    h, p := Toy(1, 2, 4), Point(6);
  }

  /** With all scalars one, the secrets one and six reach opposite points, so
      the key material is the same although the points differ. */
  lemma OppositePointsAgree() returns (h: EcJpake.Honest, p: Point, q: Point)
    ensures h.Valid() && h.client.secret != h.server.secret
    ensures h.ClientShared() == Ok(p) && h.ServerShared() == Ok(q)
    ensures p != q && h.c.xCoordinate(p) == h.c.xCoordinate(q)
  {
    hide EcJpake.Honest.ClientShared, EcJpake.Honest.ServerShared, EcJpake.Honest.Valid;
    ToyFinishes(1, 6, 1);
    h, p, q := Toy(1, 6, 1), Point(3), Point(4);
  }
}
