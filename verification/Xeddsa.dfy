/** Little-endian integers of fixed width, and the byte masks of the signature code. */
module LittleEndian {
  import opened Bytes

  function Pow256(n: nat): nat {
    if n == 0 then 1 else 256 * Pow256(n - 1)
  }

  function FromBytes(b: seq<Byte>): nat {
    if b == [] then 0 else b[0] as nat + 256 * FromBytes(b[1..])
  }

  function ToBytes(n: nat, width: nat): (b: seq<Byte>)
    ensures |b| == width
    decreases width
  {
    if width == 0 then [] else [n % 256] + ToBytes(n / 256, width - 1)
  }

  lemma {:induction false} BytesBack(n: nat, width: nat)
    requires n < Pow256(width)
    ensures FromBytes(ToBytes(n, width)) == n
    decreases width
  {
    if width > 0 {
      BytesBack(n / 256, width - 1);
    }
  }

  lemma {:induction false} FromBytesBound(b: seq<Byte>)
    ensures FromBytes(b) < Pow256(|b|)
  {
    if b != [] {
      FromBytesBound(b[1..]);
    }
  }

  /** The last byte is the most significant one. */
  lemma {:induction false} LastByte(b: seq<Byte>)
    requires b != []
    ensures FromBytes(b) == FromBytes(b[..|b| - 1]) + Pow256(|b| - 1) * (b[|b| - 1] as nat)
  {
    if |b| == 1 {
      assert b[1..] == [] && b[..0] == [];
    } else {
      var init := b[..|b| - 1];
      LastByte(b[1..]);
      assert b[1..][..|b| - 2] == init[1..];
      assert FromBytes(init) == b[0] as nat + 256 * FromBytes(init[1..]);
      Rearrange(b[0] as nat, FromBytes(init[1..]), Pow256(|b| - 2), b[|b| - 1] as nat);
    }
  }

  lemma {:induction false} Rearrange(a: nat, x: nat, p: nat, t: nat)
    ensures a + 256 * (x + p * t) == a + 256 * x + (256 * p) * t
  {
    assert 256 * (p * t) == (256 * p) * t;
  }

  lemma {:induction false} FromBytesInjective(a: seq<Byte>, b: seq<Byte>)
    requires |a| == |b| && FromBytes(a) == FromBytes(b)
    ensures a == b
    decreases |a|
  {
    if a != [] {
      FromBytesInjective(a[1..], b[1..]);
      assert a == [a[0]] + a[1..] && b == [b[0]] + b[1..];
    }
  }
}

/** XEdDSA over an abstract group of the order of Ed25519, with the concrete constants and masks of
    src/pywhats/signal/experimental/keys.py and _ed25519.py. */
module Xeddsa {
  import opened Outcomes
  import opened Bytes
  import opened LittleEndian
  import opened Arithmetic

  /** 2^248, the weight of the last of 32 bytes. */
  const TOP: nat := 0x1_0000_0000_0000_0000_0000_0000_0000_0000_0000_0000_0000_0000_0000_0000_0000_00

  /** The field prime 2^255 - 19 and the group order. */
  const FIELD: nat := 128 * TOP - 19
  const ORDER: nat := 16 * TOP + 27742317777372353535851937790883648493

  // ---- Masks on 32-byte strings ----

  lemma {:induction false} Weight()
    ensures Pow256(31) == TOP && Pow256(32) == 256 * TOP
  {
    assert Pow256(4) == 0x1_0000_0000;
    assert Pow256(8) == 0x1_0000_0000_0000_0000;
    assert Pow256(16) == 0x1_0000_0000_0000_0000_0000_0000_0000_0000;
    assert Pow256(24) == 0x1_0000_0000_0000_0000_0000_0000_0000_0000_0000_0000_0000_0000;
  }

  function Low(b: seq<Byte>): nat
    requires |b| == 32
  {
    FromBytes(b[..31])
  }

  lemma {:induction false} TopSplit(b: seq<Byte>)
    requires |b| == 32
    ensures FromBytes(b) == Low(b) + TOP * (b[31] as nat) && Low(b) < TOP
  {
    Weight();
    LastByte(b);
    FromBytesBound(b[..31]);
  }

  lemma {:induction false} WithTop(b: seq<Byte>, x: Byte)
    requires |b| == 32
    ensures FromBytes(b[31 := x]) == Low(b) + TOP * (x as nat)
  {
    TopSplit(b[31 := x]);
    assert b[31 := x][..31] == b[..31];
  }

  /** `b[31] &= 0x7F` */
  function ClearSign(b: seq<Byte>): (r: seq<Byte>)
    requires |b| == 32
  {
    b[31 := b[31] % 128]
  }

  /** `b[31] |= bit << 7` */
  function SetSign(b: seq<Byte>, bit: bool): (r: seq<Byte>)
    requires |b| == 32
  {
    if bit then b[31 := b[31] % 128 + 128] else b
  }

  lemma {:induction false} ClearSignValue(b: seq<Byte>)
    requires |b| == 32
    ensures FromBytes(ClearSign(b)) == FromBytes(b) - (if b[31] >= 128 then 128 * TOP else 0)
  {
    TopSplit(b);
    WithTop(b, b[31] % 128);
  }

  lemma {:induction false} FitsWidth(n: nat)
    requires n < 256 * TOP
    ensures FromBytes(ToBytes(n, 32)) == n && ToBytes(n, 32)[31] as nat * TOP <= n < (ToBytes(n, 32)[31] as nat + 1) * TOP
  {
    Weight();
    BytesBack(n, 32);
    TopSplit(ToBytes(n, 32));
  }

  /** A reduced scalar leaves the three top bits of its last byte clear. */
  lemma {:induction false} ScalarTopBits(s: nat)
    requires s < ORDER
    ensures FromBytes(ToBytes(s, 32)) == s && ToBytes(s, 32)[31] < 32
  {
    FitsWidth(s);
  }

  /** A coordinate with a sign in its top bit. */
  function Compressed(y: nat, odd: bool): (b: seq<Byte>)
    ensures |b| == 32
  {
    if odd then ToBytes(y + 128 * TOP, 32) else ToBytes(y, 32)
  }

  /** Clearing the sign of an encoded point leaves the bare coordinate. */
  lemma {:induction false} ClearedCoordinate(y: nat, odd: bool)
    requires y < 128 * TOP
    ensures (Compressed(y, odd)[31] >= 128 <==> odd) && ClearSign(Compressed(y, odd)) == ToBytes(y, 32)
  {
    var b := Compressed(y, odd);
    FitsWidth(y);
    assert FromBytes(b) == y + (if odd then 128 * TOP else 0) by {
      if odd {
        FitsWidth(y + 128 * TOP);
      }
    }
    ClearedValue(b, ToBytes(y, 32), y, odd);
  }

  lemma {:induction false} ClearedValue(b: seq<Byte>, d: seq<Byte>, y: nat, odd: bool)
    requires |b| == |d| == 32 && y < 128 * TOP
    requires FromBytes(b) == y + (if odd then 128 * TOP else 0) && FromBytes(d) == y
    ensures (b[31] >= 128 <==> odd) && ClearSign(b) == d
  {
    TopSplit(b);
    ClearSignValue(b);
    FromBytesInjective(ClearSign(b), d);
  }

  // ---- Clamping ----

  function ClampBytes(k: seq<Byte>): (r: seq<Byte>)
    requires |k| == 32
  {
    k[0 := k[0] - k[0] % 8][31 := 64 + k[31] % 64]
  }

  function Clamp(k: seq<Byte>): nat
    requires |k| == 32
  {
    FromBytes(ClampBytes(k))
  }

  lemma {:induction false} ClampBounds(k: seq<Byte>)
    requires |k| == 32
    ensures 64 * TOP <= Clamp(k) < 128 * TOP && Clamp(k) % 8 == 0
  {
    var b := ClampBytes(k);
    TopSplit(b);
    LowBits(b);
    assert b[0] % 8 == 0 && 64 <= b[31] < 128;
  }

  /** The three low bits cleared, the top two set to 01, and everything between kept. */
  lemma {:induction false} ClampIs(k: seq<Byte>)
    requires |k| == 32
    ensures Clamp(k) == 64 * TOP + FromBytes(k) % (64 * TOP) / 8 * 8
  {
    var mid := FromBytes(k[1..31]);
    ClampParts(k);
    ClampParts(ClampBytes(k));
    assert ClampBytes(k)[1..31] == k[1..31];
    assert FromBytes(k) == k[0] as nat + 256 * mid + k[31] as nat * TOP;
    ClampNumber(k[0] as nat, mid, k[31] as nat, FromBytes(k));
  }

  lemma {:induction false} ClampParts(b: seq<Byte>)
    requires |b| == 32
    ensures FromBytes(b) == b[0] as nat + 256 * FromBytes(b[1..31]) + b[31] as nat * TOP
    ensures 256 * FromBytes(b[1..31]) + 256 <= TOP
  {
    TopSplit(b);
    assert b[..31] == [b[0]] + b[1..31];
    assert b[..31][1..] == b[1..31];
    FromBytesBound(b[1..31]);
  }

  lemma {:induction false} ClampNumber(low: nat, mid: nat, top: nat, n: nat)
    requires low < 256 && top < 256 && 256 * mid + 256 <= TOP && n == low + 256 * mid + top * TOP
    ensures (low - low % 8) + 256 * mid + (64 + top % 64) * TOP == 64 * TOP + n % (64 * TOP) / 8 * 8
  {
    var q, r := top / 64, top % 64;
    var rest := low + 256 * mid + r * TOP;
    assert n == q * (64 * TOP) + rest;
    assert rest < 64 * TOP;
    Quotient(n, q, rest, 64 * TOP);
    Quotient(rest, rest / 8, low % 8, 8);
  }

  lemma {:induction false} LowBits(b: seq<Byte>)
    requires b != []
    ensures FromBytes(b) % 8 == b[0] as nat % 8
  {
    var rest := FromBytes(b[1..]);
    assert FromBytes(b) == b[0] as nat + 8 * (32 * rest);
  }

  lemma {:induction false} EightDivides(j: nat, q: nat, m: nat)
    requires q % 8 == 5 && j * q == 8 * m
    ensures j % 8 == 0
  {
    var t, r := q / 8, j % 8;
    assert j * q == 8 * (j * t) + 5 * j by {
      assert q == 8 * t + 5;
      assert j * (8 * t + 5) == 8 * (j * t) + 5 * j;
    }
    assert 5 * j == 8 * (m - j * t);
  }

  /** A clamped scalar is never a multiple of the group order. */
  lemma {:induction false} ClampNonZero(k: seq<Byte>)
    requires |k| == 32
    ensures Clamp(k) % ORDER != 0
  {
    ClampBounds(k);
    var n := Clamp(k);
    if n % ORDER == 0 {
      var j := n / ORDER;
      assert n == j * ORDER;
      EightDivides(j, ORDER, n / 8);
      assert false;
    }
  }

  // ---- The group ----

  /** Points are only named; what is asked of coordinates is asked of multiples of the base point. */
  type Point = int

  /** The curve: its group, the coordinates that encodings use, and the Montgomery form. */
  datatype Curve = Curve(
    zero: Point, base: Point, add: (Point, Point) -> Point, neg: Point -> Point,
    y: Point -> nat, odd: Point -> bool, decode: (nat, bool) -> Option<Point>,
    u: Point -> nat, toEdwards: nat -> nat, sha: seq<Byte> -> nat)

  ghost predicate Associates(c: Curve, a: Point, b: Point, d: Point) {
    c.add(c.add(a, b), d) == c.add(a, c.add(b, d))
  }

  ghost predicate Commutes(c: Curve, a: Point, b: Point) {
    c.add(a, b) == c.add(b, a)
  }

  ghost predicate Unit(c: Curve, a: Point) {
    c.add(c.zero, a) == a && c.add(a, c.neg(a)) == c.zero
  }

  /** A commutative group in which the base point has the order of Ed25519. */
  ghost predicate GroupLaws(c: Curve) {
    && (forall a, b, d :: Associates(c, a, b, d))
    && (forall a, b :: Commutes(c, a, b))
    && (forall a :: Unit(c, a))
    && (forall n: nat :: Times(c, n, c.base) == c.zero <==> n % ORDER == 0)
  }

  /** A point is recovered from `y` and the parity of `x`; off the neutral element, negation keeps `y`
      and flips the parity, and `y` is recovered from the Montgomery form. */
  ghost predicate Coordinates(c: Curve, a: Point) {
    && c.y(a) < FIELD && c.decode(c.y(a), c.odd(a)) == Some(a)
    && (a != c.zero ==> c.y(c.neg(a)) == c.y(a) && c.odd(c.neg(a)) == !c.odd(a))
    && (a != c.zero ==> c.u(a) < FIELD && c.toEdwards(c.u(a)) == c.y(a))
  }

  ghost predicate CoordinateLaws(c: Curve) {
    forall n: nat :: Coordinates(c, Times(c, n, c.base))
  }

  /** The `n`-fold sum. */
  function Times(c: Curve, n: nat, a: Point): Point {
    if n == 0 then c.zero else c.add(Times(c, n - 1, a), a)
  }

  lemma {:induction false} Assoc(c: Curve, a: Point, b: Point, d: Point)
    requires GroupLaws(c)
    ensures c.add(c.add(a, b), d) == c.add(a, c.add(b, d))
  {
    assert Associates(c, a, b, d);
  }

  lemma {:induction false} Comm(c: Curve, a: Point, b: Point)
    requires GroupLaws(c)
    ensures c.add(a, b) == c.add(b, a)
  {
    assert Commutes(c, a, b);
  }

  lemma {:induction false} Units(c: Curve, a: Point)
    requires GroupLaws(c)
    ensures c.add(c.zero, a) == a && c.add(a, c.zero) == a && c.add(a, c.neg(a)) == c.zero && c.add(c.neg(a), a) == c.zero
  {
    assert Unit(c, a);
    Comm(c, c.zero, a);
    Comm(c, a, c.neg(a));
  }

  lemma {:induction false} TimesAdd(c: Curve, m: nat, n: nat, a: Point)
    requires GroupLaws(c)
    ensures Times(c, m + n, a) == c.add(Times(c, m, a), Times(c, n, a))
    decreases n
  {
    Units(c, Times(c, m, a));
    if n > 0 {
      TimesAdd(c, m, n - 1, a);
      Assoc(c, Times(c, m, a), Times(c, n - 1, a), a);
    }
  }

  lemma {:induction false} TimesTimes(c: Curve, m: nat, n: nat, a: Point)
    requires GroupLaws(c)
    ensures Times(c, m, Times(c, n, a)) == Times(c, m * n, a)
    decreases m
  {
    if m > 0 {
      TimesTimes(c, m - 1, n, a);
      TimesAdd(c, (m - 1) * n, n, a);
      assert (m - 1) * n + n == m * n;
    }
  }

  lemma {:induction false} Doubled(c: Curve, n: nat, a: Point)
    requires GroupLaws(c)
    ensures Times(c, n, c.add(a, a)) == Times(c, 2 * n, a)
  {
    Units(c, a);
    assert Times(c, 1, a) == c.add(Times(c, 0, a), a) == a;
    assert Times(c, 2, a) == c.add(Times(c, 1, a), a);
    TimesTimes(c, n, 2, a);
  }

  /** Double and add: the loop of `_scalar_mult` computes the `s`-fold sum. */
  method ScalarMult(c: Curve, s: nat, a: Point) returns (r: Point)
    requires GroupLaws(c)
    ensures r == Times(c, s, a)
  {
    var n, p := s, a;
    r := c.zero;
    Units(c, Times(c, s, a));
    while n > 0
      invariant c.add(r, Times(c, n, p)) == Times(c, s, a)
    {
      Doubled(c, n / 2, p);
      if n % 2 == 1 {
        AddOdd(c, r, n, p);
        r := c.add(r, p);
      }
      p := c.add(p, p);
      n := n / 2;
    }
    Units(c, r);
  }

  lemma {:induction false} AddOdd(c: Curve, r: Point, n: nat, p: Point)
    requires GroupLaws(c) && n % 2 == 1
    ensures c.add(c.add(r, p), Times(c, 2 * (n / 2), p)) == c.add(r, Times(c, n, p))
  {
    assert n - 1 == 2 * (n / 2);
    Assoc(c, r, p, Times(c, n - 1, p));
    Comm(c, p, Times(c, n - 1, p));
  }

  lemma {:induction false} Cancel(c: Curve, a: Point, b: Point, d: Point)
    requires GroupLaws(c)
    ensures c.add(a, c.neg(b)) == d <==> a == c.add(d, b)
  {
    Assoc(c, a, c.neg(b), b);
    Assoc(c, d, b, c.neg(b));
    Units(c, b);
    Units(c, a);
    Units(c, d);
  }

  /** Multiples of the base point depend on the scalar modulo the order, and on nothing less. */
  lemma {:induction false} TimesBase(c: Curve, m: nat, n: nat)
    requires GroupLaws(c)
    ensures Times(c, m, c.base) == Times(c, n, c.base) <==> m % ORDER == n % ORDER
  {
    if m <= n {
      TimesBaseOrdered(c, m, n);
    } else {
      TimesBaseOrdered(c, n, m);
    }
  }

  lemma {:induction false} TimesBaseOrdered(c: Curve, m: nat, n: nat)
    requires GroupLaws(c) && m <= n
    ensures Times(c, m, c.base) == Times(c, n, c.base) <==> m % ORDER == n % ORDER
  {
    var a, d := Times(c, m, c.base), Times(c, n - m, c.base);
    TimesAdd(c, n - m, m, c.base);
    assert Times(c, n, c.base) == c.add(d, a) by {
      assert n - m + m == n;
    }
    Cancel(c, a, a, d);
    Units(c, a);
    assert Times(c, m, c.base) == Times(c, n, c.base) <==> d == c.zero;
    DifferenceMod(m, n, ORDER);
  }

  lemma {:induction false} DifferenceMod(m: nat, n: nat, q: nat)
    requires m <= n && q > 0
    ensures (n - m) % q == 0 <==> m % q == n % q
  {
    var a, b, r, t := m / q, n / q, m % q, n % q;
    assert m == a * q + r && n == b * q + t;
    if r == t {
      assert n - m == (b - a) * q by {
        assert b * q - a * q == (b - a) * q;
      }
      Quotient(n - m, b - a, 0, q);
    }
    if (n - m) % q == 0 {
      var k := (n - m) / q;
      assert n - m == k * q;
      assert n == (a + k) * q + r by {
        assert (a + k) * q == a * q + k * q;
      }
      SameMultiple(b, t, a + k, r, q);
    }
  }

  // ---- Scalars modulo the order ----

  function Reduced(k: int): (r: nat)
    ensures r < ORDER
  {
    k % ORDER
  }

  function Opposite(k: nat): (r: nat)
    ensures r < ORDER
  {
    Reduced(0 - k)
  }

  lemma {:induction false} ReducedTwice(k: int, q: nat)
    requires q > 0
    ensures k % q % q == k % q
  {
  }

  lemma {:induction false} ReducedSmall(k: nat)
    requires k < ORDER
    ensures Reduced(k) == k
  {
  }

  lemma {:induction false} OppositeMod(k: nat, q: nat)
    requires q > 0
    ensures (0 - k) % q == (if k % q == 0 then 0 else q - k % q)
  {
    var a, r := k / q, k % q;
    assert k == a * q + r;
    if r == 0 {
      assert 0 - k == -a * q + 0;
      Quotient(0 - k, -a, 0, q);
    } else {
      assert 0 - k == (-a - 1) * q + (q - r) by {
        assert (-a - 1) * q == -a * q - q;
      }
      Quotient(0 - k, -a - 1, q - r, q);
    }
  }

  // ---- Signing and verifying ----

  function BaseTimes(c: Curve, s: nat): Point {
    Times(c, Reduced(s), c.base)
  }

  function Encode(c: Curve, a: Point): (b: seq<Byte>)
    ensures |b| == 32
  {
    Compressed(c.y(a), c.odd(a))
  }

  function Decode(c: Curve, b: seq<Byte>): Option<Point> {
    if |b| != 32 then None else c.decode(FromBytes(ClearSign(b)), b[31] >= 128)
  }

  /** The signing pair: an encoding with its sign cleared, and the scalar that matches it. */
  function KeyPair(c: Curve, k: nat): (seq<Byte>, nat) {
    var encoded := Encode(c, BaseTimes(c, k));
    (ClearSign(encoded), if encoded[31] >= 128 then Opposite(k) else Reduced(k))
  }

  function HashPrefix(): seq<Byte> {
    [0xFE] + seq(31, _ => 0xFF)
  }

  function NonceScalar(c: Curve, a: nat, message: seq<Byte>, z: seq<Byte>): nat {
    Reduced(c.sha(HashPrefix() + ToBytes(a, 32) + message + z))
  }

  function Challenge(c: Curve, r: seq<Byte>, a: seq<Byte>, message: seq<Byte>): nat {
    Reduced(c.sha(r + a + message))
  }

  /** `s = (r + h a) mod q` */
  function Response(r: nat, h: nat, a: nat): (s: nat)
    ensures s < ORDER
  {
    Reduced(r + Product(h, a))
  }

  function Product(h: nat, a: nat): nat {
    h * a
  }

  function Sign(c: Curve, private: seq<Byte>, message: seq<Byte>, z: seq<Byte>): Option<seq<Byte>> {
    if |private| != 32 || |z| != 64 then None
    else
      var (A, a) := KeyPair(c, Clamp(private));
      var r := NonceScalar(c, a, message, z);
      var R := Encode(c, BaseTimes(c, r));
      Some(R + ToBytes(Response(r, Challenge(c, R, A, message), a), 32))
  }

  function Verify(c: Curve, public: seq<Byte>, message: seq<Byte>, signature: seq<Byte>): bool {
    |public| == 32 && |signature| == 64 && FromBytes(ClearSign(public)) < FIELD
    && Accepts(c, KeyBytes(c, public, signature[63] >= 128), message, signature[..32], signature[32..])
  }

  /** The key rebuilt from its Montgomery form, with the sign that came with the signature. */
  function KeyBytes(c: Curve, public: seq<Byte>, bit: bool): seq<Byte>
    requires |public| == 32
  {
    SetSign(ToBytes(c.toEdwards(FromBytes(ClearSign(public))), 32), bit)
  }

  function Accepts(c: Curve, A: seq<Byte>, message: seq<Byte>, R: seq<Byte>, last: seq<Byte>): bool
    requires |last| == 32
  {
    var sBytes, key := ClearSign(last), Decode(c, A);
    sBytes[31] < 32 && key.Some? && Decode(c, R).Some?
    && R == Encode(c, CheckOf(c, Reduced(FromBytes(sBytes)), Challenge(c, R, A, message), key.value))
  }

  function CheckOf(c: Curve, s: nat, h: nat, key: Point): Point {
    c.add(BaseTimes(c, s), c.neg(Times(c, h, key)))
  }

  /** The X25519 public key of a private key. */
  function PublicOf(c: Curve, private: seq<Byte>): seq<Byte>
    requires |private| == 32
  {
    ToBytes(c.u(BaseTimes(c, Clamp(private))), 32)
  }

  lemma {:induction false} BaseIs(c: Curve, n: nat)
    requires GroupLaws(c) && CoordinateLaws(c)
    ensures BaseTimes(c, n) == Times(c, n, c.base) && Coordinates(c, BaseTimes(c, n))
    ensures BaseTimes(c, n) == c.zero <==> Reduced(n) == 0
  {
    ReducedTwice(n, ORDER);
    TimesBase(c, Reduced(n), n);
  }

  /** Encodings of multiples of the base point decode to the point, so they tell points apart. */
  lemma {:induction false} Decoded(c: Curve, a: Point)
    requires Coordinates(c, a)
    ensures Decode(c, Encode(c, a)) == Some(a)
  {
    DecodedAs(c, c.y(a), c.odd(a));
  }

  lemma {:induction false} DecodedAs(c: Curve, y: nat, odd: bool)
    requires y < 128 * TOP
    ensures Decode(c, Compressed(y, odd)) == c.decode(y, odd)
  {
    ClearedNumber(y, odd);
  }

  lemma {:induction false} ClearedNumber(y: nat, odd: bool)
    requires y < 128 * TOP
    ensures FromBytes(ClearSign(Compressed(y, odd))) == y && (Compressed(y, odd)[31] >= 128 <==> odd)
  {
    ClearedCoordinate(y, odd);
    FitsWidth(y);
  }

  /** The scalar that belongs to the public key with the given sign. */
  function Secret(c: Curve, k: nat, bit: bool): nat {
    var a := KeyPair(c, k).1;
    if bit then Opposite(a) else a
  }

  lemma {:induction false} OppositeTwice(k: nat)
    ensures Opposite(Opposite(k)) == Reduced(k) && Opposite(Reduced(k)) == Opposite(k)
    ensures Reduced(k + Opposite(k)) == 0
  {
    var q: nat := ORDER;
    OppositeTwiceMod(k, q, k % q, (0 - k) % q);
  }

  lemma {:induction false} OppositeTwiceMod(k: nat, q: nat, r: nat, m: nat)
    requires q > 0 && r == k % q && m == (0 - k) % q
    ensures (0 - m) % q == r && (0 - r) % q == m && (k + m) % q == 0
  {
    OppositeMod(k, q);
    OppositeMod(m, q);
    ReducedTwice(k, q);
    OppositeMod(r, q);
    var a := k / q;
    assert k == a * q + r;
    if r == 0 {
      Quotient(k + m, a, 0, q);
    } else {
      assert (a + 1) * q == a * q + q;
      Quotient(k + m, a + 1, 0, q);
      Quotient(m, 0, m, q);
    }
  }

  lemma {:induction false} Negated(c: Curve, k: nat)
    requires GroupLaws(c) && CoordinateLaws(c)
    ensures BaseTimes(c, Opposite(k)) == c.neg(BaseTimes(c, k))
  {
    var m := Opposite(k);
    OppositeTwice(k);
    BaseIs(c, k);
    BaseIs(c, m);
    TimesAdd(c, k, m, c.base);
    var a, b := Times(c, k, c.base), Times(c, m, c.base);
    assert c.add(a, b) == c.zero;
    Comm(c, a, b);
    Cancel(c, c.zero, a, b);
    Units(c, c.neg(a));
  }

  lemma {:induction false} SecretIs(c: Curve, k: nat, bit: bool)
    requires CoordinateLaws(c)
    ensures Secret(c, k, bit) == if bit == c.odd(BaseTimes(c, k)) then Reduced(k) else Opposite(k)
    ensures KeyPair(c, k).0 == ToBytes(c.y(BaseTimes(c, k)), 32)
  {
    var E := BaseTimes(c, k);
    assert Coordinates(c, E);
    ClearedCoordinate(c.y(E), c.odd(E));
    OppositeTwice(k);
  }

  lemma {:induction false} SetCleared(b: seq<Byte>)
    requires |b| == 32 && b[31] >= 128
    ensures SetSign(ClearSign(b), true) == b
  {
  }

  lemma {:induction false} SignedCoordinate(y: nat, bit: bool)
    requires y < 128 * TOP
    ensures SetSign(ToBytes(y, 32), bit) == Compressed(y, bit)
  {
    if bit {
      ClearedCoordinate(y, true);
      SetCleared(Compressed(y, true));
    }
  }

  /** The reconstructed key with either sign is the multiple of the base point by its scalar. */
  lemma {:induction false} KeyMatches(c: Curve, k: nat, bit: bool)
    requires GroupLaws(c) && CoordinateLaws(c) && Reduced(k) != 0
    ensures Decode(c, SetSign(KeyPair(c, k).0, bit)) == Some(BaseTimes(c, Secret(c, k, bit)))
  {
    var E, m := BaseTimes(c, k), Opposite(k);
    BaseIs(c, k);
    BaseIs(c, m);
    Negated(c, k);
    SecretIs(c, k, bit);
    SignedCoordinate(c.y(E), bit);
    DecodedAs(c, c.y(E), bit);
    ReducedTwice(k, ORDER);
  }

  lemma {:induction false} KeyTimes(c: Curve, h: nat, a: nat, x: nat)
    requires GroupLaws(c) && CoordinateLaws(c) && x == h * a
    ensures Times(c, h, BaseTimes(c, a)) == BaseTimes(c, x)
  {
    BaseIs(c, a);
    BaseIs(c, x);
    TimesTimes(c, h, a, c.base);
  }

  /** The difference of two multiples of the base point is one too. */
  lemma {:induction false} CheckPoint(c: Curve, s: nat, x: nat)
    requires GroupLaws(c) && CoordinateLaws(c)
    ensures Coordinates(c, c.add(BaseTimes(c, s), c.neg(BaseTimes(c, x))))
  {
    var m := Opposite(x);
    Negated(c, x);
    BaseIs(c, s);
    BaseIs(c, m);
    TimesAdd(c, s, m, c.base);
    assert Coordinates(c, Times(c, s + m, c.base));
  }

  lemma {:induction false} CheckScalars(c: Curve, s: nat, x: nat, r: nat)
    requires GroupLaws(c) && CoordinateLaws(c)
    ensures c.add(BaseTimes(c, s), c.neg(BaseTimes(c, x))) == BaseTimes(c, r) <==> Reduced(s) == Reduced(r + x)
  {
    BaseIs(c, s);
    BaseIs(c, x);
    BaseIs(c, r);
    TimesAdd(c, r, x, c.base);
    Cancel(c, BaseTimes(c, s), BaseTimes(c, x), BaseTimes(c, r));
    TimesBase(c, s, r + x);
  }

  lemma {:induction false} CheckEncodings(c: Curve, s: nat, x: nat, r: nat)
    requires GroupLaws(c) && CoordinateLaws(c)
    ensures Encode(c, BaseTimes(c, r)) == Encode(c, c.add(BaseTimes(c, s), c.neg(BaseTimes(c, x)))) <==> Reduced(s) == Reduced(r + x)
  {
    CheckPoint(c, s, x);
    CheckScalars(c, s, x, r);
    BaseIs(c, r);
    Decoded(c, c.add(BaseTimes(c, s), c.neg(BaseTimes(c, x))));
    Decoded(c, BaseTimes(c, r));
  }

  /** `sB - hA` encodes like `rB` exactly when the scalars agree. */
  lemma {:induction false} CheckEquation(c: Curve, s: nat, h: nat, a: nat, r: nat)
    requires GroupLaws(c) && CoordinateLaws(c)
    ensures Encode(c, BaseTimes(c, r)) == Encode(c, CheckOf(c, s, h, BaseTimes(c, a))) <==> Reduced(s) == Response(r, h, a)
  {
    KeyTimes(c, h, a, Product(h, a));
    CheckEncodings(c, s, Product(h, a), r);
  }

  /** The public key gives back the coordinate the signing pair is made of. */
  lemma {:induction false} PublicBack(c: Curve, private: seq<Byte>)
    requires GroupLaws(c) && CoordinateLaws(c) && |private| == 32
    ensures var u := FromBytes(ClearSign(PublicOf(c, private)));
            u < FIELD && forall bit :: KeyBytes(c, PublicOf(c, private), bit) == SetSign(KeyPair(c, Clamp(private)).0, bit)
  {
    var k := Clamp(private);
    var E := BaseTimes(c, k);
    ClampNonZero(private);
    BaseIs(c, k);
    SecretIs(c, k, false);
    assert c.u(E) < FIELD;
    ClearedCoordinate(c.u(E), false);
    FitsWidth(c.u(E));
  }

  /** Verification of a signature whose first half encodes `rB`, with the key rebuilt for either sign:
      it succeeds exactly when the top bits of the scalar are clear and the scalar is `r + h a` modulo
      the order. */
  lemma {:induction false} AcceptsExact(c: Curve, k: nat, bit: bool, message: seq<Byte>, r: nat, last: seq<Byte>, A: seq<Byte>, R: seq<Byte>)
    requires GroupLaws(c) && CoordinateLaws(c) && Reduced(k) != 0 && |last| == 32
    requires A == SetSign(KeyPair(c, k).0, bit) && R == Encode(c, BaseTimes(c, r))
    ensures Accepts(c, A, message, R, last)
       <==> last[31] % 128 < 32
            && Reduced(FromBytes(ClearSign(last))) == Response(r, Challenge(c, R, A, message), Secret(c, k, bit))
  {
    var a, s, h := Secret(c, k, bit), Reduced(FromBytes(ClearSign(last))), Challenge(c, R, A, message);
    KeyMatches(c, k, bit);
    assert Decode(c, R) == Some(BaseTimes(c, r)) by {
      BaseIs(c, r);
      Decoded(c, BaseTimes(c, r));
    }
    CheckEquation(c, s, h, a, r);
    assert Reduced(s) == s by {
      ReducedTwice(FromBytes(ClearSign(last)), ORDER);
    }
  }

  lemma {:induction false} VerifyExact(c: Curve, private: seq<Byte>, message: seq<Byte>, r: nat, last: seq<Byte>, bit: bool, A: seq<Byte>, R: seq<Byte>)
    requires GroupLaws(c) && CoordinateLaws(c) && |private| == 32 && |last| == 32 && bit == (last[31] >= 128)
    requires A == SetSign(KeyPair(c, Clamp(private)).0, bit) && R == Encode(c, BaseTimes(c, r))
    ensures Verify(c, PublicOf(c, private), message, R + last)
       <==> last[31] % 128 < 32 && Reduced(FromBytes(ClearSign(last)))
                                   == Response(r, Challenge(c, R, A, message), Secret(c, Clamp(private), bit))
  {
    ClampNonZero(private);
    AcceptsExact(c, Clamp(private), bit, message, r, last, A, R);
    VerifyIsAccepts(c, private, message, last, bit, A, R);
  }

  lemma {:induction false} VerifyIsAccepts(c: Curve, private: seq<Byte>, message: seq<Byte>, last: seq<Byte>, bit: bool, A: seq<Byte>, R: seq<Byte>)
    requires GroupLaws(c) && CoordinateLaws(c) && |private| == |R| == |last| == 32 && bit == (last[31] >= 128)
    requires A == SetSign(KeyPair(c, Clamp(private)).0, bit)
    ensures Verify(c, PublicOf(c, private), message, R + last) == Accepts(c, A, message, R, last)
  {
    var public := PublicOf(c, private);
    PublicBack(c, private);
    VerifyParts(c, public, message, last, bit, R);
    assert KeyBytes(c, public, bit) == A;
  }

  lemma {:induction false} VerifyParts(c: Curve, public: seq<Byte>, message: seq<Byte>, last: seq<Byte>, bit: bool, R: seq<Byte>)
    requires |public| == |R| == |last| == 32 && bit == (last[31] >= 128) && FromBytes(ClearSign(public)) < FIELD
    ensures Verify(c, public, message, R + last) == Accepts(c, KeyBytes(c, public, bit), message, R, last)
  {
    Halves(R, last);
  }

  lemma {:induction false} ScalarLast(s: nat)
    requires s < ORDER
    ensures ToBytes(s, 32)[31] < 32 && ClearSign(ToBytes(s, 32)) == ToBytes(s, 32) && FromBytes(ToBytes(s, 32)) == s
  {
    ScalarTopBits(s);
  }

  lemma {:induction false} Halves(R: seq<Byte>, last: seq<Byte>)
    requires |R| == |last| == 32
    ensures (R + last)[..32] == R && (R + last)[32..] == last && (R + last)[63] == last[31]
  {
  }

  /** The point compared with is a multiple of the base point, so an accepted first half encodes one. */
  lemma {:induction false} AcceptedNonce(c: Curve, k: nat, bit: bool, message: seq<Byte>, last: seq<Byte>, A: seq<Byte>, R: seq<Byte>)
    returns (r: nat)
    requires GroupLaws(c) && CoordinateLaws(c) && Reduced(k) != 0 && |last| == 32
    requires A == SetSign(KeyPair(c, k).0, bit) && Accepts(c, A, message, R, last)
    ensures R == Encode(c, BaseTimes(c, r))
  {
    var a, s, h := Secret(c, k, bit), Reduced(FromBytes(ClearSign(last))), Challenge(c, R, A, message);
    KeyMatches(c, k, bit);
    r := CheckMultiple(c, s, h, a);
  }

  lemma {:induction false} CheckMultiple(c: Curve, s: nat, h: nat, a: nat) returns (r: nat)
    requires GroupLaws(c) && CoordinateLaws(c)
    ensures CheckOf(c, s, h, BaseTimes(c, a)) == BaseTimes(c, r)
  {
    var x := Product(h, a);
    var m := Opposite(x);
    KeyTimes(c, h, a, x);
    Negated(c, x);
    r := s + m;
    BaseIs(c, s);
    BaseIs(c, m);
    BaseIs(c, r);
    TimesAdd(c, s, m, c.base);
  }

  /** The scalar is `r + h a` modulo the order, where `h` is the hash of the signature's first half, the key, and the
      message. */
  ghost predicate Balances(c: Curve, A: seq<Byte>, a: nat, message: seq<Byte>, R: seq<Byte>, r: nat, s: nat) {
    s == Reduced(r + Product(Reduced(c.sha(R + A + message)), a))
  }

  lemma {:induction false} BalancesIff(c: Curve, A: seq<Byte>, a: nat, message: seq<Byte>, R: seq<Byte>, r: nat, s: nat)
    ensures Balances(c, A, a, message, R, r, s) <==> s == Response(r, Challenge(c, R, A, message), a)
  {
  }

  /** The nonce and the scalar that make a signature good for the key with the given sign. */
  ghost predicate GoodFor(c: Curve, k: nat, bit: bool, message: seq<Byte>, R: seq<Byte>, last: seq<Byte>, r: nat)
    requires |last| == 32
  {
    && R == Encode(c, BaseTimes(c, r)) && last[31] % 128 < 32
    && Balances(c, SetSign(KeyPair(c, k).0, bit), Secret(c, k, bit), message, R, r, Reduced(FromBytes(ClearSign(last))))
  }

  /** Every 64-byte signature, of either key sign: it verifies exactly when its first half encodes `rB`
      for some `r`, the top bits of its scalar are clear, and the scalar is `r + h a` modulo the order. */
  lemma {:induction false} VerifyIff(c: Curve, private: seq<Byte>, message: seq<Byte>, R: seq<Byte>, last: seq<Byte>, bit: bool)
    requires GroupLaws(c) && CoordinateLaws(c) && |private| == |R| == |last| == 32 && bit == (last[31] >= 128)
    ensures Verify(c, PublicOf(c, private), message, R + last)
       <==> exists r: nat :: GoodFor(c, Clamp(private), bit, message, R, last, r)
  {
    var k := Clamp(private);
    var A := SetSign(KeyPair(c, k).0, bit);
    ClampNonZero(private);
    VerifyIsAccepts(c, private, message, last, bit, A, R);
    if Accepts(c, A, message, R, last) {
      var r := AcceptedNonce(c, k, bit, message, last, A, R);
      GoodIff(c, k, bit, message, r, last, A, R);
      assert GoodFor(c, k, bit, message, R, last, r);
    }
    if r: nat :| GoodFor(c, k, bit, message, R, last, r) {
      GoodIff(c, k, bit, message, r, last, A, R);
    }
  }

  lemma {:induction false} GoodIff(c: Curve, k: nat, bit: bool, message: seq<Byte>, r: nat, last: seq<Byte>, A: seq<Byte>, R: seq<Byte>)
    requires GroupLaws(c) && CoordinateLaws(c) && Reduced(k) != 0 && |last| == 32
    requires A == SetSign(KeyPair(c, k).0, bit) && R == Encode(c, BaseTimes(c, r))
    ensures Accepts(c, A, message, R, last) <==> GoodFor(c, k, bit, message, R, last, r)
  {
    var s, a, tops := Reduced(FromBytes(ClearSign(last))), Secret(c, k, bit), last[31] % 128 < 32;
    var balances := Balances(c, A, a, message, R, r, s);
    assert Accepts(c, A, message, R, last) <==> tops && balances by {
      AcceptsExact(c, k, bit, message, r, last, A, R);
      BalancesIff(c, A, a, message, R, r, s);
    }
  }

  /** Every signature verifies under the matching public key. */
  lemma {:induction false} SignVerifies(c: Curve, private: seq<Byte>, message: seq<Byte>, z: seq<Byte>)
    requires GroupLaws(c) && CoordinateLaws(c) && |private| == 32 && |z| == 64
    ensures Sign(c, private, message, z).Some? && |Sign(c, private, message, z).value| == 64
    ensures Verify(c, PublicOf(c, private), message, Sign(c, private, message, z).value)
  {
    var k := Clamp(private);
    var (A, a) := KeyPair(c, k);
    var r := NonceScalar(c, a, message, z);
    var R := Encode(c, BaseTimes(c, r));
    var s := Response(r, Challenge(c, R, A, message), a);
    var last := ToBytes(s, 32);
    ReducedSmall(s);
    ScalarLast(s);
    VerifyExact(c, private, message, r, last, false, A, R);
  }

  // ---- What a signature binds ----

  /** The order has no divisors of zero: it is prime. */
  ghost predicate PrimeOrder() {
    forall a: nat, b: nat :: Product(a, b) % ORDER == 0 ==> a % ORDER == 0 || b % ORDER == 0
  }

  lemma {:induction false} SameResponse(r: nat, h: nat, h': nat, a: nat)
    requires PrimeOrder() && a % ORDER != 0 && h < ORDER && h' < ORDER
    ensures Response(r, h, a) == Response(r, h', a) <==> h == h'
  {
    if Response(r, h, a) == Response(r, h', a) {
      var low, high := if h <= h' then h else h', if h <= h' then h' else h;
      ProductGap(r, low, high, a, ORDER);
      assert Product(high - low, a) % ORDER == 0;
      ReducedSmall(high - low);
    }
  }

  lemma {:induction false} ProductGap(r: nat, low: nat, high: nat, a: nat, q: nat)
    requires q > 0 && low <= high && (r + Product(low, a)) % q == (r + Product(high, a)) % q
    ensures Product(high - low, a) % q == 0
  {
    ProductMinus(low, high, a);
    SameRemainders(r + Product(low, a), r + Product(high, a), q);
  }

  lemma {:induction false} ProductMinus(low: nat, high: nat, a: nat)
    requires low <= high
    ensures Product(high - low, a) == Product(high, a) - Product(low, a)
  {
    assert (high - low) * a == high * a - low * a;
  }

  lemma {:induction false} SameRemainders(x: nat, y: nat, q: nat)
    requires q > 0 && x % q == y % q
    ensures (y - x) % q == 0
  {
    var i, j, m := x / q, y / q, x % q;
    assert x == i * q + m && y == j * q + m;
    Multiples(i, j, q);
    Quotient(y - x, j - i, 0, q);
  }

  lemma {:induction false} Multiples(i: nat, j: nat, q: nat)
    ensures j * q - i * q == (j - i) * q
  {
  }

  /** A signature made for one message verifies for another exactly if the hashes of first half, key and message agree
      modulo the order. */
  lemma {:induction false} BindsMessage(c: Curve, private: seq<Byte>, message: seq<Byte>, z: seq<Byte>, message': seq<Byte>)
    requires GroupLaws(c) && CoordinateLaws(c) && PrimeOrder() && |private| == 32 && |z| == 64
    ensures Sign(c, private, message, z).Some? && |Sign(c, private, message, z).value| == 64
    ensures var signature := Sign(c, private, message, z).value;
            var R, A := signature[..32], KeyBytes(c, PublicOf(c, private), false);
            Verify(c, PublicOf(c, private), message', signature)
            <==> c.sha(R + A + message) % ORDER == c.sha(R + A + message') % ORDER
  {
    var k := Clamp(private);
    var (A, a) := KeyPair(c, k);
    var r := NonceScalar(c, a, message, z);
    var R := Encode(c, BaseTimes(c, r));
    var h, h' := Challenge(c, R, A, message), Challenge(c, R, A, message');
    var s := Response(r, h, a);
    var last := ToBytes(s, 32);
    ReducedSmall(s);
    ScalarLast(s);
    VerifyExact(c, private, message', r, last, false, A, R);
    SecretNonZero(c, private);
    SameResponse(r, h, h', a);
    PublicBack(c, private);
    Halves(R, last);
  }

  lemma {:induction false} SecretNonZero(c: Curve, private: seq<Byte>)
    requires |private| == 32
    ensures KeyPair(c, Clamp(private)).1 % ORDER != 0
  {
    ClampNonZero(private);
    PairNonZero(c, Clamp(private));
  }

  lemma {:induction false} PairNonZero(c: Curve, k: nat)
    requires k % ORDER != 0
    ensures KeyPair(c, k).1 % ORDER != 0
  {
    var a, x, y := KeyPair(c, k).1, Opposite(k), Reduced(k);
    assert a == x || a == y;
    EitherNonZero(k, x, y, ORDER);
  }

  lemma {:induction false} EitherNonZero(k: nat, x: nat, y: nat, q: nat)
    requires q > 0 && k % q != 0 && x == (0 - k) % q && y == k % q
    ensures x % q != 0 && y % q != 0
  {
    OppositeMod(k, q);
    ReducedTwice(k, q);
    ReducedTwice(0 - k, q);
  }

  /** Two signatures have the same first half exactly if the hashes of prefix, signing scalar, message and random bytes
      agree modulo the order. */
  lemma {:induction false} NonceIff(c: Curve, private: seq<Byte>, message: seq<Byte>, z: seq<Byte>,
                                    private': seq<Byte>, message': seq<Byte>, z': seq<Byte>)
    requires GroupLaws(c) && CoordinateLaws(c) && |private| == |private'| == 32 && |z| == |z'| == 64
    ensures var x, y := Sign(c, private, message, z), Sign(c, private', message', z');
            var a, a' := Secret(c, Clamp(private), false), Secret(c, Clamp(private'), false);
            && x.Some? && y.Some? && |x.value| == |y.value| == 64
            && (x.value[..32] == y.value[..32]
                <==> c.sha([0xFE] + seq(31, _ => 0xFF) + ToBytes(a, 32) + message + z) % ORDER
                     == c.sha([0xFE] + seq(31, _ => 0xFF) + ToBytes(a', 32) + message' + z') % ORDER)
  {
    var a, a' := Secret(c, Clamp(private), false), Secret(c, Clamp(private'), false);
    var r, r' := NonceScalar(c, a, message, z), NonceScalar(c, a', message', z');
    var x, y := Sign(c, private, message, z).value, Sign(c, private', message', z').value;
    assert x[..32] == Encode(c, BaseTimes(c, r)) && y[..32] == Encode(c, BaseTimes(c, r'));
    SameEncoding(c, r, r');
    assert HashPrefix() == [0xFE] + seq(31, _ => 0xFF);
  }

  lemma {:induction false} SameEncoding(c: Curve, r: nat, r': nat)
    requires GroupLaws(c) && CoordinateLaws(c) && r < ORDER && r' < ORDER
    ensures Encode(c, BaseTimes(c, r)) == Encode(c, BaseTimes(c, r')) <==> r == r'
  {
    BaseIs(c, r);
    BaseIs(c, r');
    Decoded(c, BaseTimes(c, r));
    Decoded(c, BaseTimes(c, r'));
    TimesBase(c, r, r');
    ReducedSmall(r);
    ReducedSmall(r');
  }

  // ---- The same with the double-and-add loop ----

  method CalcKeyPair(c: Curve, k: nat) returns (A: seq<Byte>, a: nat)
    requires GroupLaws(c)
    ensures (A, a) == KeyPair(c, k)
  {
    var E := ScalarMult(c, Reduced(k), c.base);
    A := Encode(c, E);
    a := if A[31] >= 128 then Opposite(k) else Reduced(k);
    A := A[31 := A[31] % 128];
  }

  method XeddsaSign(c: Curve, private: seq<Byte>, message: seq<Byte>, z: seq<Byte>) returns (signature: Option<seq<Byte>>)
    requires GroupLaws(c)
    ensures signature == Sign(c, private, message, z)
  {
    if |private| != 32 || |z| != 64 {
      return None;
    }
    var A, a := CalcKeyPair(c, Clamp(private));
    var r := NonceScalar(c, a, message, z);
    var point := ScalarMult(c, Reduced(r), c.base);
    var R := Encode(c, point);
    var s := Response(r, Challenge(c, R, A, message), a);
    signature := Some(R + ToBytes(s, 32));
  }

  method XeddsaVerify(c: Curve, public: seq<Byte>, message: seq<Byte>, signature: seq<Byte>) returns (ok: bool)
    requires GroupLaws(c)
    ensures ok == Verify(c, public, message, signature)
  {
    if |public| != 32 || |signature| != 64 || FromBytes(ClearSign(public)) >= FIELD {
      return false;
    }
    ok := CheckParts(c, KeyBytes(c, public, signature[63] >= 128), message, signature[..32], signature[32..]);
  }

  method CheckParts(c: Curve, A: seq<Byte>, message: seq<Byte>, R: seq<Byte>, last: seq<Byte>) returns (ok: bool)
    requires GroupLaws(c) && |last| == 32
    ensures ok == Accepts(c, A, message, R, last)
  {
    var sBytes := ClearSign(last);
    if sBytes[31] >= 32 {
      return false;
    }
    var key, nonce := Decode(c, A), Decode(c, R);
    if key.None? || nonce.None? {
      return false;
    }
    var sB := ScalarMult(c, Reduced(Reduced(FromBytes(sBytes))), c.base);
    var hA := ScalarMult(c, Challenge(c, R, A, message), key.value);
    ok := R == Encode(c, c.add(sB, c.neg(hA)));
  }
}
