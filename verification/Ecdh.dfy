/** The key exchange of hub/ecc.py: key and point serialisation, public keys, and the shared secret
    with its checks on the peer's point. Both ends of an exchange compute the same 24 bytes. */
module Ecdh {
  import opened Bits
  import opened Bytes
  import opened GfPoly
  import opened GfInverse
  import opened Curve
  import opened Scalar

  const KEY_BYTES: nat := 24
  const PUBKEY_BYTES: nat := 48

  const FIELD_POLY: nat := 0x8_0000000000_0000000000_0000000000_00000000C9
  const LANLINK: Domain := Domain(
                             Curve(FIELD_POLY, 1, 0x020A601907B8C953CA1481EB10512F78744A3205FD),
                             Affine(0x03F0EBA16286A2D57EA0991168D4994637E8343E36,
                                    0x00D51FBC6C71A0094FA2CDD545B11C5C0C797324F1),
                             0x040000000000000000000292FE77E70C12A4234C33)

  /** A curve, its generator and the order of the generator. */
  datatype Domain = Domain(curve: Curve, g: Point, order: nat)

  /** The mathematical facts about the captured constants that the source relies on. */
  ghost predicate Sound(d: Domain) {
    && IsGroup(d.curve)
    && OnCurve(d.g, d.curve) && d.g != Infinity
    && Prime(d.order) && Times(d.order, d.g, d.curve) == Infinity
    && BitLen(d.curve.poly) <= 193
  }

  datatype KeyError = BadLength | Overflow | PrivateKeyGivesInfinity | NotOnCurve | NotInSubgroup | SharedIsInfinity

  // ---------------------------------------------------------------- serialisation

  /** `field_to_bytes`; Python's `to_bytes` refuses a value that does not fit. */
  function FieldToBytes(value: nat): Result<seq<byte>, KeyError> {
    if value < Pow256(KEY_BYTES) then Ok(ToLe(value, KEY_BYTES)) else Err(Overflow)
  }

  function BytesToField(data: seq<byte>): Result<nat, KeyError> {
    if |data| != KEY_BYTES then Err(BadLength) else Ok(FromLe(data))
  }

  function PubkeyToBytes(x: nat, y: nat): Result<seq<byte>, KeyError> {
    match (FieldToBytes(x), FieldToBytes(y))
    case (Ok(xs), Ok(ys)) => Ok(xs + ys)
    case _ => Err(Overflow)
  }

  function BytesToPubkey(data: seq<byte>): Result<Point, KeyError> {
    if |data| != PUBKEY_BYTES then Err(BadLength)
    else Ok(Affine(FromLe(data[..KEY_BYTES]), FromLe(data[KEY_BYTES..])))
  }

  /** A key of the right length is the bytes of the number it holds, and back. */
  lemma FieldRoundTrip(value: nat, data: seq<byte>)
    ensures FieldToBytes(value).Ok? ==> BytesToField(FieldToBytes(value).value) == Ok(value)
    ensures BytesToField(data).Ok? ==> FieldToBytes(BytesToField(data).value) == Ok(data)
  {
    LeRoundTrip(value, KEY_BYTES);
    LeInverse(data);
  }

  lemma PubkeyRoundTrip(x: nat, y: nat)
    requires PubkeyToBytes(x, y).Ok?
    ensures BytesToPubkey(PubkeyToBytes(x, y).value) == Ok(Affine(x, y))
  {
    LeRoundTrip(x, KEY_BYTES);
    LeRoundTrip(y, KEY_BYTES);
    var s := PubkeyToBytes(x, y).value;
    assert s[..KEY_BYTES] == ToLe(x, KEY_BYTES) && s[KEY_BYTES..] == ToLe(y, KEY_BYTES);
  }

  /** The loop of `fieldToBytes` in src/protocol/ecc.js for keys of any length: the low bytes of any
      number, lowest first. */
  method FieldToBytesLoop(value: nat, keyBytes: nat) returns (out: array<byte>)
    ensures fresh(out) && out[..] == ToLe(value, keyBytes)
  {
    out := new byte[keyBytes];
    var rest := value;
    var i := 0;
    while i < keyBytes
      invariant 0 <= i <= keyBytes
      invariant out[..i] + ToLe(rest, keyBytes - i) == ToLe(value, keyBytes)
    {
      ghost var before := out[..i];
      out[i] := Byte(rest % 256);
      assert out[..i + 1] == before + [Byte(rest % 256)];
      rest := rest / 256;
      i := i + 1;
    }
    assert out[..i] == out[..];
  }

  /** `bytesToField` of src/protocol/ecc.js, from the last byte to the first. */
  method BytesToFieldLoop(data: seq<byte>) returns (r: Result<nat, KeyError>)
    ensures r == BytesToField(data)
  {
    if |data| != KEY_BYTES { return Err(BadLength); }
    var value: nat := 0;
    var i := |data|;
    while i > 0
      invariant 0 <= i <= |data| && value == FromLe(data[i..])
    {
      i := i - 1;
      assert data[i..][1..] == data[i + 1..];
      value := 256 * value + Val(data[i]);
    }
    assert data[0..] == data;
    r := Ok(value);
  }

  // ---------------------------------------------------------------- keys

  function PubkeyOf(p: Point): Result<seq<byte>, KeyError> {
    if p.Infinity? then Err(PrivateKeyGivesInfinity) else PubkeyToBytes(p.x, p.y)
  }

  /** The scalar a private key stands for. */
  function Exponent(priv: seq<byte>, d: Domain): (k: nat)
    requires d.order > 0
    ensures k < d.order
  {
    FromLe(priv) % d.order
  }

  function PublicPoint(priv: seq<byte>, d: Domain): (p: Point)
    requires Sound(d)
    ensures OnCurve(p, d.curve)
  {
    Times(Exponent(priv, d), d.g, d.curve)
  }

  /** What `ecdh_pubkey_from_privkey` answers: the bytes of priv*G. */
  function PublicKey(priv: seq<byte>, d: Domain): Result<seq<byte>, KeyError>
    requires Sound(d)
  {
    if |priv| != KEY_BYTES then Err(BadLength)
    else PubkeyOf(PublicPoint(priv, d))
  }

  /** Coordinates in the field; outside it the source's formulas mean nothing. */
  predicate PeerReduced(peerPub: seq<byte>, d: Domain) {
    BytesToPubkey(peerPub).Ok? ==> ReducedPoint(BytesToPubkey(peerPub).value, d.curve)
  }

  /** What `ecdh_shared_secret` answers: the x coordinate of priv*peer, once the peer's point has
      been found to lie on the curve and in the subgroup. */
  function SharedSecret(priv: seq<byte>, peerPub: seq<byte>, d: Domain): Result<seq<byte>, KeyError>
    requires Sound(d) && PeerReduced(peerPub, d)
  {
    if |priv| != KEY_BYTES || |peerPub| != PUBKEY_BYTES then Err(BadLength)
    else
      var peer := BytesToPubkey(peerPub).value;
      if !OnCurve(peer, d.curve) then Err(NotOnCurve)
      else if Times(d.order, peer, d.curve) != Infinity then Err(NotInSubgroup)
      else
        match Times(Exponent(priv, d), peer, d.curve)
        case Infinity => Err(SharedIsInfinity)
        case Affine(x, _) => FieldToBytes(x)
  }

  method PublicKeyFromPrivate(priv: seq<byte>, d: Domain) returns (r: Result<seq<byte>, KeyError>)
    requires Sound(d)
    ensures r == PublicKey(priv, d)
  {
    var k := BytesToFieldLoop(priv);
    if k.Err? { return Err(k.error); }
    var point := ScalarMult(k.value, d.g, d.curve, d.order);
    r := PubkeyOf(point);
  }

  method ComputeSharedSecret(priv: seq<byte>, peerPub: seq<byte>, d: Domain)
    returns (r: Result<seq<byte>, KeyError>)
    requires Sound(d) && PeerReduced(peerPub, d)
    ensures r == SharedSecret(priv, peerPub, d)
  {
    var k := BytesToFieldLoop(priv);
    if k.Err? { return Err(k.error); }
    var peer := BytesToPubkey(peerPub);
    if peer.Err? { return Err(peer.error); }
    if !OnCurve(peer.value, d.curve) { return Err(NotOnCurve); }
    var member := IsInPrimeSubgroup(peer.value, d.curve, d.order);
    if !member { return Err(NotInSubgroup); }
    var shared := ScalarMult(k.value, peer.value, d.curve, d.order);
    match shared {
      case Infinity => r := Err(SharedIsInfinity);
      case Affine(x, _) => r := FieldToBytes(x);
    }
  }

  // ---------------------------------------------------------------- agreement

  lemma {:induction false} ShlPow256(n: nat)
    ensures Shl(1, 8 * n) == Pow256(n)
  {
    if n > 0 {
      ShlPow256(n - 1);
      assert Shl(1, 8 * n) == 2 * Shl(1, 8 * n - 1) == 4 * Shl(1, 8 * n - 2) == 8 * Shl(1, 8 * n - 3);
      assert Shl(1, 8 * n - 3) == 2 * Shl(1, 8 * n - 4) == 4 * Shl(1, 8 * n - 5) == 8 * Shl(1, 8 * n - 6);
      assert Shl(1, 8 * n - 6) == 2 * Shl(1, 8 * n - 7) == 4 * Shl(1, 8 * (n - 1));
    }
  }

  lemma ReducedFits(x: nat, d: Domain)
    requires Sound(d) && Reduced(x, d.curve)
    ensures FieldToBytes(x) == Ok(ToLe(x, KEY_BYTES))
  {
    LenBound(x, 192);
    ShlPow256(24);
  }

  lemma PubkeyOfPoint(q: Point, d: Domain)
    requires Sound(d) && OnCurve(q, d.curve) && q.Affine?
    ensures PubkeyOf(q).Ok? && BytesToPubkey(PubkeyOf(q).value) == Ok(q)
  {
    ReducedFits(q.x, d);
    ReducedFits(q.y, d);
    PubkeyRoundTrip(q.x, q.y);
  }

  lemma MultipleInSubgroup(k: nat, d: Domain)
    requires Sound(d)
    ensures Times(d.order, Times(k, d.g, d.curve), d.curve) == Infinity
  {
    hide Times, OnCurve;
    TimesTimes(d.order, k, d.g, d.curve);
    TimesTimes(k, d.order, d.g, d.curve);
    TimesInfinity(k, d.curve);
    assert d.order * k == k * d.order;
  }

  /** A private key yields a public key exactly when it is not a multiple of the order, and then the
      public key decodes to that multiple of G and passes every check made on a peer's point. */
  lemma PublicKeyIsValid(priv: seq<byte>, d: Domain)
    requires Sound(d) && |priv| == KEY_BYTES
    ensures PublicKey(priv, d).Ok? <==> Exponent(priv, d) != 0
    ensures PublicKey(priv, d).Ok? ==>
              && BytesToPubkey(PublicKey(priv, d).value) == Ok(PublicPoint(priv, d))
              && |PublicKey(priv, d).value| == PUBKEY_BYTES
              && Times(d.order, PublicPoint(priv, d), d.curve) == Infinity
  {
    hide Times, OnCurve, ToLe, FromLe, Exponent, IsGroup;
    var k := Exponent(priv, d);
    PrimeOrder(k, d.order, d.g, d.curve);
    SmallMod(k, d.order);
    MultipleInSubgroup(k, d);
    if k != 0 {
      PubkeyOfPoint(PublicPoint(priv, d), d);
    }
  }

  /** The public key as numbers: both coordinates of priv*G, with the key as an unreduced number. */
  lemma PublicKeyCoordinates(priv: seq<byte>, d: Domain)
    requires Sound(d)
    ensures PublicKey(priv, d) == Err(BadLength) <==> |priv| != 24
    ensures PublicKey(priv, d) == Err(PrivateKeyGivesInfinity) <==> |priv| == 24 && FromLe(priv) % d.order == 0
    ensures |priv| == 24 && FromLe(priv) % d.order != 0 ==>
              && PublicKey(priv, d).Ok?
              && var s := PublicKey(priv, d).value;
              |s| == 48 && Affine(FromLe(s[..24]), FromLe(s[24..])) == Times(FromLe(priv), d.g, d.curve)
  {
    hide Times, OnCurve, ToLe, FromLe;
    var k := Exponent(priv, d);
    TimesMod(FromLe(priv), d.order, d.g, d.curve);
    PrimeOrder(k, d.order, d.g, d.curve);
    SmallMod(k, d.order);
    if |priv| == KEY_BYTES {
      PublicKeyIsValid(priv, d);
    }
  }

  /** When the shared secret is refused, and with which error: the checks in their order. */
  lemma SecretErrors(priv: seq<byte>, peerPub: seq<byte>, d: Domain)
    requires Sound(d) && PeerReduced(peerPub, d)
    ensures SharedSecret(priv, peerPub, d) == Err(BadLength) <==> |priv| != 24 || |peerPub| != 48
    ensures |priv| == 24 && |peerPub| == 48 ==>
              var peer := Affine(FromLe(peerPub[..24]), FromLe(peerPub[24..]));
              var r := SharedSecret(priv, peerPub, d);
              && (r == Err(NotOnCurve) <==> !OnCurve(peer, d.curve))
              && (r == Err(NotInSubgroup) <==>
                  OnCurve(peer, d.curve) && Times(d.order, peer, d.curve) != Infinity)
              && (r == Err(SharedIsInfinity) <==>
                  && OnCurve(peer, d.curve) && Times(d.order, peer, d.curve) == Infinity
                  && FromLe(priv) % d.order == 0)
              && (r.Ok? <==>
                  && OnCurve(peer, d.curve) && Times(d.order, peer, d.curve) == Infinity
                  && FromLe(priv) % d.order != 0)
  {
    hide Times, OnCurve, ToLe, FromLe;
    if |priv| == 24 && |peerPub| == 48 {
      var peer := Affine(FromLe(peerPub[..24]), FromLe(peerPub[24..]));
      if OnCurve(peer, d.curve) && Times(d.order, peer, d.curve) == Infinity {
        var k := Exponent(priv, d);
        PrimeOrder(k, d.order, peer, d.curve);
        SmallMod(k, d.order);
        if k != 0 {
          var shared := Times(k, peer, d.curve);
          PointReduced(shared, d);
          ReducedFits(shared.x, d);
        }
      }
    }
  }

  lemma LeOf(x: nat)
    requires FieldToBytes(x).Ok?
    ensures FromLe(FieldToBytes(x).value) == x
  {
    LeRoundTrip(x, KEY_BYTES);
  }

  /** What the bytes of an accepted exchange spell: the x coordinate of priv*peer, where priv is the
      number in the private key and need not be reduced. */
  lemma SecretIsX(priv: seq<byte>, peerPub: seq<byte>, d: Domain)
    requires Sound(d) && PeerReduced(peerPub, d) && SharedSecret(priv, peerPub, d).Ok?
    ensures |priv| == 24 && |peerPub| == 48 && |SharedSecret(priv, peerPub, d).value| == 24
    ensures var peer := Affine(FromLe(peerPub[..24]), FromLe(peerPub[24..]));
            && OnCurve(peer, d.curve) && Times(FromLe(priv), peer, d.curve).Affine?
            && FromLe(SharedSecret(priv, peerPub, d).value) == Times(FromLe(priv), peer, d.curve).x
  {
    hide Times, OnCurve, ToLe, FromLe;
    SecretErrors(priv, peerPub, d);
    var peer := Affine(FromLe(peerPub[..24]), FromLe(peerPub[24..]));
    TimesMod(FromLe(priv), d.order, peer, d.curve);
    var shared := Times(Exponent(priv, d), peer, d.curve);
    PointReduced(shared, d);
    ReducedFits(shared.x, d);
    LeOf(shared.x);
  }

  lemma SameMultiple(i: nat, j: nat, d: Domain)
    requires Sound(d) && 0 < i < d.order && 0 < j < d.order
    ensures Times(i, Times(j, d.g, d.curve), d.curve) == Times(j, Times(i, d.g, d.curve), d.curve)
    ensures Times(i, Times(j, d.g, d.curve), d.curve).Affine?
  {
    hide Times, OnCurve;
    TimesTimes(i, j, d.g, d.curve);
    TimesTimes(j, i, d.g, d.curve);
    assert i * j == j * i;
    ProductNotKilled(i, j, d);
  }

  lemma ProductNotKilled(i: nat, j: nat, d: Domain)
    requires Sound(d) && 0 < i < d.order && 0 < j < d.order
    ensures Times(i, Times(j, d.g, d.curve), d.curve) != Infinity
  {
    hide Times, OnCurve;
    var q := Times(j, d.g, d.curve);
    SmallMod(j, d.order);
    SmallMod(i, d.order);
    assert q != Infinity by { PrimeOrder(j, d.order, d.g, d.curve); }
    assert Times(d.order, q, d.curve) == Infinity by { MultipleInSubgroup(j, d); }
    PrimeOrder(i, d.order, q, d.curve);
  }

  lemma SmallMod(i: nat, n: nat)
    requires i < n
    ensures i % n == i
  {
  }

  /** Whenever both private keys have public keys, each end accepts the other's, and the two
      secrets are the same 24 bytes. */
  lemma KeyAgreement(a: seq<byte>, b: seq<byte>, d: Domain)
    requires Sound(d) && |a| == KEY_BYTES && |b| == KEY_BYTES
    requires PublicKey(a, d).Ok? && PublicKey(b, d).Ok?
    ensures PeerReduced(PublicKey(a, d).value, d) && PeerReduced(PublicKey(b, d).value, d)
    ensures SharedSecret(a, PublicKey(b, d).value, d) == SharedSecret(b, PublicKey(a, d).value, d)
    ensures SharedSecret(a, PublicKey(b, d).value, d).Ok?
    ensures |SharedSecret(a, PublicKey(b, d).value, d).value| == KEY_BYTES
  {
    hide Times, ToLe, FromLe, Exponent, PublicKey, BytesToPubkey, OnCurve;
    PublicKeyIsValid(a, d);
    PublicKeyIsValid(b, d);
    PointReduced(PublicPoint(a, d), d);
    PointReduced(PublicPoint(b, d), d);
    var i, j := Exponent(a, d), Exponent(b, d);
    SameMultiple(i, j, d);
    var shared := Times(i, PublicPoint(b, d), d.curve);
    PointReduced(shared, d);
    ReducedFits(shared.x, d);
  }

  lemma PointReduced(p: Point, d: Domain)
    requires Sound(d) && OnCurve(p, d.curve)
    ensures ReducedPoint(p, d.curve)
  {
  }

  /** The captured constants are of the size the byte layout needs. */
  lemma LanlinkSizes()
    ensures BitLen(LANLINK.curve.poly) == 164
    ensures Reduced(LANLINK.curve.a, LANLINK.curve) && Reduced(LANLINK.curve.b, LANLINK.curve)
    ensures ReducedPoint(LANLINK.g, LANLINK.curve)
  {
    PowersOfTwo();
    LenBound(FIELD_POLY, 163);
    LenBound(FIELD_POLY, 164);
    LenBound(LANLINK.curve.a, 163);
    LenBound(LANLINK.curve.b, 163);
    LenBound(LANLINK.g.x, 163);
    LenBound(LANLINK.g.y, 163);
  }

  lemma PowersOfTwo()
    ensures Shl(1, 163) == FIELD_POLY - 0xC9 && Shl(1, 164) == 2 * (FIELD_POLY - 0xC9)
  {
    ShlPow256(20);
    assert Pow256(2) == 0x1_0000;
    assert Pow256(4) == 0x1_00000000;
    Pow256Sum(4, 4);
    Pow256Sum(8, 8);
    Pow256Sum(16, 4);
    assert Shl(1, 160) == Pow256(20) == 0x1_0000000000_0000000000_0000000000_0000000000;
    assert Shl(1, 163) == 2 * Shl(1, 162) == 4 * Shl(1, 161) == 8 * Shl(1, 160);
  }
}
