/** The device-key derivation of hub/crypto.py and src/protocol/crypto.js: six passes over byte
    buffers rewritten in place. Everything after the fold to six bytes is injective, so the fold
    alone decides which identifiers share a key. */
module DeviceKey {
  import opened Bytes
  import opened Crc

  // ---------------------------------------------------------------- the passes, step by step

  function Blend(x: byte, y: byte, z: byte): byte {
    (x ^ y) + z
  }

  /** The two operations on bytes; the addition is modulo 256. */
  lemma Operations(x: byte, y: byte, z: byte)
    ensures Blend(x, y, z) == z + (x ^ y) && Xor8(x, y) == x ^ y
  {
  }

  function Pass1(original: seq<byte>, buf: seq<byte>, i: nat): (r: seq<byte>)
    requires |buf| == |original|
    ensures |r| == |buf|
    decreases |buf| - i
  {
    var n := |buf|;
    if i + 1 >= n then buf
    else Pass1(original, buf[i := Blend(original[i], original[i + 1], buf[n - 1 - i])], i + 1)
  }

  function Pass2(buf: seq<byte>, i: nat): (r: seq<byte>)
    ensures |r| == |buf|
    decreases |buf| / 2 - i
  {
    var n, half := |buf|, |buf| / 2;
    if i >= half then buf
    else Pass2(buf[n - 1 - i := Xor8(buf[i], buf[i + half - 1])], i + 1)
  }

  function Pass3(buf: seq<byte>, key6: seq<byte>, i: nat): (r: seq<byte>)
    requires |key6| == 6
    ensures |r| == 6
    decreases |buf| - i
  {
    if i >= |buf| then key6
    else Pass3(buf, key6[i % 6 := Xor8(key6[i % 6], buf[|buf| - 1 - i])], i + 1)
  }

  function Pass4(key6: seq<byte>, i: nat): (r: seq<byte>)
    requires |key6| == 6
    ensures |r| == 6
    decreases 6 - i
  {
    if i >= 6 then key6
    else Pass4(key6[i := Blend(key6[5 - i], key6[(i + 3) % 6], key6[i])], i + 1)
  }

  /** The six bytes with their checksum, low byte first. */
  function Seed(key6: seq<byte>): (r: seq<byte>)
    requires |key6| == 6
    ensures |r| == 8
  {
    var crc := Crc16(key6);
    key6 + [(crc & 0xFF) as byte, (crc >> 8) as byte]
  }

  function Pass5(seed: seq<byte>, anchor: byte, i: nat): (r: seq<byte>)
    requires |seed| == 16
    ensures |r| == 16
    decreases 8 - i
  {
    if i >= 8 then seed else Pass5(seed[15 - i := Xor8(seed[i], anchor)], anchor, i + 1)
  }

  function Pass6(seed: seq<byte>, i: nat): (r: seq<byte>)
    requires |seed| == 16
    ensures |r| == 16
    decreases 16 - i
  {
    if i >= 16 then seed
    else Pass6(seed[i := Xor8(seed[i], seed[if i == 15 then 0 else i + 1])], i + 1)
  }

  function Zeros(n: nat): (r: seq<byte>)
    ensures |r| == n
  {
    seq(n, _ => 0)
  }

  /** The six bytes an identifier is folded to. */
  function Fold(id: seq<byte>): (r: seq<byte>)
    ensures |r| == 6
  {
    Pass3(Pass2(Pass1(id, id, 0), 0), Zeros(6), 0)
  }

  function KeyOfFold(fold: seq<byte>): (key: seq<byte>)
    requires |fold| == 6
    ensures |key| == 16
  {
    var eight := Seed(Pass4(fold, 0));
    Pass6(Pass5(eight + Zeros(8), eight[7], 0), 0)
  }

  function Key(id: seq<byte>): (key: seq<byte>)
    ensures |key| == 16
  {
    KeyOfFold(Fold(id))
  }

  // ---------------------------------------------------------------- the source's routine, pass by pass

  method RunPass1(original: seq<byte>, buf: array<byte>)
    requires buf.Length == |original|
    modifies buf
    ensures buf[..] == Pass1(original, old(buf[..]), 0)
  {
    hide Blend;
    var i := 0;
    while i < buf.Length - 1
      invariant 0 <= i && Pass1(original, buf[..], i) == Pass1(original, old(buf[..]), 0)
    {
      ghost var before := buf[..];
      buf[i] := Blend(original[i], original[i + 1], buf[buf.Length - 1 - i]);
      assert buf[..] == before[i := buf[i]];
      i := i + 1;
    }
  }

  method RunPass2(buf: array<byte>)
    modifies buf
    ensures buf[..] == Pass2(old(buf[..]), 0)
  {
    hide Xor8;
    var half := buf.Length / 2;
    var i := 0;
    while i < half
      invariant 0 <= i <= half && Pass2(buf[..], i) == Pass2(old(buf[..]), 0)
    {
      ghost var before := buf[..];
      var at := buf.Length - 1 - i;
      buf[at] := Xor8(buf[i], buf[i + half - 1]);
      assert buf[..] == before[at := buf[at]];
      i := i + 1;
    }
  }

  method RunPass3(buf: array<byte>, key6: array<byte>)
    requires buf != key6 && key6.Length == 6
    modifies key6
    ensures key6[..] == Pass3(buf[..], old(key6[..]), 0)
  {
    hide Xor8;
    var i := 0;
    while i < buf.Length
      invariant 0 <= i <= buf.Length && buf[..] == old(buf[..])
      invariant Pass3(buf[..], key6[..], i) == Pass3(buf[..], old(key6[..]), 0)
    {
      ghost var before := key6[..];
      var at := i % 6;
      key6[at] := Xor8(key6[at], buf[buf.Length - 1 - i]);
      assert key6[..] == before[at := key6[at]];
      i := i + 1;
    }
  }

  method RunPass4(key6: array<byte>)
    requires key6.Length == 6
    modifies key6
    ensures key6[..] == Pass4(old(key6[..]), 0)
  {
    hide Blend;
    var i := 0;
    while i < 6
      invariant 0 <= i <= 6 && Pass4(key6[..], i) == Pass4(old(key6[..]), 0)
    {
      ghost var before := key6[..];
      key6[i] := Blend(key6[5 - i], key6[(i + 3) % 6], key6[i]);
      assert key6[..] == before[i := key6[i]];
      i := i + 1;
    }
  }

  method RunPass5(seed: array<byte>, anchor: byte)
    requires seed.Length == 16
    modifies seed
    ensures seed[..] == Pass5(old(seed[..]), anchor, 0)
  {
    hide Xor8;
    var i := 0;
    while i < 8
      invariant 0 <= i <= 8 && Pass5(seed[..], anchor, i) == Pass5(old(seed[..]), anchor, 0)
    {
      ghost var before := seed[..];
      seed[15 - i] := Xor8(seed[i], anchor);
      assert seed[..] == before[15 - i := seed[15 - i]];
      i := i + 1;
    }
  }

  lemma Pass6Step(seed: seq<byte>, i: nat)
    requires |seed| == 16
    ensures i < 16 ==>
              Pass6(seed, i) == Pass6(seed[i := Xor8(seed[i], seed[if i == 15 then 0 else i + 1])], i + 1)
    ensures i >= 16 ==> Pass6(seed, i) == seed
  {
    hide Xor8;
  }

  method RunPass6(seed: array<byte>)
    requires seed.Length == 16
    modifies seed
    ensures seed[..] == Pass6(old(seed[..]), 0)
  {
    hide Xor8, Pass6;
    var i := 0;
    while i < 16
      invariant 0 <= i <= 16 && Pass6(seed[..], i) == Pass6(old(seed[..]), 0)
    {
      ghost var before := seed[..];
      Pass6Step(before, i);
      var next := if i == 15 then 0 else i + 1;
      seed[i] := Xor8(seed[i], seed[next]);
      assert seed[..] == before[i := seed[i]];
      i := i + 1;
    }
    Pass6Step(seed[..], 16);
  }

  /** The 16-byte buffer with the six bytes and their checksum in front. */
  method PlaceSeed(key6: seq<byte>) returns (seed: array<byte>)
    requires |key6| == 6
    ensures fresh(seed) && seed[..] == Seed(key6) + Zeros(8)
  {
    hide Crc16;
    var crc := Crc16Ccitt(key6);
    seed := new byte[16](_ => 0);
    assert seed[8..] == Zeros(8);
    forall i | 0 <= i < 6 {
      seed[i] := key6[i];
    }
    seed[6] := (crc & 0xFF) as byte;
    seed[7] := (crc >> 8) as byte;
    assert seed[..6] == key6;
    assert seed[..8] == Seed(key6);
    assert seed[8..] == Zeros(8);
    assert seed[..] == seed[..8] + seed[8..];
  }

  /** `derive_device_key` on the bytes of the identifier. */
  method DeriveDeviceKey(original: seq<byte>) returns (seed: array<byte>)
    ensures fresh(seed) && seed[..] == Key(original)
  {
    hide Crc16, Pass1, Pass2, Pass3, Pass4, Pass5, Pass6;
    var buf := new byte[|original|](i requires 0 <= i < |original| => original[i]);
    assert buf[..] == original;
    RunPass1(original, buf);
    RunPass2(buf);
    var key6 := new byte[6](_ => 0);
    assert key6[..] == Zeros(6);
    RunPass3(buf, key6);
    RunPass4(key6);
    seed := PlaceSeed(key6[..]);
    assert seed[7] == Seed(key6[..])[7];
    RunPass5(seed, seed[7]);
    RunPass6(seed);
  }

  // ---------------------------------------------------------------- what the in-place passes compute

  function Pass1Byte(original: seq<byte>, result: seq<byte>, k: nat): byte
    requires |result| == |original| && k + 1 < |original|
  {
    var mirror := |original| - 1 - k;
    Blend(original[k], original[k + 1], if mirror < k then result[mirror] else original[mirror])
  }

  /** Positions below i are final, the others untouched. */
  predicate Pass1Done(original: seq<byte>, buf: seq<byte>, i: nat)
    requires |buf| == |original|
  {
    && (forall k: nat | i <= k < |buf| :: buf[k] == original[k])
    && (forall k: nat | k < i && k + 1 < |buf| :: buf[k] == Pass1Byte(original, buf, k))
  }

  /** Pass 1, position by position: the second half reads bytes the first half has already changed,
      and the last byte stays. */
  lemma {:induction false} Pass1At(original: seq<byte>, buf: seq<byte>, i: nat)
    requires |buf| == |original| && Pass1Done(original, buf, i) && (i > 0 ==> i + 1 <= |buf|)
    ensures var r := Pass1(original, buf, i); |r| > 0 ==> Pass1Done(original, r, |r| - 1)
    decreases |buf| - i
  {
    hide Pass1Byte, Blend;
    var n := |buf|;
    if i + 1 < n {
      var next := buf[i := Blend(original[i], original[i + 1], buf[n - 1 - i])];
      Pass1Next(original, buf, i);
      Pass1At(original, next, i + 1);
    }
  }

  lemma Pass1Next(original: seq<byte>, buf: seq<byte>, i: nat)
    requires |buf| == |original| && Pass1Done(original, buf, i) && i + 1 < |buf|
    ensures Pass1Done(original, buf[i := Blend(original[i], original[i + 1], buf[|buf| - 1 - i])], i + 1)
  {
  }

  /** What pass 2 leaves at the mirror of position i, given the whole result. */
  predicate Pass2Done(before: seq<byte>, buf: seq<byte>, i: nat)
    requires |before| == |buf| && i <= |buf| / 2
  {
    var n, half := |buf|, |buf| / 2;
    && (forall k: nat | k < n - i :: buf[k] == before[k])
    && (forall k: nat | n - i <= k < n ::
          buf[k] == Xor8(before[n - 1 - k], Pass2Operand(before, buf, n - 1 - k)))
  }

  function Pass2Operand(before: seq<byte>, result: seq<byte>, k: nat): byte
    requires |before| == |result| && k < |before| / 2
  {
    var n, at := |before|, k + |before| / 2 - 1;
    if at > n - 1 - k then result[at] else before[at]
  }

  /** Pass 2 rewrites the tail only; once the operand has moved past the mirror position, it reads
      what the pass itself has written. */
  lemma {:induction false} Pass2At(before: seq<byte>, buf: seq<byte>, i: nat)
    requires |before| == |buf| && i <= |buf| / 2 && Pass2Done(before, buf, i)
    ensures Pass2Done(before, Pass2(buf, i), |buf| / 2)
    decreases |buf| / 2 - i
  {
    hide Xor8, Pass2Done;
    if i < |buf| / 2 {
      Pass2Next(before, buf, i);
      Pass2At(before, buf[|buf| - 1 - i := Xor8(buf[i], buf[i + |buf| / 2 - 1])], i + 1);
    }
  }

  lemma OperandKept(before: seq<byte>, buf: seq<byte>, v: byte, i: nat, k: nat)
    requires |before| == |buf| && k <= i < |buf| / 2
    ensures Pass2Operand(before, buf[|buf| - 1 - i := v], k) == Pass2Operand(before, buf, k)
  {
  }

  lemma OperandRead(before: seq<byte>, buf: seq<byte>, i: nat)
    requires |before| == |buf| && i < |buf| / 2 && Pass2Done(before, buf, i)
    ensures buf[i] == before[i] && buf[i + |buf| / 2 - 1] == Pass2Operand(before, buf, i)
  {
    hide Xor8;
  }

  lemma Pass2Next(before: seq<byte>, buf: seq<byte>, i: nat)
    requires |before| == |buf| && i < |buf| / 2 && Pass2Done(before, buf, i)
    ensures Pass2Done(before, buf[|buf| - 1 - i := Xor8(buf[i], buf[i + |buf| / 2 - 1])], i + 1)
  {
    hide Xor8, Pass2Operand;
    var n, v := |buf|, Xor8(buf[i], buf[i + |buf| / 2 - 1]);
    var next := buf[n - 1 - i := v];
    OperandRead(before, buf, i);
    forall k: nat | n - 1 - i <= k < n
      ensures next[k] == Xor8(before[n - 1 - k], Pass2Operand(before, next, n - 1 - k))
    {
      OperandKept(before, buf, v, i, n - 1 - k);
      if k > n - 1 - i {
        assert buf[k] == Xor8(before[n - 1 - k], Pass2Operand(before, buf, n - 1 - k));
      }
    }
  }

  /** The exclusive-or of the bytes at distance r, r+6, ... from the end, among the last i. */
  function Residue(buf: seq<byte>, r: nat, i: nat): byte
    requires i <= |buf|
    decreases i
  {
    if i == 0 then 0
    else if (i - 1) % 6 == r then Xor8(Residue(buf, r, i - 1), buf[|buf| - i])
    else Residue(buf, r, i - 1)
  }

  /** Pass 3 gathers the bytes by their distance from the end, modulo six. */
  lemma {:induction false} Pass3At(buf: seq<byte>, key6: seq<byte>, i: nat)
    requires |key6| == 6 && i <= |buf|
    requires forall r: nat | r < 6 :: key6[r] == Residue(buf, r, i)
    ensures forall r: nat | r < 6 :: Pass3(buf, key6, i)[r] == Residue(buf, r, |buf|)
    decreases |buf| - i
  {
    hide Xor8;
    if i < |buf| {
      Pass3At(buf, key6[i % 6 := Xor8(key6[i % 6], buf[|buf| - 1 - i])], i + 1);
    }
  }

  /** The byte that pass 1 leaves at position k, in the bytes of the identifier: past the middle the
      mirrored byte has been rewritten, before it not yet; the last byte stays. */
  function First(id: seq<byte>, k: nat): byte
    requires k < |id|
    decreases k
  {
    var mirror := |id| - 1 - k;
    if mirror == 0 then id[k]
    else Blend(id[k], id[k + 1], if mirror < k then First(id, mirror) else id[mirror])
  }

  /** The byte that pass 2 leaves at position k. */
  function Second(id: seq<byte>, k: nat): byte
    requires k < |id|
    decreases |id| - k
  {
    var n, half := |id|, |id| / 2;
    if k < n - half then First(id, k)
    else
      var i, at := n - 1 - k, n - 1 - k + half - 1;
      Xor8(First(id, i), if at > k then Second(id, at) else First(id, at))
  }

  function Mixed(id: seq<byte>): (r: seq<byte>)
    ensures |r| == |id| && forall k: nat | k < |id| :: r[k] == Second(id, k)
  {
    seq(|id|, k requires 0 <= k < |id| => Second(id, k))
  }

  lemma Pass1Is(id: seq<byte>, k: nat)
    requires k < |id|
    ensures Pass1(id, id, 0)[k] == First(id, k)
  {
    hide Blend, Pass1;
    Pass1At(id, id, 0);
    var r := Pass1(id, id, 0);
    var mirror := |id| - 1 - k;
    assert k + 1 < |id| ==> r[k] == Pass1Byte(id, r, k);
    if 0 < mirror < k {
      assert r[mirror] == Pass1Byte(id, r, mirror);
    }
  }

  lemma {:induction false} Pass2Is(id: seq<byte>, k: nat)
    requires k < |id|
    ensures Pass2(Pass1(id, id, 0), 0)[k] == Second(id, k)
    decreases |id| - k
  {
    hide Xor8, First, Pass1, Pass2;
    var before := Pass1(id, id, 0);
    var n, half := |id|, |id| / 2;
    Pass2At(before, before, 0);
    var r := Pass2(before, 0);
    Pass1Is(id, k);
    if k >= n - half {
      var i, at := n - 1 - k, n - 1 - k + half - 1;
      assert r[k] == Xor8(before[n - 1 - k], Pass2Operand(before, r, n - 1 - k));
      Pass1Is(id, i);
      Pass1Is(id, at);
      if at > k { Pass2Is(id, at); }
    }
  }

  /** The fold of an identifier, in the bytes of the identifier. */
  lemma FoldIs(id: seq<byte>)
    ensures forall r: nat | r < 6 :: Fold(id)[r] == Residue(Mixed(id), r, |id|)
  {
    hide Xor8, Pass1, Pass2, Second;
    var b := Pass2(Pass1(id, id, 0), 0);
    forall k: nat | k < |id| ensures b[k] == Mixed(id)[k] {
      Pass2Is(id, k);
    }
    assert b == Mixed(id);
    Pass3At(b, Zeros(6), 0);
  }

  // ---------------------------------------------------------------- after the fold

  /** An operand of step j of pass 4: already mixed if its index is below j. */
  function Operand4(k: seq<byte>, p: seq<byte>, j: nat, x: nat): byte
    requires |k| == 6 && |p| == 6 && x < 6
  {
    if x < j then p[x] else k[x]
  }

  predicate Mixed4(k: seq<byte>, p: seq<byte>, j: nat)
    requires |k| == 6 && |p| == 6 && j < 6
  {
    p[j] == Blend(Operand4(k, p, j, 5 - j), Operand4(k, p, j, (j + 3) % 6), k[j])
  }

  lemma {:induction false} Pass4At(k: seq<byte>, p: seq<byte>, i: nat)
    requires |k| == 6 && |p| == 6 && i <= 6
    requires (forall j: nat | j < i :: Mixed4(k, p, j)) && (forall j: nat | i <= j < 6 :: p[j] == k[j])
    ensures forall j: nat | j < 6 :: Mixed4(k, Pass4(p, i), j)
    decreases 6 - i
  {
    hide Blend;
    if i < 6 {
      var next := p[i := Blend(p[5 - i], p[(i + 3) % 6], p[i])];
      forall j: nat | j < i + 1 ensures Mixed4(k, next, j) {
        if j < i { assert Mixed4(k, p, j); }
      }
      Pass4At(k, next, i + 1);
    }
  }

  lemma Pass4Is(k: seq<byte>)
    requires |k| == 6
    ensures var p := Pass4(k, 0);
            && p[0] == Blend(k[5], k[3], k[0]) && p[1] == k[1] && p[2] == Blend(k[3], k[5], k[2])
            && p[3] == Blend(p[2], p[0], k[3]) && p[4] == k[4] && p[5] == Blend(p[0], p[2], k[5])
  {
    hide Blend, Pass4;
    Pass4At(k, k, 0);
    var p := Pass4(k, 0);
    assert Mixed4(k, p, 0) && Mixed4(k, p, 1) && Mixed4(k, p, 2);
    assert Mixed4(k, p, 3) && Mixed4(k, p, 4) && Mixed4(k, p, 5);
    BlendSame(k[4], k[1]);
    BlendSame(p[1], k[4]);
  }

  lemma BlendSame(x: byte, z: byte)
    ensures Blend(x, x, z) == z
  {
  }

  lemma BlendCancels(x: byte, y: byte, z: byte, z': byte)
    requires Blend(x, y, z) == Blend(x, y, z')
    ensures z == z'
  {
  }

  lemma Pass4Injective(k: seq<byte>, l: seq<byte>)
    requires |k| == 6 && |l| == 6 && Pass4(k, 0) == Pass4(l, 0)
    ensures k == l
  {
    hide Blend, Pass4;
    Pass4Is(k);
    Pass4Is(l);
    var m := Pass4(k, 0);
    BlendCancels(m[2], m[0], k[3], l[3]);
    BlendCancels(m[0], m[2], k[5], l[5]);
    BlendCancels(k[3], k[5], k[2], l[2]);
    BlendCancels(k[5], k[3], k[0], l[0]);
  }

  /** Pass 5 mirrors the first eight bytes, shifted by the anchor. */
  lemma {:induction false} Pass5At(seed: seq<byte>, anchor: byte, i: nat)
    requires |seed| == 16 && i <= 8
    ensures var r := Pass5(seed, anchor, i);
            && (forall k: nat | k < 16 - 8 :: r[k] == seed[k])
            && (forall k: nat {:trigger r[15 - k]} | i <= k < 8 :: r[15 - k] == Xor8(seed[k], anchor))
            && (forall k: nat {:trigger r[15 - k]} | k < i :: r[15 - k] == seed[15 - k])
    decreases 8 - i
  {
    hide Xor8;
    if i < 8 {
      Pass5At(seed[15 - i := Xor8(seed[i], anchor)], anchor, i + 1);
    }
  }

  /** Pass 6 chains neighbours; the last byte meets a first byte already changed. */
  lemma {:induction false} Pass6At(seed: seq<byte>, i: nat)
    requires |seed| == 16 && i <= 16
    ensures forall k: nat | k < i :: Pass6(seed, i)[k] == seed[k]
    ensures forall k: nat | i <= k < 15 :: Pass6(seed, i)[k] == Xor8(seed[k], seed[k + 1])
    ensures i <= 15 ==> Pass6(seed, i)[15] == Xor8(seed[15], Pass6(seed, i)[0])
    decreases 16 - i
  {
    hide Xor8;
    if i < 16 {
      var next := seed[i := Xor8(seed[i], seed[if i == 15 then 0 else i + 1])];
      Pass6At(next, i + 1);
      var r := Pass6(seed, i);
      forall k: nat | i <= k < 15 ensures r[k] == Xor8(seed[k], seed[k + 1]) {
        if k == i {
          assert r[i] == next[i];
        } else {
          assert next[k] == seed[k] && next[k + 1] == seed[k + 1];
        }
      }
      if i == 15 {
        assert r[15] == next[15] && r[0] == next[0];
      }
    }
  }

  /** The key in terms of the eight seed bytes s0..s7, whose last is the anchor. */
  lemma SeedChain(fold: seq<byte>)
    requires |fold| == 6
    ensures var s, key := Seed(Pass4(fold, 0)), KeyOfFold(fold);
            && (forall k: nat | k < 7 :: key[k] == Xor8(s[k], s[k + 1]))
            && key[7] == s[7]
            && (forall k: nat | 8 <= k < 15 :: key[k] == Xor8(s[14 - k], s[15 - k]))
            && key[15] == Xor8(s[1], s[7])
  {
    hide Seed, Pass4, Pass5, Pass6, Xor8;
    var s := Seed(Pass4(fold, 0));
    var start := s + Zeros(8);
    var five := Pass5(start, s[7], 0);
    var key := Pass6(five, 0);
    Pass5At(start, s[7], 0);
    Pass6At(five, 0);
    forall k: nat | k < 8 ensures five[k] == s[k] && five[15 - k] == Xor8(s[k], s[7]) {
      assert five[15 - k] == Xor8(start[k], s[7]);
    }
    assert five[8] == five[15 - 7];
    XorFacts(s[7], 0, 0);
    assert key == KeyOfFold(fold);
    forall k: nat | k < 7 ensures key[k] == Xor8(s[k], s[k + 1]) {
      assert five[k] == s[k] && five[k + 1] == s[k + 1];
    }
    forall k: nat | 8 <= k < 15 ensures key[k] == Xor8(s[14 - k], s[15 - k]) {
      assert five[15 - (14 - k)] == Xor8(s[14 - k], s[7]);
      assert five[15 - (15 - k)] == Xor8(s[15 - k], s[7]);
      assert key[k] == Xor8(five[k], five[k + 1]);
      XorFacts(s[7], s[14 - k], s[15 - k]);
    }
    assert five[15] == five[15 - 0];
    XorFacts(s[7], s[0], s[1]);
    assert key[7] == Xor8(five[7], five[8]);
    assert key[15] == Xor8(five[15], key[0]);
  }

  lemma XorFacts(a: byte, x: byte, y: byte)
    ensures Xor8(a, a) == 0 && Xor8(a, 0) == a
    ensures Xor8(Xor8(y, a), Xor8(x, a)) == Xor8(x, y)
    ensures Xor8(Xor8(x, a), Xor8(x, y)) == Xor8(y, a)
  {
  }

  lemma SeedFront(p: seq<byte>)
    requires |p| == 6
    ensures Seed(p)[..6] == p
  {
    hide Crc16;
  }

  lemma SeedEnd(p: seq<byte>)
    requires |p| == 6
    ensures Seed(p)[6] == (Crc16(p) & 0xFF) as byte && Seed(p)[7] == (Crc16(p) >> 8) as byte
  {
    hide Crc16;
  }

  lemma KeyChain(id: seq<byte>, low: byte, high: byte)
    requires var s := Seed(Pass4(Fold(id), 0)); s[6] == low && s[7] == high
    ensures var p, key := Pass4(Fold(id), 0), Key(id);
            && (forall k: nat | k < 5 :: key[k] == Xor8(p[k], p[k + 1]))
            && key[5] == Xor8(p[5], low) && key[6] == Xor8(low, high) && key[7] == high
            && key[8] == key[6] && key[9] == key[5]
            && (forall k: nat | 10 <= k < 15 :: key[k] == Xor8(p[14 - k], p[15 - k]))
            && key[15] == Xor8(p[1], high)
  {
    hide Fold, Pass4, KeyOfFold, Xor8, Seed;
    SeedChain(Fold(id));
    SeedFront(Pass4(Fold(id), 0));
    var p, s, key := Pass4(Fold(id), 0), Seed(Pass4(Fold(id), 0)), Key(id);
    FrontBytes(s, p);
    assert key[8] == Xor8(s[6], s[7]) && key[9] == Xor8(s[5], s[6]);
    forall k: nat | 10 <= k < 15 ensures key[k] == Xor8(p[14 - k], p[15 - k]) {
      assert key[k] == Xor8(s[14 - k], s[15 - k]);
    }
  }

  lemma FrontBytes(s: seq<byte>, p: seq<byte>)
    requires |s| == 8 && s[..6] == p
    ensures forall k: nat | k < 6 :: s[k] == p[k]
  {
  }

  /** The whole key, in the six mixed bytes and the two bytes of their checksum. */
  lemma KeyBytes(id: seq<byte>)
    ensures var p, key := Pass4(Fold(id), 0), Key(id);
            var low, high := (Crc16(p) & 0xFF) as byte, (Crc16(p) >> 8) as byte;
            && (forall k: nat | k < 5 :: key[k] == Xor8(p[k], p[k + 1]))
            && key[5] == Xor8(p[5], low) && key[6] == Xor8(low, high) && key[7] == high
            && key[8] == key[6] && key[9] == key[5]
            && (forall k: nat | 10 <= k < 15 :: key[k] == Xor8(p[14 - k], p[15 - k]))
            && key[15] == Xor8(p[1], high)
  {
    hide Fold, Crc16, Pass4, Key, Xor8, Seed;
    var p := Pass4(Fold(id), 0);
    SeedEnd(p);
    KeyChain(id, (Crc16(p) & 0xFF) as byte, (Crc16(p) >> 8) as byte);
  }

  /** The first fifteen bytes of every device key read the same in both directions. */
  lemma KeyIsPalindrome(id: seq<byte>, i: nat)
    requires i < 15
    ensures Key(id)[i] == Key(id)[14 - i]
  {
    hide Xor8, Seed, KeyOfFold, Pass4;
    SeedChain(Fold(id));
    var key := Key(id);
    var j := if i > 7 then 14 - i else i;
    if j < 7 {
      assert key[14 - j] == key[j];
    }
  }

  lemma ChainInjective(s: seq<byte>, t: seq<byte>, k: nat)
    requires |s| == 8 && |t| == 8 && s[7] == t[7] && k < 8
    requires forall j: nat | j < 7 :: Xor8(s[j], s[j + 1]) == Xor8(t[j], t[j + 1])
    ensures s[k] == t[k]
    decreases 8 - k
  {
    hide Xor8;
    if k < 7 {
      ChainInjective(s, t, k + 1);
      XorCancels(s[k], t[k], s[k + 1]);
    }
  }

  lemma XorCancels(x: byte, y: byte, z: byte)
    requires Xor8(x, z) == Xor8(y, z)
    ensures x == y
  {
  }

  lemma SameSeeds(s: seq<byte>, t: seq<byte>, key: seq<byte>)
    requires |s| == 8 && |t| == 8 && |key| == 16 && Chained(s, key) && Chained(t, key)
    ensures s == t
  {
    hide Xor8;
    forall k: nat | k < 8 ensures s[k] == t[k] {
      ChainInjective(s, t, k);
    }
  }

  predicate Chained(s: seq<byte>, key: seq<byte>)
    requires |s| == 8 && |key| == 16
  {
    key[7] == s[7] && forall j: nat | j < 7 :: key[j] == Xor8(s[j], s[j + 1])
  }

  lemma KeyIsChained(fold: seq<byte>)
    requires |fold| == 6
    ensures Chained(Seed(Pass4(fold, 0)), KeyOfFold(fold))
  {
    hide Xor8, KeyOfFold, Pass4, Seed;
    SeedChain(fold);
  }

  lemma KeyOfFoldInjective(f: seq<byte>, g: seq<byte>)
    requires |f| == 6 && |g| == 6 && KeyOfFold(f) == KeyOfFold(g)
    ensures f == g
  {
    hide Xor8, KeyOfFold, Pass4, Seed, Chained;
    KeyIsChained(f);
    KeyIsChained(g);
    SameSeeds(Seed(Pass4(f, 0)), Seed(Pass4(g, 0)), KeyOfFold(f));
    SeedFront(Pass4(f, 0));
    SeedFront(Pass4(g, 0));
    Pass4Injective(f, g);
  }

  /** Two identifiers have the same device key exactly when pass 3 folds them to the same six bytes. */
  lemma KeysMeetExactlyOnFolds(a: seq<byte>, b: seq<byte>)
    ensures Key(a) == Key(b) <==> Fold(a) == Fold(b)
  {
    hide KeyOfFold;
    if Key(a) == Key(b) {
      KeyOfFoldInjective(Fold(a), Fold(b));
    }
  }
}
