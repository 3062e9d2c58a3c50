/** The stream cipher of ptz/cs2.py: each keystream byte is chosen by four key bytes and the
    ciphertext byte before. */
module Cs2 {
  import opened Bytes
  import opened Cs2Table

  // ---------------------------------------------------------------- the four key bytes

  datatype Key4 = Key4(add: byte, sub: byte, weighted: byte, folded: byte) {
    function Select(i: nat): byte
      requires i < 4
    {
      if i == 0 then add else if i == 1 then sub else if i == 2 then weighted else folded
    }
  }

  /** The key up to its first NUL, and at most twenty bytes of it. */
  function Effective(key: seq<byte>, n: nat): (r: seq<byte>)
    ensures |r| <= n && r <= key && 0 !in r
    ensures |r| == n || |r| == |key| || key[|r|] == 0
  {
    if n == 0 || key == [] || key[0] == 0 then [] else [key[0]] + Effective(key[1..], n - 1)
  }

  function Total(raw: seq<byte>): nat {
    if raw == [] then 0 else Total(raw[..|raw| - 1]) + Val(raw[|raw| - 1])
  }

  function Weighted(raw: seq<byte>): nat {
    if raw == [] then 0 else Weighted(raw[..|raw| - 1]) + Val(raw[|raw| - 1]) * 0xAB / 512
  }

  function Folded(raw: seq<byte>): byte {
    if raw == [] then 0 else Xor8(Folded(raw[..|raw| - 1]), raw[|raw| - 1])
  }

  function KeyTable(key: seq<byte>): Key4 {
    var raw := Effective(key, 20);
    var total: int := Total(raw);
    Key4(Byte(total % 256), Byte(-total % 256), Byte(Weighted(raw) % 256), Folded(raw))
  }

  const WIDTH := 0x1_0000_0000

  /** The four accumulators of `_key4`, each 32 bits wide, after some bytes of the key. */
  predicate Accumulated(raw: seq<byte>, sum: int, neg: int, acc: int, x: byte) {
    && sum == Total(raw) % WIDTH && neg == -(Total(raw) as int) % WIDTH
    && acc == Weighted(raw) % WIDTH && x == Folded(raw)
  }

  lemma Accumulate(raw: seq<byte>, b: byte, sum: int, neg: int, acc: int, x: byte)
    requires Accumulated(raw, sum, neg, acc, x)
    ensures Accumulated(raw + [b], (sum + Val(b)) % WIDTH, (neg - Val(b)) % WIDTH,
                        (acc + Val(b) * 0xAB / 512) % WIDTH, Xor8(x, b))
  {
    hide Xor8, Val;
    assert (raw + [b])[..|raw|] == raw;
    ModAdd(Total(raw), Val(b), WIDTH);
    ModAdd(-(Total(raw) as int), -(Val(b) as int), WIDTH);
    ModAdd(Weighted(raw), Val(b) * 0xAB / 512, WIDTH);
  }

  lemma LowBytes(raw: seq<byte>, sum: int, neg: int, acc: int, x: byte)
    requires Accumulated(raw, sum, neg, acc, x)
    ensures sum % 256 == Total(raw) % 256 && neg % 256 == -(Total(raw) as int) % 256
    ensures acc % 256 == Weighted(raw) % 256
  {
    hide Total, Weighted, Folded;
    ModMod(Total(raw), 256, WIDTH / 256);
    ModMod(-(Total(raw) as int), 256, WIDTH / 256);
    ModMod(Weighted(raw), 256, WIDTH / 256);
  }

  /** `_key4`. */
  method BuildKeyTable(key: seq<byte>) returns (k: Key4)
    ensures k == KeyTable(key)
  {
    hide Xor8, Val, Byte, Effective, Total, Weighted;
    var raw := Effective(key, 20);
    var sum: int, neg: int, acc: int, x: byte := 0, 0, 0, 0;
    assert Accumulated([], 0, 0, 0, 0) by { Start(); }
    for i := 0 to |raw|
      invariant Accumulated(raw[..i], sum, neg, acc, x)
    {
      Accumulate(raw[..i], raw[i], sum, neg, acc, x);
      assert raw[..i + 1] == raw[..i] + [raw[i]];
      var b := Val(raw[i]);
      sum := (sum + b) % WIDTH;
      neg := (neg - b) % WIDTH;
      acc := (acc + b * 0xAB / 512) % WIDTH;
      x := Xor8(x, raw[i]);
    }
    assert raw[..|raw|] == raw;
    LowBytes(raw, sum, neg, acc, x);
    k := Key4(Byte(sum % 256), Byte(neg % 256), Byte(acc % 256), x);
  }

  lemma Start()
    ensures Accumulated([], 0, 0, 0, 0)
  {
  }

  // ---------------------------------------------------------------- the cipher

  function Index(k: Key4, prev: byte): (i: nat)
    ensures i < 256
  {
    (Val(k.Select(Val(prev) % 4)) + Val(prev)) % 256
  }

  /** `_keystream_byte`. */
  function Keystream(k: Key4, prev: byte): byte {
    TablePermutes(Index(k, prev), 0);
    Byte(Entry(Index(k, prev)))
  }

  function EncryptFrom(k: Key4, prev: byte, data: seq<byte>): (r: seq<byte>)
    ensures |r| == |data|
    decreases |data|
  {
    if data == [] then []
    else var c := Xor8(Keystream(k, prev), data[0]); [c] + EncryptFrom(k, c, data[1..])
  }

  function DecryptFrom(k: Key4, prev: byte, data: seq<byte>): (r: seq<byte>)
    ensures |r| == |data|
    decreases |data|
  {
    if data == [] then []
    else [Xor8(Keystream(k, prev), data[0])] + DecryptFrom(k, data[0], data[1..])
  }

  function Encrypt(key: seq<byte>, data: seq<byte>): (r: seq<byte>)
    ensures |r| == |data|
  {
    EncryptFrom(KeyTable(key), 0, data)
  }

  function Decrypt(key: seq<byte>, data: seq<byte>): (r: seq<byte>)
    ensures |r| == |data|
  {
    DecryptFrom(KeyTable(key), 0, data)
  }

  /** `encrypt`. */
  method EncryptBytes(key: seq<byte>, data: seq<byte>) returns (r: seq<byte>)
    ensures r == Encrypt(key, data)
  {
    hide Xor8, Keystream, KeyTable;
    if data == [] { return []; }
    var k := BuildKeyTable(key);
    var out := new byte[|data|];
    var prev: byte := 0;
    assert data[0..] == data;
    for i := 0 to |data|
      invariant out[..i] + EncryptFrom(k, prev, data[i..]) == Encrypt(key, data)
    {
      var c := Xor8(Keystream(k, prev), data[i]);
      assert data[i..][1..] == data[i + 1..];
      assert EncryptFrom(k, prev, data[i..]) == [c] + EncryptFrom(k, c, data[i + 1..]);
      out[i] := c;
      prev := c;
      assert out[..i + 1] == out[..i] + [c];
    }
    assert out[..|data|] == out[..];
    r := out[..];
  }

  /** `decrypt`. */
  method DecryptBytes(key: seq<byte>, data: seq<byte>) returns (r: seq<byte>)
    ensures r == Decrypt(key, data)
  {
    hide Xor8, Keystream, KeyTable;
    if data == [] { return []; }
    var k := BuildKeyTable(key);
    var out := new byte[|data|];
    var prev: byte := 0;
    assert data[0..] == data;
    for i := 0 to |data|
      invariant out[..i] + DecryptFrom(k, prev, data[i..]) == Decrypt(key, data)
    {
      var p := Xor8(Keystream(k, prev), data[i]);
      assert data[i..][1..] == data[i + 1..];
      assert DecryptFrom(k, prev, data[i..]) == [p] + DecryptFrom(k, data[i], data[i + 1..]);
      out[i] := p;
      prev := data[i];
      assert out[..i + 1] == out[..i] + [p];
    }
    assert out[..|data|] == out[..];
    r := out[..];
  }

  // ---------------------------------------------------------------- the two directions

  lemma {:induction false} Inverse(k: Key4, prev: byte, data: seq<byte>)
    ensures DecryptFrom(k, prev, EncryptFrom(k, prev, data)) == data
    ensures EncryptFrom(k, prev, DecryptFrom(k, prev, data)) == data
    decreases |data|
  {
    hide Keystream, Xor8;
    if data != [] {
      var ks := Keystream(k, prev);
      var c := Xor8(ks, data[0]);
      Xor8Laws(ks, data[0]);
      Inverse(k, c, data[1..]);
      Inverse(k, data[0], data[1..]);
      assert EncryptFrom(k, prev, data)[1..] == EncryptFrom(k, c, data[1..]);
      assert DecryptFrom(k, prev, data)[1..] == DecryptFrom(k, data[0], data[1..]);
    }
  }

  /** Encrypting and decrypting undo each other, for every key and all data. */
  lemma CipherRoundTrip(key: seq<byte>, data: seq<byte>)
    ensures Decrypt(key, Encrypt(key, data)) == data
    ensures Encrypt(key, Decrypt(key, data)) == data
  {
    Inverse(KeyTable(key), 0, data);
  }

  function Before(prev: byte, data: seq<byte>, i: nat): byte
    requires i < |data|
  {
    if i == 0 then prev else data[i - 1]
  }

  /** Each byte depends only on its own and on the ciphertext byte before it. */
  lemma {:induction false} DecryptAt(k: Key4, prev: byte, data: seq<byte>, i: nat)
    requires i < |data|
    ensures DecryptFrom(k, prev, data)[i] == Xor8(Keystream(k, Before(prev, data, i)), data[i])
    decreases |data|
  {
    hide Keystream, Xor8;
    if i > 0 {
      DecryptAt(k, data[0], data[1..], i - 1);
    }
  }

  /** The number that a byte of the stream adds to the byte before it: one of four sums over the
      effective key, chosen by the lowest two bits of the byte before. */
  function Base(key: seq<byte>, prev: byte): int {
    var raw := Effective(key, 20);
    var total: int := Total(raw);
    match Val(prev) % 4
    case 0 => total % 256
    case 1 => -total % 256
    case 2 => Weighted(raw) % 256
    case _ => Val(Folded(raw))
  }

  lemma KeystreamIs(key: seq<byte>, prev: byte)
    ensures 0 <= Base(key, prev)
    ensures Val(Keystream(KeyTable(key), prev)) == Entry((Base(key, prev) + Val(prev)) % 256)
  {
    hide Val, Byte, Effective, Total, Weighted, Folded, Entry;
    var raw := Effective(key, 20);
    var total: int := Total(raw);
    ValOfByte(total % 256);
    ValOfByte(-total % 256);
    ValOfByte(Weighted(raw) % 256);
    var i := Index(KeyTable(key), prev);
    TablePermutes(i, 0);
    ValOfByte(Entry(i));
  }

  lemma Unmask(ks: byte, b: byte)
    ensures Xor8(ks, b) ^ b == ks
  {
  }

  /** The byte with which position i is enciphered and deciphered: the table entry at the base plus
      the ciphertext byte before, 0 at the start. */
  lemma StreamBytes(key: seq<byte>, data: seq<byte>, i: nat)
    requires i < |data|
    ensures var prev := if i == 0 then 0 else data[i - 1];
            0 <= Base(key, prev) && Val(Decrypt(key, data)[i] ^ data[i]) == Entry((Base(key, prev) + Val(prev)) % 256)
    ensures var out := Encrypt(key, data);
            var prev := if i == 0 then 0 else out[i - 1];
            0 <= Base(key, prev) && Val(out[i] ^ data[i]) == Entry((Base(key, prev) + Val(prev)) % 256)
  {
    hide Val, Keystream, KeyTable, Base, Entry, Xor8;
    StreamByte(key, data, i);
    var out := Encrypt(key, data);
    StreamByte(key, out, i);
    CipherRoundTrip(key, data);
    Swap(out[i], data[i]);
  }

  lemma Swap(x: byte, y: byte)
    ensures x ^ y == y ^ x
  {
  }

  lemma StreamByte(key: seq<byte>, data: seq<byte>, i: nat)
    requires i < |data|
    ensures var prev := Before(0, data, i);
            0 <= Base(key, prev) && Val(Decrypt(key, data)[i] ^ data[i]) == Entry((Base(key, prev) + Val(prev)) % 256)
  {
    hide Val, Keystream, KeyTable, Base, Entry, Xor8;
    var prev := Before(0, data, i);
    var ks := Keystream(KeyTable(key), prev);
    DecryptAt(KeyTable(key), 0, data, i);
    KeystreamIs(key, prev);
    Unmask(ks, data[i]);
  }

  lemma CutAtNul()
    ensures Effective([0x61, 0xF2, 0x00, 0x63], 20) == [0x61, 0xF2]
  {
    var key: seq<byte> := [0x61, 0xF2, 0x00, 0x63];
    assert key[1..] == [0xF2, 0x00, 0x63] && key[1..][1..] == [0x00, 0x63];
    assert Effective(key[1..][1..], 18) == [];
    assert Effective(key[1..], 19) == [0xF2];
  }

  lemma SumsOfTwo(x: byte, y: byte)
    ensures Total([x, y]) == Val(x) + Val(y) && Folded([x, y]) == Xor8(x, y)
    ensures Weighted([x, y]) == Val(x) * 171 / 512 + Val(y) * 171 / 512
  {
    hide Val, Xor8;
    var none: seq<byte> := [];
    assert [x, y][..1] == [x] && [x][..0] == none;
    assert Total(none) == 0 && Weighted(none) == 0 && Folded(none) == 0;
    assert Total([x]) == Val(x) && Weighted([x]) == Val(x) * 0xAB / 512;
    Xor8Laws(0, x);
    Xor8Zero(x);
  }

  lemma BytesOfTwo()
    ensures Val(0x61) == 97 && Val(0xF2) == 242 && Xor8(0x61, 0xF2) == 0x93
    ensures Byte(83) == 0x53 && Byte(173) == 0xAD && Byte(112) == 0x70
  {
  }

  /** The four sums for a key of two bytes before its NUL. */
  lemma TwoByteKey()
    ensures KeyTable([0x61, 0xF2, 0x00, 0x63]) == Key4(0x53, 0xAD, 0x70, 0x93)
  {
    hide Effective, Total, Weighted, Folded, Val, Byte, Xor8;
    CutAtNul();
    BytesOfTwo();
    SumsOfTwo(0x61, 0xF2);
  }

  lemma {:induction false} EncryptSplit(k: Key4, prev: byte, a: seq<byte>, b: seq<byte>)
    ensures var c := EncryptFrom(k, prev, a);
            EncryptFrom(k, prev, a + b)
              == c + EncryptFrom(k, if c == [] then prev else c[|c| - 1], b)
    decreases |a|
  {
    hide Keystream, Xor8;
    if a == [] {
      assert a + b == b;
    } else {
      assert (a + b)[1..] == a[1..] + b;
      EncryptSplit(k, EncryptFrom(k, prev, a)[0], a[1..], b);
    }
  }

  /** Cutting commutes with both directions. */
  lemma PrefixCommutes(key: seq<byte>, data: seq<byte>, n: nat)
    requires n <= |data|
    ensures Encrypt(key, data)[..n] == Encrypt(key, data[..n])
    ensures Decrypt(key, data)[..n] == Decrypt(key, data[..n])
  {
    hide Keystream, KeyTable, Xor8;
    assert data == data[..n] + data[n..];
    EncryptSplit(KeyTable(key), 0, data[..n], data[n..]);
    forall i | 0 <= i < n ensures Decrypt(key, data)[i] == Decrypt(key, data[..n])[i] {
      DecryptAt(KeyTable(key), 0, data, i);
      DecryptAt(KeyTable(key), 0, data[..n], i);
    }
  }

  /** One altered ciphertext byte alters the plaintext byte at its place, by the same difference, and
      at most the one after. */
  lemma ErrorPropagation(key: seq<byte>, data: seq<byte>, i: nat, b: byte, j: nat)
    requires i < |data| && j < |data|
    ensures Decrypt(key, data[i := b])[i] == Xor8(Decrypt(key, data)[i], Xor8(data[i], b))
    ensures j != i && j != i + 1 ==> Decrypt(key, data[i := b])[j] == Decrypt(key, data)[j]
  {
    hide Keystream, Xor8, KeyTable;
    var k := KeyTable(key);
    DecryptAt(k, 0, data, i);
    DecryptAt(k, 0, data[i := b], i);
    DecryptAt(k, 0, data, j);
    DecryptAt(k, 0, data[i := b], j);
    Xor8Shift(Keystream(k, Before(0, data, i)), data[i], b);
  }

  lemma Xor8Shift(ks: byte, a: byte, b: byte)
    ensures Xor8(ks, b) == Xor8(Xor8(ks, a), Xor8(a, b))
  {
  }

  /** The cipher synchronises itself: whatever came before, everything but the first byte of what
      both streams share is deciphered alike. */
  lemma Resynchronises(key: seq<byte>, a: seq<byte>, b: seq<byte>, shared: seq<byte>, i: nat)
    requires 0 < i < |shared|
    ensures Decrypt(key, a + shared)[|a| + i] == Decrypt(key, b + shared)[|b| + i]
  {
    hide Keystream, KeyTable;
    DecryptAt(KeyTable(key), 0, a + shared, |a| + i);
    DecryptAt(KeyTable(key), 0, b + shared, |b| + i);
  }

  // ---------------------------------------------------------------- which keys are alike

  ghost predicate SameCipher(k: Key4, l: Key4) {
    forall data :: EncryptFrom(k, 0, data) == EncryptFrom(l, 0, data)
  }

  lemma KeystreamTells(k: Key4, l: Key4, prev: byte)
    requires Keystream(k, prev) == Keystream(l, prev)
    ensures k.Select(Val(prev) % 4) == l.Select(Val(prev) % 4)
  {
    hide Entry, Val, Byte;
    var i, j := Index(k, prev), Index(l, prev);
    TablePermutes(i, j);
    TablePermutes(j, 0);
    ValOfByte(Entry(i));
    ValOfByte(Entry(j));
    var s := Val(prev) % 4;
    assert (Val(k.Select(s)) + Val(prev)) % 256 == (Val(l.Select(s)) + Val(prev)) % 256;
    ByteOfVal(k.Select(s));
    ByteOfVal(l.Select(s));
  }

  /** Encrypting one chosen byte and another one shows the keystream after any ciphertext byte. */
  lemma SameKeystream(k: Key4, l: Key4, prev: byte)
    requires SameCipher(k, l)
    ensures Keystream(k, prev) == Keystream(l, prev)
  {
    hide Keystream, Xor8;
    var first := Xor8(Keystream(k, 0), prev);
    var two := [first, 0];
    Xor8Laws(Keystream(k, 0), prev);
    assert EncryptFrom(k, 0, two) == EncryptFrom(l, 0, two);
    assert EncryptFrom(k, 0, two)[0] == prev == EncryptFrom(l, 0, two)[0];
    assert EncryptFrom(k, 0, two)[1] == Xor8(Keystream(k, prev), 0);
    assert EncryptFrom(l, 0, two)[1] == Xor8(Keystream(l, prev), 0);
    Xor8Zero(Keystream(k, prev));
    Xor8Zero(Keystream(l, prev));
  }

  lemma Xor8Zero(x: byte)
    ensures Xor8(x, 0) == x
  {
  }

  /** Two keys encipher everything alike exactly when their four key bytes are equal. */
  lemma KeysAlike(k: Key4, l: Key4)
    ensures SameCipher(k, l) <==> k == l
  {
    hide Keystream;
    if SameCipher(k, l) {
      SelectsAlike(k, l, 0, 0);
      SelectsAlike(k, l, 1, 1);
      SelectsAlike(k, l, 2, 2);
      SelectsAlike(k, l, 3, 3);
    }
  }

  lemma SelectsAlike(k: Key4, l: Key4, prev: byte, i: nat)
    requires SameCipher(k, l) && i < 4 && Val(prev) == i
    ensures k.Select(i) == l.Select(i)
  {
    hide SameCipher, Keystream;
    SameKeystream(k, l, prev);
    KeystreamTells(k, l, prev);
  }
}
