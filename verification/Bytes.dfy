/** Bytes, and Python's `int.to_bytes` / `int.from_bytes` in both byte orders. */
module Bytes {

  type byte = bv8

  datatype Result<+T, +E> = Ok(value: T) | Err(error: E)

  datatype Option<+T> = None | Some(value: T)

  // ---------------------------------------------------------------- chunks

  function Concat(parts: seq<seq<byte>>): seq<byte> {
    if parts == [] then [] else parts[0] + Concat(parts[1..])
  }

  lemma {:induction false} ConcatSplit(a: seq<seq<byte>>, b: seq<seq<byte>>)
    ensures Concat(a + b) == Concat(a) + Concat(b)
    decreases |a|
  {
    if a == [] {
      assert a + b == b;
    } else {
      assert (a + b)[1..] == a[1..] + b;
      ConcatSplit(a[1..], b);
    }
  }

  lemma ConcatLast(parts: seq<seq<byte>>)
    requires parts != []
    ensures var n := |parts| - 1; Concat(parts) == Concat(parts[..n]) + parts[n]
  {
    var n := |parts| - 1;
    assert parts == parts[..n] + [parts[n]];
    ConcatSplit(parts[..n], [parts[n]]);
    assert Concat([parts[n]]) == parts[n] + Concat([]) == parts[n];
  }

  // ---------------------------------------------------------------- bytes and numbers

  function Byte(n: nat): byte
    requires n < 256
  {
    n as bv8
  }

  function Val(b: byte): (n: nat)
    ensures n < 256
  {
    b as nat
  }

  lemma ByteOfVal(b: byte)
    ensures Byte(Val(b)) == b
  {
  }

  lemma ValOfNext(b: byte)
    requires b != 0xFF
    ensures Val(b + 1) == Val(b) + 1
  {
  }

  /** `x ^ y` on single bytes. */
  function Xor8(x: byte, y: byte): byte {
    x ^ y
  }

  lemma Xor8Laws(x: byte, y: byte)
    ensures Xor8(x, y) == Xor8(y, x) && Xor8(x, Xor8(x, y)) == y
    ensures Xor8(Xor8(y, x), x) == y
  {
  }

  /** Every number below 256 is the value of a byte. */
  lemma {:induction false} ByteWithVal(n: nat) returns (b: byte)
    requires n < 256
    ensures Val(b) == n
  {
    if n == 0 {
      b := 0;
    } else {
      var c := ByteWithVal(n - 1);
      assert Val(0xFF) == 255;
      ValOfNext(c);
      b := c + 1;
    }
  }

  lemma ValOfByte(n: nat)
    requires n < 256
    ensures Val(Byte(n)) == n
  {
    hide Val, Byte;
    var b := ByteWithVal(n);
    ByteOfVal(b);
  }

  function Pow256(n: nat): (p: nat)
    ensures p > 0
  {
    if n == 0 then 1 else 256 * Pow256(n - 1)
  }

  lemma {:induction false} Pow256Sum(m: nat, n: nat)
    ensures Pow256(m + n) == Pow256(m) * Pow256(n)
  {
    if m > 0 { Pow256Sum(m - 1, n); }
  }

  /** `value.to_bytes(n, "little")` without the overflow check. */
  function ToLe(value: nat, n: nat): (s: seq<byte>)
    ensures |s| == n
    decreases n
  {
    if n == 0 then [] else [Byte(value % 256)] + ToLe(value / 256, n - 1)
  }

  function FromLe(s: seq<byte>): nat {
    if s == [] then 0 else Val(s[0]) + 256 * FromLe(s[1..])
  }

  /** `value.to_bytes(n, "big")` without the overflow check. */
  function ToBe(value: nat, n: nat): (s: seq<byte>)
    ensures |s| == n
    decreases n
  {
    if n == 0 then [] else ToBe(value / 256, n - 1) + [Byte(value % 256)]
  }

  function FromBe(s: seq<byte>): nat {
    if s == [] then 0 else 256 * FromBe(s[..|s| - 1]) + Val(s[|s| - 1])
  }

  lemma {:induction false} LeRoundTrip(value: nat, n: nat)
    ensures FromLe(ToLe(value, n)) == value % Pow256(n)
    ensures value < Pow256(n) ==> FromLe(ToLe(value, n)) == value
    decreases n
  {
    if n > 0 {
      LeRoundTrip(value / 256, n - 1);
      ValOfByte(value % 256);
      assert ToLe(value, n)[1..] == ToLe(value / 256, n - 1);
      SplitMod(value, Pow256(n - 1));
    }
  }

  lemma DivMod(high: nat, low: nat)
    requires low < 256
    ensures (256 * high + low) / 256 == high && (256 * high + low) % 256 == low
  {
  }

  lemma {:induction false} LeInverse(s: seq<byte>)
    ensures FromLe(s) < Pow256(|s|) && ToLe(FromLe(s), |s|) == s
  {
    hide Val, Byte;
    if s != [] {
      LeInverse(s[1..]);
      ByteOfVal(s[0]);
      DivMod(FromLe(s[1..]), Val(s[0]));
      assert s == [s[0]] + s[1..];
    }
  }

  lemma {:induction false} BeRoundTrip(value: nat, n: nat)
    ensures FromBe(ToBe(value, n)) == value % Pow256(n)
    ensures value < Pow256(n) ==> FromBe(ToBe(value, n)) == value
    decreases n
  {
    if n > 0 {
      BeRoundTrip(value / 256, n - 1);
      ValOfByte(value % 256);
      var s := ToBe(value, n);
      assert s[..|s| - 1] == ToBe(value / 256, n - 1);
      SplitMod(value, Pow256(n - 1));
    }
  }

  lemma {:induction false} BeInverse(s: seq<byte>)
    ensures FromBe(s) < Pow256(|s|) && ToBe(FromBe(s), |s|) == s
  {
    hide Val, Byte;
    if s != [] {
      var t := s[..|s| - 1];
      BeInverse(t);
      ByteOfVal(s[|s| - 1]);
      DivMod(FromBe(t), Val(s[|s| - 1]));
      var v := 256 * FromBe(t) + Val(s[|s| - 1]);
      assert FromBe(s) == v;
      assert ToBe(v, |s|) == ToBe(v / 256, |t|) + [Byte(v % 256)];
      assert s == t + [s[|s| - 1]];
    }
  }

  lemma SplitMod(value: nat, m: nat)
    requires m > 0
    ensures value % (256 * m) == 256 * (value / 256 % m) + value % 256
    ensures value / (256 * m) == value / 256 / m
  {
    var q := value / 256 / m;
    var r := value / 256 % m;
    assert value / 256 == q * m + r;
    assert value == 256 * (q * m + r) + value % 256;
    assert 256 * (q * m) == q * (256 * m);
    assert 0 <= 256 * r + value % 256 < 256 * m;
    ModUnique(value, 256 * m, q, 256 * r + value % 256);
  }

  /** Little-endian: byte i holds the digit of weight 256 to the i. */
  lemma {:induction false} LeDigits(value: nat, n: nat, i: nat)
    requires i < n
    ensures Val(ToLe(value, n)[i]) == value / Pow256(i) % 256
    decreases n
  {
    if i == 0 {
      ValOfByte(value % 256);
    } else {
      LeDigits(value / 256, n - 1, i - 1);
      SplitMod(value, Pow256(i - 1));
    }
  }

  /** Big-endian: the byte that i bytes follow holds that digit. */
  lemma {:induction false} BeDigits(value: nat, n: nat, i: nat)
    requires i < n
    ensures Val(ToBe(value, n)[n - 1 - i]) == value / Pow256(i) % 256
    decreases n
  {
    if i == 0 {
      ValOfByte(value % 256);
    } else {
      BeDigits(value / 256, n - 1, i - 1);
      SplitMod(value, Pow256(i - 1));
    }
  }

  /** Fields of two and of four bytes, written out. */
  lemma BigEndianFields(s: seq<byte>)
    ensures |s| == 2 ==> FromBe(s) == 0x100 * Val(s[0]) + Val(s[1])
    ensures |s| == 4 ==> FromBe(s) == 0x100_0000 * Val(s[0]) + 0x1_0000 * Val(s[1]) + 0x100 * Val(s[2]) + Val(s[3])
  {
    hide Val;
    if |s| == 2 {
      assert s[..1][..0] == [];
      assert FromBe(s[..1]) == Val(s[0]);
    } else if |s| == 4 {
      assert s[..3][..2] == s[..2] && s[..2][..1] == s[..1] && s[..1][..0] == [];
      assert FromBe(s[..1]) == Val(s[0]);
      assert FromBe(s[..3]) == 0x100 * FromBe(s[..2]) + Val(s[2]);
    }
  }

  lemma MultipleGrows(d: int, m: nat)
    requires m > 0
    ensures d >= 1 ==> d * m >= m
    ensures d <= -1 ==> d * m <= -(m as int)
  {
    if d >= 1 {
      assert d * m == (d - 1) * m + m;
    } else if d <= -1 {
      assert -d * m == (-d - 1) * m + m;
    }
  }

  lemma ModUnique(a: int, m: nat, q: int, r: nat)
    requires m > 0 && a == q * m + r && r < m
    ensures a % m == r && a / m == q
  {
    var p, d := a / m, a / m - q;
    assert d * m == p * m - q * m == r - a % m;
    MultipleGrows(d, m);
  }

  lemma ModAdd(a: int, b: int, m: nat)
    requires m > 0
    ensures (a % m + b) % m == (a + b) % m
  {
    var c := a % m + b;
    assert (a / m + c / m) * m == a / m * m + c / m * m;
    ModUnique(a + b, m, a / m + c / m, c % m);
  }

  lemma ModMod(a: int, m: nat, k: nat)
    requires m > 0 && k > 0 && m * k > 0
    ensures a % (m * k) % m == a % m
  {
    var c := a % (m * k);
    var q := a / (m * k);
    assert a == q * (m * k) + c == q * k * m + c;
    assert (q * k + c / m) * m == q * k * m + c / m * m;
    ModUnique(a, m, q * k + c / m, c % m);
  }
}
