/** The bitwise checksum of hub/crypto.py as a polynomial division: after any message the register
    holds the remainder of the message by x^16 + x^12 + x^5 + 1. */
module CrcPolynomial {
  import opened Bits
  import opened Bytes
  import opened GfPoly
  import opened Register
  import opened Crc

  /** x^16 + x^12 + x^5 + 1. */
  const GENERATOR: nat := 0x11021

  // ---------------------------------------------------------------- registers as numbers

  function Half(a: bv16): bv16 {
    a >> 1
  }

  predicate Odd(a: bv16) {
    a & 1 == 1
  }

  /** The number whose binary digits are the lowest n bits of a register. */
  function Value(a: bv16, n: nat): (v: nat)
    ensures v < Shl(1, n)
  {
    if n == 0 then 0 else 2 * Value(Half(a), n - 1) + (if Odd(a) then 1 else 0)
  }

  lemma HalvesOfSum(a: bv16, b: bv16)
    ensures Half(Sum(a, b)) == Sum(Half(a), Half(b)) && (Odd(Sum(a, b)) <==> Odd(a) != Odd(b))
  {
  }

  /** The sum of registers is the exclusive or of the numbers they hold. */
  lemma {:induction false} ValueOfSum(a: bv16, b: bv16, n: nat)
    ensures Value(Sum(a, b), n) == Xor(Value(a, n), Value(b, n))
    decreases n
  {
    if n == 0 {
      XorZero(0);
    } else {
      hide Half, Odd, Sum, Xor;
      HalvesOfSum(a, b);
      ValueOfSum(Half(a), Half(b), n - 1);
      XorJoined(Value(Half(a), n - 1), Value(Half(b), n - 1), Odd(a), Odd(b));
    }
  }

  lemma XorJoined(x: nat, y: nat, p: bool, q: bool)
    ensures Xor(2 * x + (if p then 1 else 0), 2 * y + (if q then 1 else 0))
         == 2 * Xor(x, y) + (if p != q then 1 else 0)
  {
    var a, b := 2 * x + (if p then 1 else 0), 2 * y + (if q then 1 else 0);
    assert a / 2 == x && b / 2 == y;
    XorZero(0);
  }

  /** Nothing is set from bit n on. */
  predicate Short(a: bv16, n: nat) {
    if n == 0 then a == 0 else Short(Half(a), n - 1)
  }

  lemma ZeroHalves()
    ensures Half(0) == 0 && !Odd(0)
  {
  }

  lemma {:induction false} ValueShort(a: bv16, n: nat)
    requires Short(a, n)
    ensures Value(a, n + 1) == Value(a, n)
    decreases n
  {
    hide Half, Odd;
    ZeroHalves();
    if n == 0 {
      assert Value(a, 1) == 2 * Value(Half(a), 0);
    } else {
      ValueShort(Half(a), n - 1);
    }
  }

  lemma FifteenBits(a: bv16)
    requires a & 0x8000 == 0
    ensures Half(Half(Half(Half(Half(Half(Half(Half(Half(Half(Half(Half(Half(Half(Half(a))))))))))))))) == 0
  {
  }

  lemma ShortFifteen(a: bv16)
    requires a & 0x8000 == 0
    ensures Short(a, 15)
  {
    hide Half;
    FifteenBits(a);
    var b := Half(Half(Half(Half(Half(a)))));
    var c := Half(Half(Half(Half(Half(b)))));
    var d := Half(Half(Half(Half(Half(c)))));
    assert Short(d, 0);
    ShortBack(c);
    assert Short(c, 5);
    ShortMore(b, 5);
    ShortMore(a, 10);
  }

  lemma ShortBack(c: bv16)
    requires Half(Half(Half(Half(Half(c))))) == 0
    ensures Short(c, 5)
  {
    hide Half;
    ShortMore(c, 0);
  }

  lemma ShortMore(c: bv16, n: nat)
    requires Short(Half(Half(Half(Half(Half(c))))), n)
    ensures Short(c, n + 5)
  {
    hide Half;
    var h := Half(Half(Half(c)));
    assert Short(Half(h), n + 1) && Short(h, n + 2);
    assert Short(Half(Half(c)), n + 3) && Short(Half(c), n + 4);
  }

  function Double(a: bv16): bv16 {
    a << 1
  }

  lemma Redoubled(a: bv16)
    requires a & 0x8000 == 0
    ensures Half(Double(a)) == a && !Odd(Double(a))
  {
  }

  lemma ValueDoubled(a: bv16)
    requires a & 0x8000 == 0
    ensures Value(Double(a), 16) == 2 * Value(a, 16)
  {
    hide Half, Odd, Short, Double;
    Redoubled(a);
    ShortFifteen(a);
    ValueShort(a, 15);
  }

  lemma {:induction false} ValueOfZero(n: nat)
    ensures Value(0, n) == 0
  {
    if n > 0 { ValueOfZero(n - 1); }
  }

  lemma TopBit()
    ensures Value(0x8000, 16) == 0x8000
  {
    assert Value(0, 0) == 0;
    assert Value(0x1, 1) == 0x1;
    assert Value(0x2, 2) == 0x2;
    assert Value(0x4, 3) == 0x4;
    assert Value(0x8, 4) == 0x8;
    assert Value(0x10, 5) == 0x10;
    assert Value(0x20, 6) == 0x20;
    assert Value(0x40, 7) == 0x40;
    assert Value(0x80, 8) == 0x80;
    assert Value(0x100, 9) == 0x100;
    assert Value(0x200, 10) == 0x200;
    assert Value(0x400, 11) == 0x400;
    assert Value(0x800, 12) == 0x800;
    assert Value(0x1000, 13) == 0x1000;
    assert Value(0x2000, 14) == 0x2000;
    assert Value(0x4000, 15) == 0x4000;
    assert Value(0x8000, 16) == 0x8000;
  }

  lemma Taps()
    ensures Value(0x1021, 16) == 0x1021
  {
    ValueOfZero(3);
    assert Value(0x1, 4) == 0x1;
    assert Value(0x2, 5) == 0x2;
    assert Value(0x4, 6) == 0x4;
    assert Value(0x8, 7) == 0x8;
    assert Value(0x10, 8) == 0x10;
    assert Value(0x20, 9) == 0x20;
    assert Value(0x40, 10) == 0x40;
    assert Value(0x81, 11) == 0x81;
    assert Value(0x102, 12) == 0x102;
    assert Value(0x204, 13) == 0x204;
    assert Value(0x408, 14) == 0x408;
    assert Value(0x810, 15) == 0x810;
    assert Value(0x1021, 16) == 0x1021;
  }

  lemma AllOnes()
    ensures Value(0xFFFF, 16) == 0xFFFF
  {
    assert Value(0, 0) == 0;
    assert Value(0x1, 1) == 0x1;
    assert Value(0x3, 2) == 0x3;
    assert Value(0x7, 3) == 0x7;
    assert Value(0xF, 4) == 0xF;
    assert Value(0x1F, 5) == 0x1F;
    assert Value(0x3F, 6) == 0x3F;
    assert Value(0x7F, 7) == 0x7F;
    assert Value(0xFF, 8) == 0xFF;
    assert Value(0x1FF, 9) == 0x1FF;
    assert Value(0x3FF, 10) == 0x3FF;
    assert Value(0x7FF, 11) == 0x7FF;
    assert Value(0xFFF, 12) == 0xFFF;
    assert Value(0x1FFF, 13) == 0x1FFF;
    assert Value(0x3FFF, 14) == 0x3FFF;
    assert Value(0x7FFF, 15) == 0x7FFF;
    assert Value(0xFFFF, 16) == 0xFFFF;
  }

  // ---------------------------------------------------------------- one shift is one division step

  lemma WithoutTop(a: bv16)
    requires a & 0x8000 != 0
    ensures Sum(a, 0x8000) & 0x8000 == 0
  {
  }

  lemma TopAgain(a: bv16)
    ensures a == Sum(Sum(a, 0x8000), 0x8000)
  {
  }

  lemma TopFalls(a: bv16)
    ensures Double(Sum(a, 0x8000)) == Double(a)
  {
  }

  lemma ShiftOfTop(a: bv16)
    requires a & 0x8000 != 0
    ensures Shift(a) == Sum(Double(a), 0x1021)
  {
  }

  lemma NoTop(a: bv16)
    requires a & 0x8000 == 0
    ensures Shift(a) == Double(a)
  {
  }

  lemma Lengths()
    ensures BitLen(GENERATOR) == 17 && Shl(1, 16) == 0x1_0000
  {
    assert Shl(1, 8) == 256;
    assert Shl(1, 16) == 0x1_0000;
    LenBound(GENERATOR, 16);
    assert Shl(1, 17) == 0x2_0000;
    LenBound(GENERATOR, 17);
  }

  lemma ValueReduced(a: bv16)
    ensures BitLen(Value(a, 16)) < BitLen(GENERATOR) && Mod(Value(a, 16), GENERATOR) == Value(a, 16)
  {
    hide Value;
    Lengths();
    LenBound(Value(a, 16), 16);
    ModOfReduced(Value(a, 16), GENERATOR);
  }

  lemma GeneratorSplit(x: nat)
    ensures Xor(2 * Xor(x, 0x8000), GENERATOR) == Xor(2 * x, 0x1021)
  {
    XorDouble(x, 0x8000);
    XorAssoc(2 * x, 0x1_0000, GENERATOR);
    Lengths();
    XorApart(1, 0x1021, 16);
    XorCancel(0x1_0000, 0x1021);
  }

  /** Bits below those of a shifted number are added to it. */
  lemma {:induction false} XorApart(m: nat, b: nat, j: nat)
    requires b < Shl(1, j)
    ensures Xor(Shl(m, j), b) == Shl(m, j) + b
    decreases j
  {
    if j == 0 {
      XorZero(m);
    } else {
      hide Xor;
      assert Shl(1, j) == 2 * Shl(1, j - 1);
      XorApart(m, b / 2, j - 1);
      XorJoined(Shl(m, j - 1), b / 2, false, b % 2 == 1);
    }
  }

  /** A shift multiplies by x and takes the remainder. */
  lemma ShiftIsRemainder(a: bv16)
    ensures Value(Shift(a), 16) == Mod(2 * Value(a, 16), GENERATOR)
  {
    hide Value, Double, Shift, Sum, Xor, Mod;
    ValueReduced(Shift(a));
    if a & 0x8000 == 0 {
      NoTop(a);
      ValueDoubled(a);
    } else {
      var t := Sum(a, 0x8000);
      WithoutTop(a);
      TopAgain(a);
      TopFalls(a);
      ShiftOfTop(a);
      ValueOfSum(t, 0x8000, 16);
      ValueOfSum(Double(t), 0x1021, 16);
      TopBit();
      Taps();
      ValueDoubled(t);
      var x := Value(t, 16);
      GeneratorSplit(x);
      XorComm(2 * Xor(x, 0x8000), GENERATOR);
      XorCancel(GENERATOR, 2 * Xor(x, 0x8000));
      MulOne(GENERATOR);
      RemainderUnique(2 * Value(a, 16), GENERATOR, 1, Value(Shift(a), 16));
    }
  }

  lemma ModOfShl(a: nat, j: nat)
    ensures Mod(Shl(Mod(a, GENERATOR), j), GENERATOR) == Mod(Shl(a, j), GENERATOR)
  {
    ShlIsMul(a, j);
    ShlIsMul(Mod(a, GENERATOR), j);
    ModMulLeft(a, Shl(1, j), GENERATOR);
  }

  lemma {:induction false} ShiftsAreRemainder(a: bv16, n: nat)
    ensures Value(Shifts(a, n), 16) == Mod(Shl(Value(a, 16), n), GENERATOR)
    decreases n
  {
    hide Value, Shift, Mod;
    if n == 0 {
      ValueReduced(a);
    } else {
      ShiftsAreRemainder(Shift(a), n - 1);
      ShiftIsRemainder(a);
      ModOfShl(2 * Value(a, 16), n - 1);
      ShlDouble(Value(a, 16), n - 1);
    }
  }

  // ---------------------------------------------------------------- a byte is eight shifts

  lemma {:induction false} ShlXor(a: nat, b: nat, j: nat)
    ensures Shl(Xor(a, b), j) == Xor(Shl(a, j), Shl(b, j))
  {
    if j > 0 {
      hide Xor;
      ShlXor(a, b, j - 1);
      XorDouble(Shl(a, j - 1), Shl(b, j - 1));
    }
  }

  lemma {:induction false} ShlShl(a: nat, i: nat, j: nat)
    ensures Shl(Shl(a, i), j) == Shl(a, i + j)
  {
    if j > 0 { ShlShl(a, i, j - 1); }
  }

  function Wide(b: byte): bv16 {
    b as bv16
  }

  function HalfByte(b: byte): byte {
    b >> 1
  }

  lemma WideHalves(b: byte)
    ensures Half(Wide(b)) == Wide(HalfByte(b))
  {
  }

  lemma ByteHalves(b: byte)
    ensures Val(b) == 2 * Val(HalfByte(b)) + if Odd(Wide(b)) then 1 else 0
  {
  }

  lemma {:induction false} ValueOfWide(b: byte, n: nat)
    requires Val(b) < Shl(1, n)
    ensures Value(Wide(b), n) == Val(b)
    decreases n
  {
    hide Half, HalfByte, Wide, Val, Odd;
    if n > 0 {
      WideHalves(b);
      ByteHalves(b);
      ValueOfWide(HalfByte(b), n - 1);
    }
  }

  lemma Lifted(b: byte)
    ensures var a0 := Wide(b);
            var a1, a2 := Double(a0), Double(Double(a0));
            var a3, a4 := Double(a2), Double(Double(a2));
            var a5, a6 := Double(a4), Double(Double(a4));
            var a7 := Double(a6);
            && a0 & 0x8000 == 0 && a1 & 0x8000 == 0 && a2 & 0x8000 == 0 && a3 & 0x8000 == 0
            && a4 & 0x8000 == 0 && a5 & 0x8000 == 0 && a6 & 0x8000 == 0 && a7 & 0x8000 == 0
            && Double(a7) == b as bv16 << 8
  {
  }

  lemma ValueOfPlace(b: byte)
    ensures Value(b as bv16 << 8, 16) == 256 * Val(b)
  {
    hide Double, Wide, Val, Value;
    Lifted(b);
    var a0 := Wide(b);
    var a2 := Double(Double(a0));
    var a4 := Double(Double(a2));
    var a6 := Double(Double(a4));
    ValueDoubled(a0);
    ValueDoubled(Double(a0));
    ValueDoubled(a2);
    ValueDoubled(Double(a2));
    ValueDoubled(a4);
    ValueDoubled(Double(a4));
    ValueDoubled(a6);
    ValueDoubled(Double(a6));
    Lengths();
    ValueOfWide(b, 16);
  }

  lemma FeedIsRemainder(c: bv16, b: byte)
    ensures Value(Feed(c, b), 16) == Mod(Shl(Xor(Value(c, 16), 256 * Val(b)), 8), GENERATOR)
  {
    hide Value, Val, Mod, Shl, Xor, Sum, Shift8;
    ValueOfSum(c, b as bv16 << 8, 16);
    ValueOfPlace(b);
    ShiftsEight(Mix(c, b));
    ShiftsAreRemainder(Mix(c, b), 8);
  }

  // ---------------------------------------------------------------- a message

  /** The message followed by sixteen zeros, with the register's first contents added in front. */
  function Dividend(c: bv16, data: seq<byte>): nat {
    Xor(Shl(Value(c, 16), 8 * |data|), Shl(FromBe(data), 16))
  }

  /** The register after a message is the remainder of that polynomial. */
  lemma {:induction false} RunIsRemainder(c: bv16, data: seq<byte>)
    ensures Value(Run(c, data), 16) == Mod(Dividend(c, data), GENERATOR)
    decreases |data|
  {
    hide Value, Val, Mod, Feed, Xor;
    if data == [] {
      ShlLen(0, 16);
      XorZero(Value(c, 16));
      ValueReduced(c);
    } else {
      var n := |data| - 1;
      var front, b := data[..n], data[n];
      RunIsRemainder(c, front);
      FeedIsRemainder(Run(c, front), b);
      DividendGrows(c, front, b);
      assert data == front + [b];
      var r, place := Value(Run(c, front), 16), 256 * Val(b);
      ShlXor(r, place, 8);
      ModOfShl(Dividend(c, front), 8);
      ModXor(Shl(r, 8), Shl(place, 8), GENERATOR);
      ModXor(Shl(Dividend(c, front), 8), Shl(place, 8), GENERATOR);
    }
  }

  lemma DividendGrows(c: bv16, front: seq<byte>, b: byte)
    ensures Dividend(c, front + [b]) == Xor(Shl(Dividend(c, front), 8), Shl(256 * Val(b), 8))
  {
    hide Value, Val, Xor;
    var v, m, n := Value(c, 16), FromBe(front), |front|;
    assert (front + [b])[..n] == front;
    assert FromBe(front + [b]) == 256 * m + Val(b);
    ShlXor(Shl(v, 8 * n), Shl(m, 16), 8);
    ShlShl(v, 8 * n, 8);
    ShlShl(m, 16, 8);
    ShlShl(m, 8, 16);
    EightDoublings(m);
    EightDoublings(Val(b));
    XorApart(m, Val(b), 8);
    ShlXor(Shl(m, 8), Val(b), 16);
    ShlShl(Val(b), 8, 8);
    XorAssoc(Shl(v, 8 * n + 8), Shl(m, 24), Shl(Val(b), 16));
  }

  lemma EightDoublings(m: nat)
    ensures Shl(m, 8) == 256 * m && Shl(1, 8) == 256
  {
    assert Shl(m, 8) == 2 * Shl(m, 7) == 4 * Shl(m, 6) == 8 * Shl(m, 5) == 16 * Shl(m, 4);
    assert Shl(m, 4) == 2 * Shl(m, 3) == 4 * Shl(m, 2) == 8 * Shl(m, 1) == 16 * m;
    assert Shl(1, 8) == 2 * Shl(1, 7) == 4 * Shl(1, 6) == 8 * Shl(1, 5) == 16 * Shl(1, 4);
    assert Shl(1, 4) == 2 * Shl(1, 3) == 4 * Shl(1, 2) == 8 * Shl(1, 1) == 16;
  }

  /** The checksum of a message: the remainder by x^16 + x^12 + x^5 + 1 of the message with sixteen
      zeros after it and its first sixteen bits inverted, itself inverted. */
  lemma ChecksumIsRemainder(data: seq<byte>)
    ensures Value(Crc16(data), 16)
         == Xor(Mod(Xor(Shl(0xFFFF, 8 * |data|), Shl(FromBe(data), 16)), 0x11021), 0xFFFF)
  {
    hide Value, Val, Mod, Xor, Run, Sum, Crc16, Shl, FromBe;
    AllOnes();
    RunIsRemainder(0xFFFF, data);
    Inverted(data);
    ValueOfSum(Run(0xFFFF, data), 0xFFFF, 16);
  }

  lemma Inverted(data: seq<byte>)
    ensures Crc16(data) == Sum(Run(0xFFFF, data), 0xFFFF)
  {
    hide Run;
  }
}
