/** Polynomials over GF(2) held in integers: `gf2_mul`, `gf2_mod`, `gf2_mulmod` and `gf2_sqr` of
    hub/ecc.py, each a loop proved against a recursive definition, and the ring those definitions
    form. The reducing polynomial is a parameter throughout, as it is in the source. */
module GfPoly {
  import opened Bits

  // ---------------------------------------------------------------- definitions

  /** The carry-less product, by the bits of the second operand. */
  function Mul(a: nat, b: nat): nat
    decreases b
  {
    if b == 0 then 0 else Xor(if b % 2 == 1 then a else 0, 2 * Mul(a, b / 2))
  }

  /** The remainder of the polynomial division of `a` by `poly`. */
  function Mod(a: nat, poly: nat): nat
    requires poly != 0
    decreases BitLen(a)
  {
    if BitLen(a) < BitLen(poly) then a
    else ModStepLen(a, poly); Mod(ModStep(a, poly), poly)
  }

  /** Cancels the leading term of `a` with a shifted copy of `poly`. */
  function ModStep(a: nat, poly: nat): nat
    requires BitLen(a) >= BitLen(poly)
  {
    Xor(a, Shl(poly, BitLen(a) - BitLen(poly)))
  }

  function MulMod(a: nat, b: nat, poly: nat): nat
    requires poly != 0
  {
    Mod(Mul(a, b), poly)
  }

  /** The bits of `a` moved to the even positions. */
  function Spread(a: nat): nat {
    if a == 0 then 0 else 4 * Spread(a / 2) + a % 2
  }

  lemma ModStepLen(a: nat, poly: nat)
    requires poly != 0 && BitLen(a) >= BitLen(poly)
    ensures BitLen(ModStep(a, poly)) < BitLen(a)
  {
    hide Xor, Shl;
    var j := BitLen(a) - BitLen(poly);
    ShlLen(poly, j);
    XorLen(a, Shl(poly, j));
  }

  // ---------------------------------------------------------------- the loops of the source

  /** `gf2_mul`. */
  method GfMul(a: nat, b: nat) returns (result: nat)
    ensures result == Mul(a, b)
  {
    result := 0;
    var left, right := a, b;
    XorZero(Mul(a, b));
    while right != 0
      invariant Xor(result, Mul(left, right)) == Mul(a, b)
    {
      ghost var bit := if right % 2 == 1 then left else 0;
      XorAssoc(result, bit, 2 * Mul(left, right / 2));
      MulDouble(left, right / 2);
      XorZero(result);
      if right % 2 == 1 {
        result := Xor(result, left);
      }
      left := 2 * left;
      right := right / 2;
    }
    XorZero(result);
  }

  /** `gf2_mod`. */
  method GfMod(a: nat, poly: nat) returns (rest: nat)
    requires poly != 0
    ensures rest == Mod(a, poly) && BitLen(rest) < BitLen(poly)
  {
    rest := a;
    var polyLen := BitLen(poly);
    while BitLen(rest) >= polyLen
      invariant Mod(rest, poly) == Mod(a, poly)
      decreases BitLen(rest)
    {
      ModStepLen(rest, poly);
      var shift := BitLen(rest) - polyLen;
      rest := Xor(rest, Shl(poly, shift));
    }
  }

  /** `gf2_mulmod`. */
  method GfMulMod(a: nat, b: nat, poly: nat) returns (r: nat)
    requires poly != 0
    ensures r == MulMod(a, b, poly)
  {
    var product := GfMul(a, b);
    r := GfMod(product, poly);
  }

  /** `gf2_sqr`: the square computed by spreading bits is the product of `a` with itself. */
  method GfSqr(a: nat, poly: nat) returns (r: nat)
    requires poly != 0
    ensures r == MulMod(a, a, poly)
  {
    var result: nat, i: nat, rest := 0, 0, a;
    while rest != 0
      invariant result < Shl(1, 2 * i)
      invariant result + Shl(Spread(rest), 2 * i) == Spread(a)
      decreases rest
    {
      SpreadShift(rest, 2 * i);
      if rest % 2 == 1 {
        OrAbove(result, 2 * i);
        result := Or(result, Shl(1, 2 * i));
      }
      rest := rest / 2;
      i := i + 1;
    }
    ShlLen(0, 2 * i);
    SpreadIsSquare(a);
    r := GfMod(result, poly);
  }

  lemma SpreadShift(rest: nat, j: nat)
    requires rest != 0
    ensures Shl(Spread(rest), j)
         == Shl(Spread(rest / 2), j + 2) + (if rest % 2 == 1 then Shl(1, j) else 0)
    ensures Shl(1, j + 2) == 4 * Shl(1, j)
  {
    var low := Spread(rest / 2);
    ShlSum(4 * low, rest % 2, j);
    ShlDouble(2 * low, j);
    ShlDouble(low, j);
    ShlLen(0, j);
    assert Shl(low, j + 2) == 2 * Shl(low, j + 1) == 4 * Shl(low, j);
    assert Shl(1, j + 2) == 2 * Shl(1, j + 1) == 4 * Shl(1, j);
  }

  lemma {:induction false} ShlSum(a: nat, b: nat, j: nat)
    ensures Shl(a + b, j) == Shl(a, j) + Shl(b, j)
  {
    if j > 0 { ShlSum(a, b, j - 1); }
  }

  // ---------------------------------------------------------------- the ring of polynomials

  lemma {:induction false} MulZero(b: nat)
    ensures Mul(0, b) == 0 && Mul(b, 0) == 0
  {
    if b != 0 {
      MulZero(b / 2);
      XorZero(0);
    }
  }

  lemma MulOne(a: nat)
    ensures Mul(a, 1) == a && Mul(1, a) == a
  {
    assert Mul(a, 1) == Xor(a, 2 * Mul(a, 0));
    XorZero(a);
    MulComm(a, 1);
  }

  lemma {:induction false} MulDouble(a: nat, b: nat)
    ensures Mul(2 * a, b) == 2 * Mul(a, b)
  {
    if b != 0 {
      MulDouble(a, b / 2);
      XorDouble(if b % 2 == 1 then a else 0, 2 * Mul(a, b / 2));
    }
  }

  lemma MulDoubleRight(a: nat, b: nat)
    ensures Mul(a, 2 * b) == 2 * Mul(a, b)
  {
    if b != 0 {
      XorZero(2 * Mul(a, b));
    }
  }

  /** Exclusive-or of two sums, regrouped. */
  lemma XorSwap(a: nat, b: nat, c: nat, d: nat)
    ensures Xor(Xor(a, b), Xor(c, d)) == Xor(Xor(a, c), Xor(b, d))
  {
    XorBits();
    BitExt(Xor(Xor(a, b), Xor(c, d)), Xor(Xor(a, c), Xor(b, d)));
  }

  lemma {:induction false} MulDistLeft(a: nat, c: nat, b: nat)
    ensures Mul(Xor(a, c), b) == Xor(Mul(a, b), Mul(c, b))
    decreases b
  {
    if b == 0 {
      XorZero(0);
    } else {
      MulDistLeft(a, c, b / 2);
      XorDouble(Mul(a, b / 2), Mul(c, b / 2));
      XorZero(0);
      if b % 2 == 1 {
        XorSwap(a, c, 2 * Mul(a, b / 2), 2 * Mul(c, b / 2));
      } else {
        XorSwap(0, 0, 2 * Mul(a, b / 2), 2 * Mul(c, b / 2));
      }
    }
  }

  /** A number is its low bit plus twice the rest, and the sum is an exclusive-or. */
  lemma LowBit(b: nat)
    ensures b == Xor(b % 2, 2 * (b / 2))
  {
    XorZero(b / 2);
    assert (b % 2) / 2 == 0;
    XorZero(2 * (b / 2));
  }

  lemma {:induction false} MulComm(a: nat, b: nat)
    ensures Mul(a, b) == Mul(b, a)
    decreases b
  {
    if b == 0 {
      MulZero(a);
    } else {
      MulComm(a, b / 2);
      LowBit(b);
      MulDistLeft(b % 2, 2 * (b / 2), a);
      MulDouble(b / 2, a);
      MulByBit(b % 2, a);
    }
  }

  lemma {:induction false} MulByBit(bit: nat, a: nat)
    requires bit < 2
    ensures Mul(bit, a) == if bit == 1 then a else 0
  {
    if bit == 0 {
      MulZero(a);
    } else if a != 0 {
      MulByBit(1, a / 2);
      LowBit(a);
    }
  }

  lemma MulDistRight(a: nat, b: nat, c: nat)
    ensures Mul(a, Xor(b, c)) == Xor(Mul(a, b), Mul(a, c))
  {
    MulComm(a, Xor(b, c));
    MulDistLeft(b, c, a);
    MulComm(a, b);
    MulComm(a, c);
  }

  lemma {:induction false} MulAssoc(a: nat, b: nat, c: nat)
    ensures Mul(Mul(a, b), c) == Mul(a, Mul(b, c))
    decreases c
  {
    if c == 0 {
      MulZero(a);
    } else {
      MulAssoc(a, b, c / 2);
      var bit := if c % 2 == 1 then b else 0;
      MulDistRight(a, bit, 2 * Mul(b, c / 2));
      MulDoubleRight(a, Mul(b, c / 2));
      MulZero(a);
    }
  }

  lemma {:induction false} ShlIsMul(a: nat, j: nat)
    ensures Shl(a, j) == Mul(Shl(1, j), a) == Mul(a, Shl(1, j))
  {
    if j == 0 {
      MulOne(a);
    } else {
      ShlIsMul(a, j - 1);
      MulDouble(Shl(1, j - 1), a);
    }
    MulComm(Shl(1, j), a);
  }

  /** Degrees add, so the ring has no zero divisors. */
  lemma {:induction false} MulLen(a: nat, b: nat)
    requires a != 0 && b != 0
    ensures Mul(a, b) != 0 && BitLen(Mul(a, b)) == BitLen(a) + BitLen(b) - 1
    decreases b
  {
    if b == 1 {
      MulOne(a);
    } else {
      MulLen(a, b / 2);
      var high := 2 * Mul(a, b / 2);
      assert BitLen(high) == 1 + BitLen(Mul(a, b / 2));
      XorLen(a, high);
      XorZero(high);
    }
  }

  lemma {:induction false} SpreadIsSquare(a: nat)
    ensures Spread(a) == Mul(a, a)
  {
    if a != 0 {
      var h, bit := a / 2, a % 2;
      SpreadIsSquare(h);
      LowBit(a);
      assert Mul(a, a) == Xor(Mul(bit, bit), Mul(2 * h, 2 * h)) by { SquareAdditive(bit, 2 * h); }
      assert Mul(bit, bit) == bit by { MulByBit(bit, bit); }
      assert Mul(2 * h, 2 * h) == 4 * Mul(h, h) by {
        MulDouble(h, 2 * h);
        MulDoubleRight(h, h);
      }
      LowBit(4 * Mul(h, h) + bit);
    }
  }

  /** Squaring is additive: the two cross terms cancel. */
  lemma SquareAdditive(a: nat, b: nat)
    ensures Mul(Xor(a, b), Xor(a, b)) == Xor(Mul(a, a), Mul(b, b))
  {
    var s := Xor(a, b);
    MulDistLeft(a, b, s);
    MulDistRight(a, a, b);
    MulDistRight(b, a, b);
    MulComm(a, b);
    XorBits();
    BitExt(Mul(s, s), Xor(Mul(a, a), Mul(b, b)));
  }

  // ---------------------------------------------------------------- division

  lemma {:induction false} ModBound(a: nat, poly: nat)
    requires poly != 0
    ensures BitLen(Mod(a, poly)) < BitLen(poly)
    decreases BitLen(a)
  {
    if BitLen(a) >= BitLen(poly) {
      ModStepLen(a, poly);
      ModBound(ModStep(a, poly), poly);
    }
  }

  /** `Mod` leaves a remainder: `a` is a multiple of `poly` plus `Mod(a, poly)`. */
  lemma {:induction false} Divide(a: nat, poly: nat) returns (q: nat)
    requires poly != 0
    ensures a == Xor(Mul(q, poly), Mod(a, poly))
    decreases BitLen(a)
  {
    if BitLen(a) < BitLen(poly) {
      q := 0;
      MulZero(poly);
      XorZero(a);
    } else {
      ModStepLen(a, poly);
      var j := BitLen(a) - BitLen(poly);
      var q' := Divide(ModStep(a, poly), poly);
      q := Xor(Shl(1, j), q');
      MulDistLeft(Shl(1, j), q', poly);
      ShlIsMul(poly, j);
      XorMove(a, Shl(poly, j), Mul(q', poly), Mod(a, poly));
    }
  }

  /** A summand moves to the other side of an equation unchanged. */
  lemma XorMove(a: nat, b: nat, c: nat, d: nat)
    requires Xor(a, b) == Xor(c, d)
    ensures a == Xor(Xor(b, c), d) && Xor(a, c) == Xor(b, d)
  {
    forall k: nat
      ensures Bit(a, k) == Bit(Xor(Xor(b, c), d), k) && Bit(Xor(a, c), k) == Bit(Xor(b, d), k)
    {
      XorBits();
      assert Bit(Xor(a, b), k) == Bit(Xor(c, d), k);
    }
    BitExt(a, Xor(Xor(b, c), d));
    BitExt(Xor(a, c), Xor(b, d));
  }

  /** It is the only remainder shorter than `poly`, and the quotient is the only quotient. */
  lemma RemainderUnique(a: nat, poly: nat, q: nat, r: nat)
    requires poly != 0
    requires a == Xor(Mul(q, poly), r) && BitLen(r) < BitLen(poly)
    ensures r == Mod(a, poly)
    ensures forall q': nat :: a == Xor(Mul(q', poly), r) ==> q' == q
  {
    forall q': nat, r': nat
      | a == Xor(Mul(q', poly), r') && BitLen(r') < BitLen(poly)
      ensures q' == q && r' == r
    {
      var d, e := Xor(q, q'), Xor(r, r');
      MulDistLeft(q, q', poly);
      XorMove(Mul(q, poly), r, Mul(q', poly), r');
      XorLen(r, r');
      if d != 0 {
        MulLen(d, poly);
        assert false;
      }
      MulZero(poly);
      XorCancel(q, q');
      XorCancel(r, r');
    }
    var q0 := Divide(a, poly);
    ModBound(a, poly);
  }

  lemma ModOfReduced(a: nat, poly: nat)
    requires BitLen(a) < BitLen(poly)
    ensures poly != 0 && Mod(a, poly) == a
  {
  }

  lemma ModXor(a: nat, b: nat, poly: nat)
    requires poly != 0
    ensures Mod(Xor(a, b), poly) == Xor(Mod(a, poly), Mod(b, poly))
  {
    var qa := Divide(a, poly);
    var qb := Divide(b, poly);
    var ra, rb := Mod(a, poly), Mod(b, poly);
    MulDistLeft(qa, qb, poly);
    XorSwap(Mul(qa, poly), ra, Mul(qb, poly), rb);
    ModBound(a, poly);
    ModBound(b, poly);
    XorLen(ra, rb);
    RemainderUnique(Xor(a, b), poly, Xor(qa, qb), Xor(ra, rb));
  }

  lemma ModOfMultiple(q: nat, poly: nat)
    requires poly != 0
    ensures Mod(Mul(q, poly), poly) == 0
  {
    XorZero(Mul(q, poly));
    assert BitLen(0) < BitLen(poly);
    RemainderUnique(Mul(q, poly), poly, q, 0);
  }

  /** Reducing an operand first does not change a product. */
  lemma ModMul(a: nat, b: nat, poly: nat)
    requires poly != 0
    ensures MulMod(Mod(a, poly), b, poly) == MulMod(a, b, poly) == MulMod(a, Mod(b, poly), poly)
  {
    ModMulLeft(a, b, poly);
    ModMulLeft(b, a, poly);
    MulComm(a, b);
    MulComm(a, Mod(b, poly));
  }

  lemma ModMulLeft(a: nat, b: nat, poly: nat)
    requires poly != 0
    ensures MulMod(Mod(a, poly), b, poly) == MulMod(a, b, poly)
  {
    var q := Divide(a, poly);
    var r := Mod(a, poly);
    MulDistLeft(Mul(q, poly), r, b);
    MulAssoc(q, poly, b);
    MulComm(poly, b);
    MulAssoc(q, b, poly);
    ModXor(Mul(Mul(q, poly), b), Mul(r, b), poly);
    ModOfMultiple(Mul(q, b), poly);
    XorZero(MulMod(r, b, poly));
  }

  // ---------------------------------------------------------------- the quotient ring

  lemma MulModComm(a: nat, b: nat, poly: nat)
    requires poly != 0
    ensures MulMod(a, b, poly) == MulMod(b, a, poly)
  {
    MulComm(a, b);
  }

  lemma MulModAssoc(a: nat, b: nat, c: nat, poly: nat)
    requires poly != 0
    ensures MulMod(MulMod(a, b, poly), c, poly) == MulMod(a, MulMod(b, c, poly), poly)
  {
    ModMul(Mul(a, b), c, poly);
    ModMul(a, Mul(b, c), poly);
    MulAssoc(a, b, c);
  }

  lemma MulModDist(a: nat, b: nat, c: nat, poly: nat)
    requires poly != 0
    ensures MulMod(a, Xor(b, c), poly) == Xor(MulMod(a, b, poly), MulMod(a, c, poly))
    ensures MulMod(Xor(b, c), a, poly) == Xor(MulMod(b, a, poly), MulMod(c, a, poly))
  {
    MulDistRight(a, b, c);
    ModXor(Mul(a, b), Mul(a, c), poly);
    MulComm(a, Xor(b, c));
    MulComm(a, b);
    MulComm(a, c);
  }

  lemma SqrModAdditive(a: nat, b: nat, poly: nat)
    requires poly != 0
    ensures MulMod(Xor(a, b), Xor(a, b), poly) == Xor(MulMod(a, a, poly), MulMod(b, b, poly))
  {
    SquareAdditive(a, b);
    ModXor(Mul(a, a), Mul(b, b), poly);
  }
}
