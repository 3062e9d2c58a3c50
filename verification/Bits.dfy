/** Python's non-negative integers read as strings of bits: the operators `^`, `|`, `<<` and
    `int.bit_length` that the curve arithmetic is written with. Two numbers with the same bits are
    equal (`BitExt`), which turns every exclusive-or identity into a propositional one. */
module Bits {

  function Bit(a: nat, k: nat): bool {
    if k == 0 then a % 2 == 1 else Bit(a / 2, k - 1)
  }

  function BitLen(a: nat): nat {
    if a == 0 then 0 else 1 + BitLen(a / 2)
  }

  function Xor(a: nat, b: nat): nat
    decreases a + b
  {
    if a == 0 && b == 0 then 0
    else 2 * Xor(a / 2, b / 2) + (if a % 2 == b % 2 then 0 else 1)
  }

  function Or(a: nat, b: nat): nat
    decreases a + b
  {
    if a == 0 && b == 0 then 0
    else 2 * Or(a / 2, b / 2) + (if a % 2 == 1 || b % 2 == 1 then 1 else 0)
  }

  function Shl(a: nat, j: nat): nat {
    if j == 0 then a else 2 * Shl(a, j - 1)
  }

  function Shr(a: nat, j: nat): nat {
    if j == 0 then a else Shr(a, j - 1) / 2
  }

  lemma {:induction false} BitExt(a: nat, b: nat)
    requires forall k: nat :: Bit(a, k) == Bit(b, k)
    ensures a == b
    decreases a + b
  {
    assert Bit(a, 0) == Bit(b, 0);
    if a != 0 || b != 0 {
      forall k: nat ensures Bit(a / 2, k) == Bit(b / 2, k) {
        assert Bit(a, k + 1) == Bit(b, k + 1);
      }
      BitExt(a / 2, b / 2);
    }
  }

  lemma {:induction false} BitOfZero(k: nat)
    ensures !Bit(0, k)
  {
    if k > 0 { BitOfZero(k - 1); }
  }

  lemma {:induction false} BitOfXor(a: nat, b: nat, k: nat)
    ensures Bit(Xor(a, b), k) == (Bit(a, k) != Bit(b, k))
    decreases k
  {
    if a == 0 && b == 0 {
      BitOfZero(k);
    } else if k > 0 {
      assert Xor(a, b) / 2 == Xor(a / 2, b / 2);
      BitOfXor(a / 2, b / 2, k - 1);
    }
  }

  /** Brings the bitwise meaning of `Xor` into scope for every operand. */
  lemma XorBits()
    ensures forall a: nat, b: nat, k: nat {:trigger Bit(Xor(a, b), k)} ::
              Bit(Xor(a, b), k) == (Bit(a, k) != Bit(b, k))
    ensures forall k: nat {:trigger Bit(0, k)} :: !Bit(0, k)
  {
    forall a: nat, b: nat, k: nat ensures Bit(Xor(a, b), k) == (Bit(a, k) != Bit(b, k)) {
      BitOfXor(a, b, k);
    }
    forall k: nat ensures !Bit(0, k) { BitOfZero(k); }
  }

  lemma XorComm(a: nat, b: nat)
    ensures Xor(a, b) == Xor(b, a)
  {
  }

  lemma XorAssoc(a: nat, b: nat, c: nat)
    ensures Xor(Xor(a, b), c) == Xor(a, Xor(b, c))
  {
  }

  lemma XorZero(a: nat)
    ensures Xor(a, 0) == a && Xor(0, a) == a
  {
  }

  lemma XorSelf(a: nat)
    ensures Xor(a, a) == 0
  {
  }

  lemma XorCancel(a: nat, b: nat)
    ensures Xor(a, Xor(a, b)) == b && (Xor(a, b) == 0 <==> a == b)
  {
  }

  lemma XorDouble(a: nat, b: nat)
    ensures Xor(2 * a, 2 * b) == 2 * Xor(a, b)
  {
  }

  /** The length of a sum: the longer operand decides, and equal lengths cancel the top bit. */
  lemma {:induction false} XorLen(a: nat, b: nat)
    ensures BitLen(a) < BitLen(b) ==> BitLen(Xor(a, b)) == BitLen(b) && BitLen(Xor(b, a)) == BitLen(b)
    ensures BitLen(a) == BitLen(b) != 0 ==> BitLen(Xor(a, b)) < BitLen(a)
    ensures BitLen(Xor(a, b)) <= (if BitLen(a) < BitLen(b) then BitLen(b) else BitLen(a))
    decreases a + b
  {
    XorComm(a, b);
    if a != 0 || b != 0 {
      XorLen(a / 2, b / 2);
      assert Xor(a, b) / 2 == Xor(a / 2, b / 2);
      XorZero(a);
      XorZero(b);
    }
  }

  lemma {:induction false} ShlLen(a: nat, j: nat)
    ensures a != 0 ==> Shl(a, j) != 0 && BitLen(Shl(a, j)) == BitLen(a) + j
    ensures a == 0 ==> Shl(a, j) == 0
  {
    if j > 0 { ShlLen(a, j - 1); }
  }

  lemma {:induction false} ShlDouble(a: nat, j: nat)
    ensures Shl(2 * a, j) == 2 * Shl(a, j)
  {
    if j > 0 { ShlDouble(a, j - 1); }
  }

  /** Setting a bit above everything already set is an addition. */
  lemma {:induction false} OrAbove(a: nat, j: nat)
    requires a < Shl(1, j)
    ensures Or(a, Shl(1, j)) == a + Shl(1, j)
  {
    if j == 0 {
      assert a == 0;
      assert Or(0, 1) == 2 * Or(0, 0) + 1;
    } else {
      assert a / 2 < Shl(1, j - 1);
      OrAbove(a / 2, j - 1);
      assert Shl(1, j) / 2 == Shl(1, j - 1) && Shl(1, j) % 2 == 0;
      ShlLen(1, j);
    }
  }

  lemma {:induction false} LenBound(a: nat, n: nat)
    ensures BitLen(a) <= n <==> a < Shl(1, n)
  {
    if n == 0 {
    } else if a > 0 {
      LenBound(a / 2, n - 1);
      assert Shl(1, n) == 2 * Shl(1, n - 1);
    } else {
      ShlLen(1, n);
    }
  }
}
