/** Scalar multiplication: the left-to-right double-and-add loops of hub/ecc.py against the k-fold
    sum. Associativity of the group law is a hypothesis (`IsGroup`); closure, commutativity and
    inverses are proved in `Curve`. */
module Scalar {
  import opened Bits
  import opened GfInverse
  import opened Curve

  function Add(p: Point, q: Point, c: Curve): (r: Point)
    requires IsField(c) && OnCurve(p, c) && OnCurve(q, c)
    ensures OnCurve(r, c)
  {
    AddOnCurve(p, q, c);
    PointAdd(p, q, c)
  }

  ghost predicate IsGroup(c: Curve) {
    IsField(c) && forall p: Point, q: Point, r: Point :: Associates(p, q, r, c)
  }

  ghost predicate Associates(p: Point, q: Point, r: Point, c: Curve)
    requires IsField(c)
  {
    OnCurve(p, c) && OnCurve(q, c) && OnCurve(r, c)
    ==> Add(Add(p, q, c), r, c) == Add(p, Add(q, r, c), c)
  }

  /** p + ... + p, k times. */
  function Times(k: nat, p: Point, c: Curve): (r: Point)
    requires IsField(c) && OnCurve(p, c)
    ensures OnCurve(r, c)
    decreases k
  {
    if k == 0 then Infinity else Add(Times(k - 1, p, c), p, c)
  }

  // ---------------------------------------------------------------- laws of the k-fold sum

  lemma {:induction false} TimesAdd(m: nat, n: nat, p: Point, c: Curve)
    requires IsGroup(c) && OnCurve(p, c)
    ensures Times(m + n, p, c) == Add(Times(m, p, c), Times(n, p, c), c)
    decreases n
  {
    hide Add, OnCurve;
    AddIdentity(Times(m, p, c), c);
    if n > 0 {
      TimesAdd(m, n - 1, p, c);
      assert Times(m + n, p, c) == Add(Times(m + n - 1, p, c), p, c);
      var a, b := Times(m, p, c), Times(n - 1, p, c);
      assert Associates(a, b, p, c);
    }
  }

  lemma {:induction false} TimesInfinity(k: nat, c: Curve)
    requires IsField(c)
    ensures Times(k, Infinity, c) == Infinity
  {
    if k > 0 { TimesInfinity(k - 1, c); }
  }

  lemma {:induction false} TimesTimes(m: nat, n: nat, p: Point, c: Curve)
    requires IsGroup(c) && OnCurve(p, c)
    ensures Times(m, Times(n, p, c), c) == Times(m * n, p, c)
    decreases m
  {
    hide Add, OnCurve;
    if m > 0 {
      TimesTimes(m - 1, n, p, c);
      TimesAdd((m - 1) * n, n, p, c);
      assert (m - 1) * n + n == m * n;
    }
  }

  /** Where n*p is infinity, only the scalar modulo n matters. */
  lemma TimesMod(k: nat, n: nat, p: Point, c: Curve)
    requires IsGroup(c) && OnCurve(p, c) && n > 0 && Times(n, p, c) == Infinity
    ensures Times(k % n, p, c) == Times(k, p, c)
  {
    hide Add, OnCurve;
    var q := k / n;
    TimesTimes(q, n, p, c);
    TimesInfinity(q, c);
    TimesAdd(q * n, k % n, p, c);
    AddIdentity(Times(k % n, p, c), c);
    assert q * n + k % n == k;
  }

  lemma InfinityOnCurve(c: Curve)
    requires IsField(c)
    ensures OnCurve(Infinity, c)
  {
  }

  lemma AddIdentity(p: Point, c: Curve)
    requires IsField(c) && OnCurve(p, c)
    ensures Add(p, Infinity, c) == p && Add(Infinity, p, c) == p
  {
  }

  lemma DoubleIsAdd(p: Point, c: Curve)
    requires IsField(c) && OnCurve(p, c)
    ensures ReducedPoint(p, c) && PointDouble(p, c) == Add(p, p, c)
  {
  }

  lemma AddIsPointAdd(p: Point, q: Point, c: Curve)
    requires IsField(c) && OnCurve(p, c) && OnCurve(q, c)
    ensures ReducedPoint(p, c) && ReducedPoint(q, c) && Add(p, q, c) == PointAdd(p, q, c)
  {
  }

  // ---------------------------------------------------------------- the loops

  lemma ShrAll(k: nat, i: nat)
    requires i >= BitLen(k)
    ensures Shr(k, i) == 0
    decreases i
  {
    ShrLen(k, i);
  }

  lemma {:induction false} ShrLen(k: nat, i: nat)
    ensures BitLen(Shr(k, i)) == if BitLen(k) <= i then 0 else BitLen(k) - i
    decreases i
  {
    if i > 0 { ShrLen(k, i - 1); }
  }

  /** `_mul_no_reduce`: double-and-add from the top bit down is the k-fold sum. */
  method MulNoReduce(k: nat, p: Point, c: Curve) returns (result: Point)
    requires IsGroup(c) && OnCurve(p, c)
    ensures result == Times(k, p, c)
  {
    hide Add, OnCurve, PointAdd, PointDouble;
    InfinityOnCurve(c);
    result := Infinity;
    ShrAll(k, BitLen(k));
    var i := BitLen(k);
    while i > 0
      invariant result == Times(Shr(k, i), p, c)
    {
      i := i - 1;
      ghost var high := Shr(k, i + 1);
      assert Shr(k, i) == 2 * high + Shr(k, i) % 2;
      TimesAdd(high, high, p, c);
      TimesAdd(2 * high, 1, p, c);
      OnceIsPoint(p, c);
      DoubleIsAdd(result, c);
      result := PointDouble(result, c);
      if Shr(k, i) % 2 == 1 {
        AddIsPointAdd(result, p, c);
        result := PointAdd(result, p, c);
      }
    }
  }

  /** `scalar_mult`, which takes the scalar modulo the group order first. */
  method ScalarMult(k: nat, p: Point, c: Curve, order: nat) returns (result: Point)
    requires IsGroup(c) && OnCurve(p, c) && order > 0
    ensures result == Times(k % order, p, c)
  {
    if k == 0 || p.Infinity? {
      TimesInfinity(k % order, c);
      return Infinity;
    }
    var reduced := k % order;
    if reduced == 0 {
      return Infinity;
    }
    result := MulNoReduce(reduced, p, c);
  }

  /** `_is_in_prime_subgroup`. */
  method IsInPrimeSubgroup(p: Point, c: Curve, order: nat) returns (b: bool)
    requires IsGroup(c) && OnCurve(p, c)
    ensures b <==> Times(order, p, c) == Infinity
  {
    var q := MulNoReduce(order, p, c);
    b := q.Infinity?;
  }

  // ---------------------------------------------------------------- points of prime order

  ghost predicate IsFactor(d: nat, n: nat) {
    exists q: nat :: q * d == n
  }

  ghost predicate Prime(n: nat) {
    n >= 2 && forall d: nat :: IsFactor(d, n) ==> d == 1 || d == n
  }

  lemma FactorOfSum(d: nat, n: nat, k: nat)
    requires k > 0 && IsFactor(d, k) && IsFactor(d, n % k)
    ensures IsFactor(d, n)
  {
    var i: nat :| i * d == k;
    var j: nat :| j * d == n % k;
    Distribute(n / k, i, j, d);
    assert n == n / k * k + n % k;
    var q: nat := n / k * i + j;
    assert q * d == n;
  }

  lemma Distribute(t: nat, i: nat, j: nat, d: nat)
    ensures (t * i + j) * d == t * (i * d) + j * d
  {
  }

  lemma FactorBound(d: nat, n: nat)
    requires IsFactor(d, n) && n > 0
    ensures 0 < d <= n
  {
  }

  /** If p vanishes at k and at n, it vanishes at a common factor of the two. */
  lemma {:induction false} CommonFactor(k: nat, n: nat, p: Point, c: Curve) returns (d: nat)
    requires IsGroup(c) && OnCurve(p, c) && n > 0
    requires Times(k, p, c) == Infinity && Times(n, p, c) == Infinity
    ensures IsFactor(d, k) && IsFactor(d, n) && Times(d, p, c) == Infinity
    decreases k
  {
    hide Add, OnCurve;
    if k == 0 {
      d := n;
      assert 0 * n == 0 && 1 * n == n;
    } else {
      TimesMod(n, k, p, c);
      d := CommonFactor(n % k, k, p, c);
      FactorOfSum(d, n, k);
    }
  }

  /** A point other than infinity killed by a prime n is killed by the multiples of n alone. */
  lemma PrimeOrder(k: nat, n: nat, p: Point, c: Curve)
    requires IsGroup(c) && OnCurve(p, c) && Prime(n)
    requires p != Infinity && Times(n, p, c) == Infinity
    ensures Times(k, p, c) == Infinity <==> k % n == 0
  {
    hide Add, OnCurve;
    TimesMod(k, n, p, c);
    if Times(k, p, c) == Infinity && k % n != 0 {
      var d := CommonFactor(k % n, n, p, c);
      FactorBound(d, k % n);
      OnceIsPoint(p, c);
      assert false;
    }
  }

  lemma OnceIsPoint(p: Point, c: Curve)
    requires IsField(c) && OnCurve(p, c)
    ensures Times(1, p, c) == p
  {
  }
}
