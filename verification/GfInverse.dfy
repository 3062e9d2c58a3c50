/** `gf2_inv` of hub/ecc.py: the extended Euclidean algorithm on polynomials over GF(2). The loop
    ends exactly when its argument has no factor in common with the reducing polynomial, and what it
    then returns is the one reduced inverse. */
module GfInverse {
  import opened Bits
  import opened GfPoly

  ghost predicate Divides(d: nat, a: nat) {
    exists q: nat :: Mul(q, d) == a
  }

  ghost predicate Coprime(a: nat, b: nat) {
    forall d: nat :: Divides(d, a) && Divides(d, b) ==> d == 1
  }

  ghost predicate Irreducible(poly: nat) {
    BitLen(poly) >= 2 && forall d: nat :: Divides(d, poly) ==> d == 1 || d == poly
  }

  // ---------------------------------------------------------------- one iteration

  /** The four variables of the loop. */
  datatype Euclid = Euclid(u: nat, v: nat, g1: nat, g2: nat)

  function Start(a: nat, poly: nat): Euclid {
    Euclid(a, poly, 1, 0)
  }

  function Swapped(s: Euclid): Euclid {
    if BitLen(s.u) < BitLen(s.v) then Euclid(s.v, s.u, s.g2, s.g1) else s
  }

  /** One pass through the body, whatever the guard says. */
  function Step(s: Euclid): Euclid {
    var t := Swapped(s);
    var j := BitLen(t.u) - BitLen(t.v);
    Euclid(Xor(t.u, Shl(t.v, j)), t.v, Xor(t.g1, Shl(t.g2, j)), t.g2)
  }

  function Steps(s: Euclid, n: nat): Euclid
    decreases n
  {
    if n == 0 then s else Steps(Step(s), n - 1)
  }

  /** `a*g1` is `u` and `a*g2` is `v`, modulo `poly`. */
  predicate Bezout(s: Euclid, a: nat, poly: nat)
    requires poly != 0
  {
    MulMod(a, s.g1, poly) == Mod(s.u, poly) && MulMod(a, s.g2, poly) == Mod(s.v, poly)
  }

  /** What holds at the loop head when `a` and `poly` are coprime: neither polynomial is zero, the
      second is never one, and the two stay coprime. */
  ghost predicate Running(s: Euclid) {
    s.u != 0 && s.v != 0 && s.v != 1 && Coprime(s.u, s.v)
  }

  function Size(s: Euclid): nat {
    BitLen(s.u) + BitLen(s.v)
  }

  lemma BezoutStart(a: nat, poly: nat)
    requires poly != 0
    ensures Bezout(Start(a, poly), a, poly)
  {
    MulOne(a);
    MulZero(a);
    MulOne(poly);
    ModOfMultiple(1, poly);
    assert BitLen(0) == 0 < BitLen(poly);
  }

  lemma BezoutStep(s: Euclid, a: nat, poly: nat)
    requires poly != 0 && Bezout(s, a, poly)
    ensures Bezout(Step(s), a, poly)
  {
    var t := Swapped(s);
    BezoutCombine(t, BitLen(t.u) - BitLen(t.v), a, poly);
  }

  lemma BezoutCombine(t: Euclid, j: nat, a: nat, poly: nat)
    requires poly != 0 && Bezout(t, a, poly)
    ensures MulMod(a, Xor(t.g1, Shl(t.g2, j)), poly) == Mod(Xor(t.u, Shl(t.v, j)), poly)
  {
    MulModDist(a, t.g1, Shl(t.g2, j), poly);
    ModXor(t.u, Shl(t.v, j), poly);
    BezoutShift(t.g2, t.v, j, a, poly);
  }

  lemma BezoutShift(g: nat, v: nat, j: nat, a: nat, poly: nat)
    requires poly != 0 && MulMod(a, g, poly) == Mod(v, poly)
    ensures MulMod(a, Shl(g, j), poly) == Mod(Shl(v, j), poly)
  {
    var x := Shl(1, j);
    ShlIsMul(v, j);
    ShlIsMul(g, j);
    MulAssoc(a, g, x);
    ModMulLeft(Mul(a, g), x, poly);
    ModMulLeft(v, x, poly);
  }

  lemma {:induction false} BezoutSteps(s: Euclid, n: nat, a: nat, poly: nat) returns (t: Euclid)
    requires poly != 0 && Bezout(s, a, poly)
    ensures t == Steps(s, n) && Bezout(t, a, poly)
    decreases n
  {
    hide Bezout, Step;
    t := s;
    if n > 0 {
      BezoutStep(s, a, poly);
      t := BezoutSteps(Step(s), n - 1, a, poly);
    }
  }

  lemma DividesSum(d: nat, a: nat, b: nat)
    requires Divides(d, a) && Divides(d, b)
    ensures Divides(d, Xor(a, b))
  {
    var p: nat :| Mul(p, d) == a;
    var q: nat :| Mul(q, d) == b;
    MulDistLeft(p, q, d);
    assert Mul(Xor(p, q), d) == Xor(a, b);
  }

  lemma DividesProduct(d: nat, a: nat, b: nat)
    requires Divides(d, a)
    ensures Divides(d, Mul(a, b)) && Divides(d, Mul(b, a))
  {
    var p: nat :| Mul(p, d) == a;
    MulAssoc(b, p, d);
    assert Mul(Mul(b, p), d) == Mul(b, a);
    MulComm(a, b);
  }

  lemma DividesOne(d: nat)
    requires Divides(d, 1)
    ensures d == 1
  {
    var q: nat :| Mul(q, d) == 1;
    MulZero(q);
    MulZero(d);
    MulLen(q, d);
    assert BitLen(1) == 1;
    assert d / 2 == 0;
  }

  lemma CoprimeComm(a: nat, b: nat)
    requires Coprime(a, b)
    ensures Coprime(b, a)
  {
  }

  /** The loop invariant survives an iteration, and the two lengths shrink. */
  lemma StepRuns(s: Euclid)
    requires Running(s) && s.u != 1
    ensures Running(Step(s)) && Size(Step(s)) < Size(s)
  {
    var t := Swapped(s);
    CoprimeComm(s.u, s.v);
    var j := BitLen(t.u) - BitLen(t.v);
    var shifted := Shl(t.v, j);
    var u' := Xor(t.u, shifted);
    MulOne(t.v);
    assert Divides(t.v, t.v) by { assert Mul(1, t.v) == t.v; }
    ShlIsMul(t.v, j);
    DividesProduct(t.v, t.v, Shl(1, j));
    if u' == 0 {
      XorCancel(t.u, shifted);
      assert false;
    }
    ShlLen(t.v, j);
    XorLen(t.u, shifted);
    forall d: nat | Divides(d, u') && Divides(d, t.v) ensures d == 1 {
      DividesProduct(d, t.v, Shl(1, j));
      DividesSum(d, u', shifted);
      XorAssoc(t.u, shifted, shifted);
      XorSelf(shifted);
      XorZero(t.u);
      assert Divides(d, t.u);
    }
  }

  lemma StartRuns(a: nat, poly: nat)
    requires a != 0 && BitLen(poly) >= 2 && Coprime(a, poly)
    ensures Running(Start(a, poly))
  {
  }

  lemma {:induction false} StepsReachOne(s: Euclid) returns (n: nat)
    requires Running(s)
    ensures Steps(s, n).u == 1
    decreases Size(s)
  {
    if s.u == 1 {
      n := 0;
    } else {
      StepRuns(s);
      var m := StepsReachOne(Step(s));
      n := m + 1;
    }
  }

  // ---------------------------------------------------------------- results

  /** The loop reaches its exit `u == 1` if and only if `a` and `poly` are coprime. */
  lemma InverseLoopEnds(a: nat, poly: nat)
    requires a != 0 && BitLen(poly) >= 2
    ensures (exists n: nat :: Steps(Start(a, poly), n).u == 1) <==> Coprime(a, poly)
  {
    if Coprime(a, poly) {
      StartRuns(a, poly);
      var n := StepsReachOne(Start(a, poly));
    }
    if n: nat :| Steps(Start(a, poly), n).u == 1 {
      BezoutStart(a, poly);
      var s := BezoutSteps(Start(a, poly), n, a, poly);
      InvertibleIsCoprime(a, s.g1, poly);
    }
  }

  lemma InvertibleIsCoprime(a: nat, g: nat, poly: nat)
    requires BitLen(poly) >= 2 && MulMod(a, g, poly) == Mod(1, poly)
    ensures Coprime(a, poly)
  {
    assert BitLen(1) == 1;
    ModOfReduced(1, poly);
    var q := Divide(Mul(a, g), poly);
    forall d: nat | Divides(d, a) && Divides(d, poly) ensures d == 1 {
      DividesProduct(d, a, g);
      DividesProduct(d, poly, q);
      DividesSum(d, Mul(a, g), Mul(q, poly));
      XorComm(Mul(q, poly), 1);
      XorAssoc(1, Mul(q, poly), Mul(q, poly));
      XorSelf(Mul(q, poly));
      XorZero(1);
      XorComm(Mul(a, g), Mul(q, poly));
      DividesOne(d);
    }
  }

  ghost predicate IsInverse(r: nat, a: nat, poly: nat)
    requires poly != 0
  {
    BitLen(r) < BitLen(poly) && MulMod(a, r, poly) == 1
  }

  lemma InverseUnique(r: nat, s: nat, a: nat, poly: nat)
    requires BitLen(poly) >= 2 && IsInverse(r, a, poly) && IsInverse(s, a, poly)
    ensures r == s
  {
    MulModAssoc(r, a, s, poly);
    MulModComm(r, a, poly);
    MulOne(r);
    MulOne(s);
  }

  lemma InverseFromExit(s: Euclid, a: nat, poly: nat)
    requires BitLen(poly) >= 2 && Bezout(s, a, poly) && s.u == 1
    ensures IsInverse(Mod(s.g1, poly), a, poly)
  {
    assert BitLen(1) == 1;
    ModOfReduced(1, poly);
    ModBound(s.g1, poly);
    ModMul(a, s.g1, poly);
  }

  /** The values of the loop variables at the exit. */
  function Exit(s: Euclid): Euclid
    requires Running(s)
    decreases Size(s)
  {
    if s.u == 1 then s else StepRuns(s); Exit(Step(s))
  }

  /** The reduced inverse of `a`, which `gf2_inv` computes. */
  function Inverse(a: nat, poly: nat): nat
    requires a != 0 && BitLen(poly) >= 2 && Coprime(a, poly)
  {
    StartRuns(a, poly);
    Mod(Exit(Start(a, poly)).g1, poly)
  }

  lemma {:induction false} ExitCorrect(s: Euclid, a: nat, poly: nat)
    requires poly != 0 && Running(s) && Bezout(s, a, poly)
    ensures Exit(s).u == 1 && Bezout(Exit(s), a, poly)
    decreases Size(s)
  {
    if s.u != 1 {
      StepRuns(s);
      BezoutStep(s, a, poly);
      ExitCorrect(Step(s), a, poly);
    }
  }

  /** Every argument coprime to `poly` gets its inverse, and no other number is one. */
  lemma InverseCorrect(a: nat, poly: nat)
    requires a != 0 && BitLen(poly) >= 2 && Coprime(a, poly)
    ensures forall r: nat :: IsInverse(r, a, poly) <==> r == Inverse(a, poly)
  {
    StartRuns(a, poly);
    BezoutStart(a, poly);
    ExitCorrect(Start(a, poly), a, poly);
    InverseFromExit(Exit(Start(a, poly)), a, poly);
    forall r: nat | IsInverse(r, a, poly) ensures r == Inverse(a, poly) {
      InverseUnique(r, Inverse(a, poly), a, poly);
    }
  }

  datatype Quotient = Value(value: nat) | ZeroDivision

  /** `gf2_inv`. An argument sharing a factor with `poly` never leaves the source's loop
      (`InverseLoopEnds`), so it is shut out here. */
  method GfInv(a: nat, poly: nat) returns (r: Quotient)
    requires BitLen(poly) >= 2 && (a != 0 ==> Coprime(a, poly))
    ensures a == 0 <==> r == ZeroDivision
    ensures a != 0 ==> r == Value(Inverse(a, poly))
  {
    hide Running, Bezout, BitLen, Xor, Shl, Mod, Coprime;
    if a == 0 { return ZeroDivision; }
    var u, v, g1: nat, g2: nat := a, poly, 1, 0;
    StartRuns(a, poly);
    BezoutStart(a, poly);
    while u != 1
      invariant Running(Euclid(u, v, g1, g2)) && Bezout(Euclid(u, v, g1, g2), a, poly)
      decreases BitLen(u) + BitLen(v)
    {
      StepRuns(Euclid(u, v, g1, g2));
      BezoutStep(Euclid(u, v, g1, g2), a, poly);
      var j := BitLen(u) - BitLen(v);
      if j < 0 {
        u, v := v, u;
        g1, g2 := g2, g1;
        j := -j;
      }
      u := Xor(u, Shl(v, j));
      g1 := Xor(g1, Shl(g2, j));
    }
    InverseFromExit(Euclid(u, v, g1, g2), a, poly);
    var reduced := GfMod(g1, poly);
    InverseCorrect(a, poly);
    r := Value(reduced);
  }

  /** Over an irreducible polynomial every nonzero reduced element is invertible. */
  lemma ReducedIsCoprime(a: nat, poly: nat)
    requires Irreducible(poly) && 0 < BitLen(a) < BitLen(poly)
    ensures Coprime(a, poly)
  {
    forall d: nat | Divides(d, a) && Divides(d, poly) ensures d == 1 {
      if d == poly {
        var q: nat :| Mul(q, d) == a;
        MulZero(d);
        MulLen(q, d);
        assert false;
      }
    }
  }
}
