/** Affine points of y^2 + xy = x^3 + a*x^2 + b over GF(2^m) and their group law, as written in
    hub/ecc.py. Coordinates are reduced field elements. The sum of two points of the curve is a
    point of the curve because the line through them meets it in a third root of one cubic. */
module Curve {
  import opened Bits
  import opened GfPoly
  import opened GfInverse

  datatype Point = Infinity | Affine(x: nat, y: nat)

  datatype Curve = Curve(poly: nat, a: nat, b: nat)

  predicate Reduced(x: nat, c: Curve) {
    BitLen(x) < BitLen(c.poly)
  }

  /** What makes the formulas meaningful: the reducing polynomial is irreducible. */
  ghost predicate IsField(c: Curve) {
    Irreducible(c.poly) && Reduced(c.a, c) && Reduced(c.b, c)
  }

  function Prod(x: nat, y: nat, c: Curve): nat
    requires c.poly != 0
  {
    MulMod(x, y, c.poly)
  }

  function Div(y: nat, x: nat, c: Curve): nat
    requires IsField(c) && Reduced(x, c) && x != 0
  {
    ReducedIsCoprime(x, c.poly);
    Prod(y, Inverse(x, c.poly), c)
  }

  predicate Equation(x: nat, y: nat, c: Curve)
    requires c.poly != 0
  {
    Xor(Prod(y, y, c), Prod(x, y, c))
    == Xor(Xor(Prod(Prod(x, x, c), x, c), Prod(c.a, Prod(x, x, c), c)), c.b)
  }

  /** `point_on_curve`, together with the coordinates being reduced. */
  predicate OnCurve(p: Point, c: Curve)
    requires c.poly != 0
  {
    p.Infinity? || (Reduced(p.x, c) && Reduced(p.y, c) && Equation(p.x, p.y, c))
  }

  function PointNeg(p: Point): Point {
    match p
    case Infinity => p
    case Affine(x, y) => Affine(x, Xor(x, y))
  }

  predicate ReducedPoint(p: Point, c: Curve) {
    p.Affine? ==> Reduced(p.x, c) && Reduced(p.y, c)
  }

  function PointDouble(p: Point, c: Curve): Point
    requires IsField(c) && ReducedPoint(p, c)
  {
    if p.Infinity? || p.x == 0 then Infinity
    else
      var lam := Xor(p.x, Div(p.y, p.x, c));
      var x3 := Xor(Xor(Prod(lam, lam, c), lam), c.a);
      var y3 := Xor(Xor(Prod(p.x, p.x, c), Prod(lam, x3, c)), x3);
      Affine(x3, y3)
  }

  function PointAdd(p: Point, q: Point, c: Curve): Point
    requires IsField(c) && ReducedPoint(p, c) && ReducedPoint(q, c)
  {
    if p.Infinity? then q
    else if q.Infinity? then p
    else if p.x == q.x then
      if p.y == q.y then PointDouble(p, c) else Infinity
    else
      var dx := Xor(p.x, q.x);
      var dy := Xor(p.y, q.y);
      XorReduced(p.x, q.x, c);
      XorCancel(p.x, q.x);
      var lam := Div(dy, dx, c);
      var x3 := Xor(Xor(Xor(Prod(lam, lam, c), lam), dx), c.a);
      var y3 := Xor(Xor(Prod(lam, Xor(p.x, x3), c), x3), p.y);
      Affine(x3, y3)
  }

  // ---------------------------------------------------------------- field facts

  lemma XorReduced(x: nat, y: nat, c: Curve)
    requires Reduced(x, c) && Reduced(y, c)
    ensures Reduced(Xor(x, y), c)
  {
    XorLen(x, y);
  }

  lemma ProdReduced(x: nat, y: nat, c: Curve)
    requires c.poly != 0
    ensures Reduced(Prod(x, y, c), c)
  {
    ModBound(Mul(x, y), c.poly);
  }

  lemma ProdComm(x: nat, y: nat, c: Curve)
    requires c.poly != 0
    ensures Prod(x, y, c) == Prod(y, x, c)
  {
    MulModComm(x, y, c.poly);
  }

  lemma ProdAssoc(x: nat, y: nat, z: nat, c: Curve)
    requires c.poly != 0
    ensures Prod(Prod(x, y, c), z, c) == Prod(x, Prod(y, z, c), c)
  {
    MulModAssoc(x, y, z, c.poly);
  }

  lemma ProdDist(x: nat, y: nat, z: nat, c: Curve)
    requires c.poly != 0
    ensures Prod(x, Xor(y, z), c) == Xor(Prod(x, y, c), Prod(x, z, c))
    ensures Prod(Xor(y, z), x, c) == Xor(Prod(x, y, c), Prod(x, z, c))
  {
    MulModDist(x, y, z, c.poly);
    ProdComm(x, y, c);
    ProdComm(x, z, c);
  }

  lemma ProdZero(x: nat, c: Curve)
    requires c.poly != 0
    ensures Prod(x, 0, c) == 0 && Prod(0, x, c) == 0
  {
    MulZero(x);
    ModOfMultiple(0, c.poly);
    MulZero(c.poly);
  }

  lemma ProdOne(x: nat, c: Curve)
    requires c.poly != 0 && Reduced(x, c)
    ensures Prod(x, 1, c) == x && Prod(1, x, c) == x
  {
    MulOne(x);
  }

  /** The square of a sum is the sum of the squares. */
  lemma SquareSum(x: nat, y: nat, c: Curve)
    requires c.poly != 0
    ensures Prod(Xor(x, y), Xor(x, y), c) == Xor(Prod(x, x, c), Prod(y, y, c))
  {
    SqrModAdditive(x, y, c.poly);
  }

  lemma SquareProd(x: nat, y: nat, c: Curve)
    requires c.poly != 0
    ensures Prod(Prod(x, y, c), Prod(x, y, c), c) == Prod(Prod(x, x, c), Prod(y, y, c), c)
  {
    var xy := Prod(x, y, c);
    ProdAssoc(x, y, xy, c);
    ProdComm(x, y, c);
    ProdAssoc(y, y, x, c);
    ProdAssoc(y, x, y, c);
    ProdComm(y, xy, c);
    ProdAssoc(x, y, y, c);
    ProdAssoc(x, x, Prod(y, y, c), c);
  }

  lemma DivCancels(y: nat, x: nat, c: Curve)
    requires IsField(c) && Reduced(x, c) && x != 0 && Reduced(y, c)
    ensures Prod(Div(y, x, c), x, c) == y
  {
    ReducedIsCoprime(x, c.poly);
    InverseCorrect(x, c.poly);
    var r := Inverse(x, c.poly);
    assert IsInverse(r, x, c.poly);
    ProdAssoc(y, r, x, c);
    ProdComm(r, x, c);
    ProdOne(y, c);
  }

  lemma NoZeroDivisors(x: nat, y: nat, c: Curve)
    requires IsField(c) && Reduced(x, c) && Reduced(y, c)
    requires Prod(x, y, c) == 0
    ensures x == 0 || y == 0
  {
    if x != 0 {
      ReducedIsCoprime(x, c.poly);
      InverseCorrect(x, c.poly);
      var r := Inverse(x, c.poly);
      assert IsInverse(r, x, c.poly);
      ProdAssoc(r, x, y, c);
      ProdComm(r, x, c);
      ProdOne(y, c);
      ProdZero(r, c);
    }
  }

  // ---------------------------------------------------------------- a line meets the curve

  /** x^3 + aa*x^2 + k*x + e. */
  function Cubic(x: nat, aa: nat, k: nat, e: nat, c: Curve): nat
    requires c.poly != 0
  {
    var xx := Prod(x, x, c);
    Xor(Xor(Prod(xx, x, c), Prod(aa, xx, c)), Xor(Prod(k, x, c), e))
  }

  /** The coefficient of x^2 in the cubic a line of slope `lam` cuts out. */
  function LineA(lam: nat, c: Curve): nat
    requires c.poly != 0
  {
    Xor(Xor(Prod(lam, lam, c), lam), c.a)
  }

  function LineE(k: nat, c: Curve): nat
    requires c.poly != 0
  {
    Xor(c.b, Prod(k, k, c))
  }

  /** A point of the line y = lam*x + k lies on the curve exactly when x is a root of the cubic. */
  lemma LineMeetsCurve(x: nat, lam: nat, k: nat, c: Curve)
    requires c.poly != 0
    ensures Equation(x, Xor(Prod(lam, x, c), k), c)
       <==> Cubic(x, LineA(lam, c), k, LineE(k, c), c) == 0
  {
    var y := Xor(Prod(lam, x, c), k);
    var xx, ll := Prod(x, x, c), Prod(lam, lam, c);
    SquareSum(Prod(lam, x, c), k, c);
    SquareProd(lam, x, c);
    ProdDist(x, Prod(lam, x, c), k, c);
    ProdComm(x, k, c);
    LamXX(lam, x, c);
    ProdDist(xx, Xor(ll, lam), c.a, c);
    ProdDist(xx, ll, lam, c);
    ProdComm(xx, ll, c);
    ProdComm(xx, lam, c);
    ProdComm(xx, c.a, c);
    LineIdentity(Prod(ll, xx, c), Prod(k, k, c), Prod(lam, xx, c), Prod(k, x, c),
                 Prod(xx, x, c), Prod(c.a, xx, c), c.b);
    XorCancel(Xor(Prod(y, y, c), Prod(x, y, c)), Xor(Xor(Prod(xx, x, c), Prod(c.a, xx, c)), c.b));
  }

  lemma LamXX(lam: nat, x: nat, c: Curve)
    requires c.poly != 0
    ensures Prod(x, Prod(lam, x, c), c) == Prod(lam, Prod(x, x, c), c)
  {
    ProdAssoc(x, lam, x, c);
    ProdComm(x, lam, c);
    ProdAssoc(lam, x, x, c);
  }

  lemma LineIdentity(llxx: nat, kk: nat, lxx: nat, kx: nat, xxx: nat, axx: nat, b: nat)
    ensures Xor(Xor(Xor(llxx, kk), Xor(lxx, kx)), Xor(Xor(xxx, axx), b))
         == Xor(Xor(xxx, Xor(Xor(llxx, lxx), axx)), Xor(kx, Xor(b, kk)))
  {
    XorBits();
    BitExt(Xor(Xor(Xor(llxx, kk), Xor(lxx, kx)), Xor(Xor(xxx, axx), b)),
           Xor(Xor(xxx, Xor(Xor(llxx, lxx), axx)), Xor(kx, Xor(b, kk))));
  }

  /** Negating a point keeps it on the curve. */
  lemma NegEquation(x: nat, y: nat, c: Curve)
    requires c.poly != 0
    ensures Equation(x, Xor(x, y), c) <==> Equation(x, y, c)
  {
    SquareSum(x, y, c);
    ProdDist(x, x, y, c);
    XorBits();
    BitExt(Xor(Xor(Prod(x, x, c), Prod(y, y, c)), Xor(Prod(x, x, c), Prod(x, y, c))),
           Xor(Prod(y, y, c), Prod(x, y, c)));
  }

  /** The second elementary symmetric function st + sr + tr. */
  function E2(s: nat, t: nat, r: nat, c: Curve): nat
    requires c.poly != 0
  {
    Xor(Prod(s, t, c), Xor(Prod(s, r, c), Prod(t, r, c)))
  }

  function Sum3(s: nat, t: nat, r: nat): nat {
    Xor(Xor(s, t), r)
  }

  /** Two values of a cubic whose roots would sum to s + t + r differ by a multiple of s + t. */
  lemma CubicDifference(s: nat, t: nat, r: nat, k: nat, e: nat, c: Curve)
    requires c.poly != 0
    ensures Xor(Cubic(s, Sum3(s, t, r), k, e, c), Cubic(t, Sum3(s, t, r), k, e, c))
         == Prod(Xor(s, t), Xor(E2(s, t, r, c), k), c)
  {
    var ss, tt, st, sr, tr := Prod(s, s, c), Prod(t, t, c), Prod(s, t, c), Prod(s, r, c), Prod(t, r, c);
    SumTimes(s, t, r, ss, c);
    SumTimes(s, t, r, tt, c);
    E2Times(s, s, t, r, k, c);
    E2Times(t, s, t, r, k, c);
    var ek := Xor(E2(s, t, r, c), k);
    ProdDist(ek, s, t, c);
    ProdComm(ek, s, c);
    ProdComm(ek, t, c);
    // every monomial in one order
    ProdComm(s, ss, c);
    ProdComm(t, tt, c);
    ProdAssoc(s, s, t, c);  ProdComm(t, ss, c);
    ProdAssoc(s, s, r, c);  ProdComm(r, ss, c);
    ProdAssoc(t, t, r, c);  ProdComm(r, tt, c);
    ProdAssoc(t, t, s, c);  ProdComm(s, tt, c);  ProdComm(s, t, c);
    ProdAssoc(s, t, r, c);
    ProdAssoc(t, s, r, c);
    ProdComm(s, k, c);
    ProdComm(t, k, c);
    var sss, ttt, ssr, ttr := Prod(ss, s, c), Prod(tt, t, c), Prod(ss, r, c), Prod(tt, r, c);
    CancelFirst(sss, Prod(ss, t, c), ssr);
    XorComm(Prod(tt, s, c), ttt);
    CancelFirst(ttt, Prod(tt, s, c), ttr);
    CancelOthers(Xor(sss, Xor(Xor(sss, Prod(ss, t, c)), ssr)), Xor(ttt, Xor(Xor(Prod(tt, s, c), ttt), ttr)),
                 Prod(ss, t, c), ssr, Prod(tt, s, c), ttr, Prod(st, r, c), Prod(k, s, c), Prod(k, t, c), e);
  }

  lemma SumTimes(s: nat, t: nat, r: nat, z: nat, c: Curve)
    requires c.poly != 0
    ensures Prod(Sum3(s, t, r), z, c) == Xor(Xor(Prod(z, s, c), Prod(z, t, c)), Prod(z, r, c))
  {
    ProdDist(z, Xor(s, t), r, c);
    ProdDist(z, s, t, c);
  }

  lemma E2Times(z: nat, s: nat, t: nat, r: nat, k: nat, c: Curve)
    requires c.poly != 0
    ensures Prod(z, Xor(E2(s, t, r, c), k), c)
         == Xor(Xor(Prod(z, Prod(s, t, c), c),
                    Xor(Prod(z, Prod(s, r, c), c), Prod(z, Prod(t, r, c), c))), Prod(z, k, c))
  {
    ProdDist(z, E2(s, t, r, c), k, c);
    ProdDist(z, Prod(s, t, c), Xor(Prod(s, r, c), Prod(t, r, c)), c);
    ProdDist(z, Prod(s, r, c), Prod(t, r, c), c);
  }

  lemma CancelOthers(u: nat, v: nat, sst: nat, ssr: nat, tts: nat, ttr: nat, str: nat,
                     ks: nat, kt: nat, e: nat)
    requires u == Xor(sst, ssr) && v == Xor(tts, ttr)
    ensures Xor(Xor(u, Xor(ks, e)), Xor(v, Xor(kt, e)))
         == Xor(Xor(Xor(sst, Xor(ssr, str)), ks), Xor(Xor(tts, Xor(str, ttr)), kt))
  {
    CancelLast(u, v, ks, kt, e);
    CancelMiddle(sst, ssr, tts, ttr, str, ks, kt);
  }

  lemma CancelFirst(a: nat, b: nat, d: nat)
    ensures Xor(a, Xor(Xor(a, b), d)) == Xor(b, d)
  {
  }

  lemma CancelLast(a: nat, b: nat, x: nat, y: nat, e: nat)
    ensures Xor(Xor(a, Xor(x, e)), Xor(b, Xor(y, e))) == Xor(Xor(a, x), Xor(b, y))
  {
    XorBits();
    BitExt(Xor(Xor(a, Xor(x, e)), Xor(b, Xor(y, e))), Xor(Xor(a, x), Xor(b, y)));
  }

  lemma CancelMiddle(a: nat, b: nat, d: nat, f: nat, m: nat, x: nat, y: nat)
    ensures Xor(Xor(Xor(a, b), x), Xor(Xor(d, f), y))
         == Xor(Xor(Xor(a, Xor(b, m)), x), Xor(Xor(d, Xor(m, f)), y))
  {
    XorBits();
    BitExt(Xor(Xor(Xor(a, b), x), Xor(Xor(d, f), y)),
           Xor(Xor(Xor(a, Xor(b, m)), x), Xor(Xor(d, Xor(m, f)), y)));
  }

  /** If s is a root and the symmetric functions of s, t, r match the coefficients, r is a root. */
  lemma ThirdRoot(s: nat, t: nat, r: nat, k: nat, e: nat, c: Curve)
    requires c.poly != 0
    requires Cubic(s, Sum3(s, t, r), k, e, c) == 0 && E2(s, t, r, c) == k
    ensures Cubic(r, Sum3(s, t, r), k, e, c) == 0
  {
    XorBits();
    BitExt(Sum3(s, t, r), Sum3(s, r, t));
    ProdComm(t, r, c);
    BitExt(E2(s, t, r, c), E2(s, r, t, c));
    CubicDifference(s, r, t, k, e, c);
    XorSelf(k);
    ProdZero(Xor(s, r), c);
    XorZero(Cubic(r, Sum3(s, t, r), k, e, c));
  }

  /** With one root known and the symmetric functions matching, the cubic splits into three factors. */
  lemma CubicFactors(x: nat, s: nat, t: nat, r: nat, k: nat, e: nat, c: Curve)
    requires c.poly != 0
    requires Cubic(s, Sum3(s, t, r), k, e, c) == 0 && E2(s, t, r, c) == k
    ensures Cubic(x, Sum3(s, t, r), k, e, c) == Prod(Xor(x, s), Prod(Xor(x, t), Xor(x, r), c), c)
  {
    var w := Sum3(t, r, x);
    XorBits();
    BitExt(Sum3(s, t, r), Sum3(x, s, w));
    CubicDifference(x, s, w, k, e, c);
    XorZero(Cubic(x, Sum3(s, t, r), k, e, c));
    FactorPair(x, s, t, r, c);
  }

  lemma FactorPair(x: nat, s: nat, t: nat, r: nat, c: Curve)
    requires c.poly != 0
    ensures Xor(E2(x, s, Sum3(t, r, x), c), E2(s, t, r, c)) == Prod(Xor(x, t), Xor(x, r), c)
  {
    SumTimes(t, r, x, x, c);
    SumTimes(t, r, x, s, c);
    ProdComm(x, Sum3(t, r, x), c);
    ProdComm(s, Sum3(t, r, x), c);
    ProdComm(x, s, c);
    ProdDist(Xor(x, r), x, t, c);
    ProdDist(x, x, r, c);
    ProdDist(t, x, r, c);
    ProdComm(Xor(x, r), x, c);
    ProdComm(Xor(x, r), t, c);
    ProdComm(t, x, c);
    PairIdentity(Prod(x, s, c), Prod(x, t, c), Prod(x, r, c), Prod(x, x, c), Prod(s, t, c), Prod(s, r, c),
                 Prod(t, r, c));
  }

  lemma PairIdentity(xs: nat, xt: nat, xr: nat, xx: nat, st: nat, sr: nat, tr: nat)
    ensures Xor(Xor(xs, Xor(Xor(Xor(xt, xr), xx), Xor(Xor(st, sr), xs))), Xor(st, Xor(sr, tr)))
         == Xor(Xor(xx, xr), Xor(xt, tr))
  {
    XorBits();
    var l := Xor(xs, Xor(Xor(Xor(xt, xr), xx), Xor(Xor(st, sr), xs)));
    BitExt(l, Xor(Xor(Xor(xt, xr), xx), Xor(st, sr)));
    BitExt(Xor(l, Xor(st, Xor(sr, tr))), Xor(Xor(xx, xr), Xor(xt, tr)));
  }

  // ---------------------------------------------------------------- the group law stays on the curve

  /** The third point where a line meets the curve, negated as the formulas negate it. */
  lemma ThirdPointOnCurve(x1: nat, x2: nat, lam: nat, k: nat, x3: nat, y3: nat, c: Curve)
    requires c.poly != 0
    requires Equation(x1, Xor(Prod(lam, x1, c), k), c)
    requires E2(x1, x2, x3, c) == k && Sum3(x1, x2, x3) == LineA(lam, c)
    requires y3 == Xor(x3, Xor(Prod(lam, x3, c), k))
    ensures Equation(x3, y3, c)
  {
    LineMeetsCurve(x1, lam, k, c);
    ThirdRoot(x1, x2, x3, k, LineE(k, c), c);
    LineMeetsCurve(x3, lam, k, c);
    NegEquation(x3, Xor(Prod(lam, x3, c), k), c);
  }

  /** The tangent at p: its slope and intercept, and the third root it has. */
  lemma Tangent(p: Point, c: Curve) returns (lam: nat, k: nat)
    requires IsField(c) && OnCurve(p, c) && p.Affine? && p.x != 0
    ensures Reduced(lam, c) && Reduced(k, c)
    ensures p.y == Xor(Prod(lam, p.x, c), k)
    ensures PointDouble(p, c).Affine?
    ensures var r := PointDouble(p, c);
            && E2(p.x, p.x, r.x, c) == k && Sum3(p.x, p.x, r.x) == LineA(lam, c)
            && r.y == Xor(r.x, Xor(Prod(lam, r.x, c), k))
            && ReducedPoint(r, c)
  {
    var x, y := p.x, p.y;
    var d := Div(y, x, c);
    lam := Xor(x, d);
    k := Prod(x, x, c);
    var x3 := LineA(lam, c);
    DivReduced(y, x, c);
    XorReduced(x, d, c);
    LineReduced(lam, c);
    DivCancels(y, x, c);
    ProdDist(x, x, d, c);
    ProdComm(x, d, c);
    TangentThrough(k, y, x, x3);
    ProdReduced(x, x, c);
    ProdReduced(lam, x3, c);
    XorReduced(k, Prod(lam, x3, c), c);
    XorReduced(Xor(k, Prod(lam, x3, c)), x3, c);
    TangentE2(k, Prod(x, x3, c));
    Rotate(k, Prod(lam, x3, c), x3);
  }

  lemma DoubleOnCurve(p: Point, c: Curve)
    requires IsField(c) && OnCurve(p, c)
    ensures OnCurve(PointDouble(p, c), c)
  {
    if p.Affine? && p.x != 0 {
      var lam, k := Tangent(p, c);
      var r := PointDouble(p, c);
      ThirdPointOnCurve(p.x, p.x, lam, k, r.x, r.y, c);
    }
  }

  lemma DivReduced(y: nat, x: nat, c: Curve)
    requires IsField(c) && Reduced(x, c) && x != 0
    ensures Reduced(Div(y, x, c), c)
  {
    ReducedIsCoprime(x, c.poly);
    ProdReduced(y, Inverse(x, c.poly), c);
  }

  lemma LineReduced(lam: nat, c: Curve)
    requires c.poly != 0 && Reduced(lam, c) && Reduced(c.a, c)
    ensures Reduced(LineA(lam, c), c)
  {
    ProdReduced(lam, lam, c);
    XorReduced(Prod(lam, lam, c), lam, c);
    XorReduced(Xor(Prod(lam, lam, c), lam), c.a, c);
  }

  lemma TangentThrough(xx: nat, y: nat, x: nat, x3: nat)
    ensures Xor(Xor(xx, y), xx) == y && Sum3(x, x, x3) == x3
  {
    XorBits();
    BitExt(Xor(Xor(xx, y), xx), y);
    BitExt(Sum3(x, x, x3), x3);
  }

  lemma TangentE2(xx: nat, xr: nat)
    ensures Xor(xx, Xor(xr, xr)) == xx
  {
  }

  lemma Rotate(a: nat, b: nat, d: nat)
    ensures Xor(Xor(a, b), d) == Xor(d, Xor(b, a))
  {
  }

  lemma AddOnCurve(p: Point, q: Point, c: Curve)
    requires IsField(c) && OnCurve(p, c) && OnCurve(q, c)
    ensures OnCurve(PointAdd(p, q, c), c)
  {
    if p.Affine? && q.Affine? && p.x == q.x {
      DoubleOnCurve(p, c);
    } else if p.Affine? && q.Affine? {
      var lam, k := Secant(p, q, c);
      var r := PointAdd(p, q, c);
      ThirdPointOnCurve(p.x, q.x, lam, k, r.x, r.y, c);
    }
  }

  /** The line through two points of the curve with different x, and the third root it has. */
  lemma Secant(p: Point, q: Point, c: Curve) returns (lam: nat, k: nat)
    requires IsField(c) && OnCurve(p, c) && OnCurve(q, c) && p.Affine? && q.Affine? && p.x != q.x
    ensures Reduced(lam, c) && Reduced(k, c)
    ensures p.y == Xor(Prod(lam, p.x, c), k) && q.y == Xor(Prod(lam, q.x, c), k)
    ensures PointAdd(p, q, c).Affine?
    ensures var r := PointAdd(p, q, c);
            && E2(p.x, q.x, r.x, c) == k && Sum3(p.x, q.x, r.x) == LineA(lam, c)
            && r.y == Xor(r.x, Xor(Prod(lam, r.x, c), k))
            && ReducedPoint(r, c)
  {
    lam, k := Chord(p, q, c);
    var r := PointAdd(p, q, c);
    var x3 := r.x;
    XorReduced(p.x, q.x, c);
    ProdReduced(lam, lam, c);
    XorReduced(Prod(lam, lam, c), lam, c);
    XorReduced(Xor(Prod(lam, lam, c), lam), Xor(p.x, q.x), c);
    XorReduced(Xor(Xor(Prod(lam, lam, c), lam), Xor(p.x, q.x)), c.a, c);
    ProdReduced(lam, Xor(p.x, x3), c);
    XorReduced(Prod(lam, Xor(p.x, x3), c), x3, c);
    XorReduced(Xor(Prod(lam, Xor(p.x, x3), c), x3), p.y, c);
    ChordSum(Xor(Prod(lam, lam, c), lam), p.x, q.x, c.a);
    TwoRoots(p.x, q.x, x3, lam, k, c);
    ProdDist(lam, p.x, x3, c);
    ChordY(Prod(lam, p.x, c), Prod(lam, x3, c), x3, p.y);
  }

  /** The chord-and-tangent law. Unless it is infinity, the sum of two affine points is the negation
      of the third point of one line: p, q and -(p+q) lie on it, and the cubic whose roots are the x
      coordinates where that line meets the curve is (X+p.x)(X+q.x)(X+(p+q).x). */
  lemma ChordAndTangent(p: Point, q: Point, c: Curve) returns (lam: nat, k: nat)
    requires IsField(c) && OnCurve(p, c) && OnCurve(q, c) && p.Affine? && q.Affine?
    requires PointAdd(p, q, c).Affine?
    ensures var r := PointAdd(p, q, c);
            && p.y == Xor(Prod(lam, p.x, c), k)
            && q.y == Xor(Prod(lam, q.x, c), k)
            && PointNeg(r).y == Xor(Prod(lam, r.x, c), k)
            && forall x: nat :: Cubic(x, LineA(lam, c), k, LineE(k, c), c)
                                == Prod(Xor(x, p.x), Prod(Xor(x, q.x), Xor(x, r.x), c), c)
  {
    var r := PointAdd(p, q, c);
    if p.x == q.x {
      lam, k := Tangent(p, c);
    } else {
      lam, k := Secant(p, q, c);
    }
    XorCancel(r.x, Xor(Prod(lam, r.x, c), k));
    LineMeetsCurve(p.x, lam, k, c);
    forall x: nat
      ensures Cubic(x, LineA(lam, c), k, LineE(k, c), c)
           == Prod(Xor(x, p.x), Prod(Xor(x, q.x), Xor(x, r.x), c), c)
    {
      CubicFactors(x, p.x, q.x, r.x, k, LineE(k, c), c);
    }
  }

  /** The slope and intercept of the line through two points with different x. */
  lemma Chord(p: Point, q: Point, c: Curve) returns (lam: nat, k: nat)
    requires IsField(c) && p.Affine? && q.Affine? && ReducedPoint(p, c) && ReducedPoint(q, c) && p.x != q.x
    ensures Reduced(Xor(p.x, q.x), c) && Xor(p.x, q.x) != 0
    ensures lam == Div(Xor(p.y, q.y), Xor(p.x, q.x), c) && Reduced(lam, c)
    ensures k == Xor(Prod(lam, p.x, c), p.y) && Reduced(k, c)
    ensures p.y == Xor(Prod(lam, p.x, c), k) && q.y == Xor(Prod(lam, q.x, c), k)
  {
    var dx, dy := Xor(p.x, q.x), Xor(p.y, q.y);
    XorReduced(p.x, q.x, c);
    XorReduced(p.y, q.y, c);
    XorCancel(p.x, q.x);
    lam := Div(dy, dx, c);
    DivReduced(dy, dx, c);
    DivCancels(dy, dx, c);
    ProdDist(lam, p.x, q.x, c);
    k := Xor(Prod(lam, p.x, c), p.y);
    ProdReduced(lam, p.x, c);
    XorReduced(Prod(lam, p.x, c), p.y, c);
    XorCancel(Prod(lam, p.x, c), p.y);
    XorMove(Prod(lam, p.x, c), Prod(lam, q.x, c), p.y, q.y);
    XorCancel(Prod(lam, q.x, c), q.y);
  }

  lemma ChordSum(ll: nat, x1: nat, x2: nat, a: nat)
    ensures Sum3(x1, x2, Xor(Xor(ll, Xor(x1, x2)), a)) == Xor(ll, a)
  {
    XorBits();
    BitExt(Sum3(x1, x2, Xor(Xor(ll, Xor(x1, x2)), a)), Xor(ll, a));
  }

  lemma ChordY(lx: nat, lr: nat, r: nat, y: nat)
    ensures Xor(Xor(Xor(lx, lr), r), y) == Xor(r, Xor(lr, Xor(lx, y)))
  {
    XorBits();
    BitExt(Xor(Xor(Xor(lx, lr), r), y), Xor(r, Xor(lr, Xor(lx, y))));
  }

  /** Two different roots fix the linear coefficient: the field has no zero divisors. */
  lemma TwoRoots(x1: nat, x2: nat, x3: nat, lam: nat, k: nat, c: Curve)
    requires IsField(c) && Reduced(x1, c) && Reduced(x2, c) && Reduced(k, c) && x1 != x2
    requires Sum3(x1, x2, x3) == LineA(lam, c)
    requires Equation(x1, Xor(Prod(lam, x1, c), k), c) && Equation(x2, Xor(Prod(lam, x2, c), k), c)
    ensures E2(x1, x2, x3, c) == k
  {
    LineMeetsCurve(x1, lam, k, c);
    LineMeetsCurve(x2, lam, k, c);
    CubicDifference(x1, x2, x3, k, LineE(k, c), c);
    XorSelf(0);
    var e := E2(x1, x2, x3, c);
    ProdReduced(x1, x2, c);
    ProdReduced(x1, x3, c);
    ProdReduced(x2, x3, c);
    XorReduced(Prod(x1, x3, c), Prod(x2, x3, c), c);
    XorReduced(Prod(x1, x2, c), Xor(Prod(x1, x3, c), Prod(x2, x3, c)), c);
    XorReduced(e, k, c);
    XorReduced(x1, x2, c);
    XorCancel(x1, x2);
    NoZeroDivisors(Xor(x1, x2), Xor(e, k), c);
    XorCancel(e, k);
  }

  /** Swapping the summands gives the same point. */
  lemma AddCommutes(p: Point, q: Point, c: Curve)
    requires IsField(c) && ReducedPoint(p, c) && ReducedPoint(q, c)
    ensures PointAdd(p, q, c) == PointAdd(q, p, c)
  {
    if p.Affine? && q.Affine? && p.x != q.x {
      XorComm(p.x, q.x);
      XorComm(p.y, q.y);
      var lam, k := Chord(p, q, c);
      var lam', k' := Chord(q, p, c);
      var x3 := PointAdd(p, q, c).x;
      SameIntercept(Prod(lam, p.x, c), Prod(lam, q.x, c), p.y, q.y, k, k');
      ProdDist(lam, p.x, x3, c);
      ProdDist(lam, q.x, x3, c);
      ChordY(Prod(lam, p.x, c), Prod(lam, x3, c), x3, p.y);
      ChordY(Prod(lam, q.x, c), Prod(lam, x3, c), x3, q.y);
    }
  }

  lemma SameIntercept(lx1: nat, lx2: nat, y1: nat, y2: nat, k: nat, k': nat)
    requires k == Xor(lx1, y1) && k' == Xor(lx2, y2) && y1 == Xor(lx1, k) && y2 == Xor(lx2, k)
    ensures k == k'
  {
    XorCancel(lx2, k);
  }

  /** A point plus its negation is the identity. */
  lemma AddInverse(p: Point, c: Curve)
    requires IsField(c) && OnCurve(p, c)
    ensures OnCurve(PointNeg(p), c)
    ensures PointAdd(p, PointNeg(p), c) == Infinity
  {
    if p.Affine? {
      NegEquation(p.x, p.y, c);
      XorReduced(p.x, p.y, c);
      if Xor(p.x, p.y) == p.y {
        XorComm(p.x, p.y);
        XorCancel(p.y, p.x);
        XorSelf(p.y);
      }
    }
  }

  /** Two points of the curve with one x are equal or opposite, so the branch of `point_add` that
      answers infinity for equal x and unequal y answers the sum of a point and its negation. */
  lemma EqualXIsNegation(p: Point, q: Point, c: Curve)
    requires IsField(c) && OnCurve(p, c) && OnCurve(q, c)
    requires p.Affine? && q.Affine? && p.x == q.x && p.y != q.y
    ensures q == PointNeg(p)
  {
    var x, s := p.x, Xor(p.y, q.y);
    XorReduced(p.y, q.y, c);
    XorReduced(s, x, c);
    SquareSum(p.y, q.y, c);
    ProdDist(x, p.y, q.y, c);
    ProdDist(s, s, x, c);
    ProdComm(s, x, c);
    XorSwap(Prod(p.y, p.y, c), Prod(q.y, q.y, c), Prod(x, p.y, c), Prod(x, q.y, c));
    XorSelf(Xor(Prod(p.y, p.y, c), Prod(x, p.y, c)));
    NoZeroDivisors(s, Xor(s, x), c);
    XorCancel(p.y, q.y);
    XorCancel(s, x);
    XorComm(x, p.y);
  }

  /** Two points of the curve sum to infinity exactly when they are opposite. */
  lemma SumIsInfinity(p: Point, q: Point, c: Curve)
    requires IsField(c) && OnCurve(p, c) && OnCurve(q, c)
    ensures PointAdd(p, q, c) == Infinity <==> q == PointNeg(p)
  {
    AddInverse(p, c);
    if PointAdd(p, q, c) == Infinity && p.Affine? && q.Affine? {
      if p.y != q.y {
        EqualXIsNegation(p, q, c);
      } else {
        XorZero(p.y);
      }
    }
  }
}
