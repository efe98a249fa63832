/** Coefficient-level operations, division by a linear factor, and the uniqueness
    of interpolation. */
module Polynomials {
  import opened Fields
  import opened Sums
  import opened Transforms

  /** `p` with coefficient `k` times `s^k`: the polynomial p(s x). */
  function ScaleCoefs<T>(K: Field<T>, p: seq<T>, s: T): (q: seq<T>)
    ensures |q| == |p|
  {
    seq(|p|, (k: nat) requires k < |p| => K.mul(p[k], Pow(K, s, k)))
  }

  lemma ScaleCoefsCoef<T(!new)>(K: Field<T>, p: seq<T>, s: T, k: nat)
    requires IsField(K)
    ensures Coef(K, ScaleCoefs(K, p, s), k) == K.mul(Coef(K, p, k), Pow(K, s, k))
  {
    if k >= |p| { MulZero(K, Pow(K, s, k)); }
  }

  lemma EvalScaleCoefs<T(!new)>(K: Field<T>, p: seq<T>, s: T, x: T)
    requires IsField(K)
    ensures Eval(K, ScaleCoefs(K, p, s), x) == Eval(K, p, K.mul(s, x))
  {
    var q := ScaleCoefs(K, p, s);
    var f, g := Term(K, q, x), Term(K, p, K.mul(s, x));
    forall k: nat | k < |p| ensures f(k) == g(k) {
      ScaleCoefsCoef(K, p, s, k);
      PowMul(K, s, x, k);
      MulAssoc(K, Coef(K, p, k), Pow(K, s, k), Pow(K, x, k));
      assert f(k) == K.mul(Coef(K, q, k), Pow(K, x, k));
      assert g(k) == K.mul(Coef(K, p, k), Pow(K, K.mul(s, x), k));
    }
    SumEq(K, |p|, f, g);
  }

  /** Scaling by `s` and then by its inverse changes nothing. */
  lemma UnscaleCoefs<T(!new)>(K: Field<T>, p: seq<T>, s: T)
    requires IsField(K) && s != K.zero
    ensures ScaleCoefs(K, ScaleCoefs(K, p, s), K.inv(s)) == p
  {
    var q := ScaleCoefs(K, p, s);
    forall k: nat | k < |p| ensures ScaleCoefs(K, q, K.inv(s))[k] == p[k] {
      var e := p[k];
      PowInv(K, s, k);
      MulAssoc(K, e, Pow(K, s, k), Pow(K, K.inv(s), k));
      MulOne(K, e);
      assert q[k] == K.mul(e, Pow(K, s, k));
    }
  }

  /** Horner's step: (c + p_0 x + p_1 x^2 + ...) == c + x p(x) */
  lemma EvalCons<T(!new)>(K: Field<T>, c: T, p: seq<T>, x: T)
    requires IsField(K)
    ensures Eval(K, [c] + p, x) == K.add(c, K.mul(x, Eval(K, p, x)))
  {
    hide IsField, Sum;
    var q := [c] + p;
    var f := Term(K, q, x);
    var t := Term(K, p, x);
    var g := (k: nat) => f(1 + k);
    SumSplit(K, 1, |p|, f, g);
    SumNext(K, 0, f);
    SumNone(K, f);
    assert f(0) == K.mul(Coef(K, q, 0), Pow(K, x, 0));
    MulOne(K, c);
    AddZero(K, c);
    forall k: nat | k < |p| ensures g(k) == K.mul(x, t(k)) {
      assert Coef(K, q, 1 + k) == Coef(K, p, k);
      assert g(k) == f(1 + k) == K.mul(Coef(K, p, k), Pow(K, x, 1 + k));
      MulSwap(K, Coef(K, p, k), x, Pow(K, x, k));
      assert t(k) == K.mul(Coef(K, p, k), Pow(K, x, k));
    }
    SumScale(K, |p|, x, t, g);
  }

  /** Horner's step in the other direction. */
  lemma EvalSplit<T(!new)>(K: Field<T>, p: seq<T>, x: T)
    requires IsField(K) && |p| > 0
    ensures Eval(K, p, x) == K.add(p[0], K.mul(x, Eval(K, p[1..], x)))
  {
    assert p == [p[0]] + p[1..];
    EvalCons(K, p[0], p[1..], x);
  }

  function PolyAdd<T>(K: Field<T>, p: seq<T>, q: seq<T>): (r: seq<T>)
    ensures |r| == if |p| < |q| then |q| else |p|
  {
    seq(if |p| < |q| then |q| else |p|, (k: nat) => K.add(Coef(K, p, k), Coef(K, q, k)))
  }

  function PolyScale<T>(K: Field<T>, s: T, p: seq<T>): (r: seq<T>)
    ensures |r| == |p|
  {
    seq(|p|, (k: nat) requires k < |p| => K.mul(s, p[k]))
  }

  lemma EvalPolyAdd<T(!new)>(K: Field<T>, p: seq<T>, q: seq<T>, x: T)
    requires IsField(K)
    ensures Eval(K, PolyAdd(K, p, q), x) == K.add(Eval(K, p, x), Eval(K, q, x))
  {
    var r := PolyAdd(K, p, q);
    var n := |r|;
    assert DegreeBelow(K, p, n) && DegreeBelow(K, q, n);
    EvalPadded(K, p, x, n);
    EvalPadded(K, q, x, n);
    var f, g, h := Term(K, p, x), Term(K, q, x), Term(K, r, x);
    forall k: nat | k < n ensures h(k) == K.add(f(k), g(k)) {
      Distrib(K, Pow(K, x, k), Coef(K, p, k), Coef(K, q, k));
      assert Coef(K, r, k) == K.add(Coef(K, p, k), Coef(K, q, k));
      assert f(k) == K.mul(Coef(K, p, k), Pow(K, x, k));
      assert g(k) == K.mul(Coef(K, q, k), Pow(K, x, k));
    }
    SumAdd(K, n, f, g, h);
  }

  lemma EvalPolyScale<T(!new)>(K: Field<T>, s: T, p: seq<T>, x: T)
    requires IsField(K)
    ensures Eval(K, PolyScale(K, s, p), x) == K.mul(s, Eval(K, p, x))
  {
    EvalScale(K, s, p, PolyScale(K, s, p), x);
  }

  // ------------------------------------------------- linear factors and roots

  /** The quotient of p(x) - p(a) by x - a. */
  function Quotient<T>(K: Field<T>, p: seq<T>, a: T): (q: seq<T>)
    ensures |q| == if |p| == 0 then 0 else |p| - 1
  {
    if |p| <= 1 then [] else [Eval(K, p[1..], a)] + Quotient(K, p[1..], a)
  }

  /** p(x) == p(a) + (x - a) Quotient(x) */
  lemma {:induction false} QuotientExact<T(!new)>(K: Field<T>, p: seq<T>, a: T, x: T)
    requires IsField(K)
    ensures Sub(K, Eval(K, p, x), Eval(K, p, a)) == K.mul(Sub(K, x, a), Eval(K, Quotient(K, p, a), x))
    decreases |p|
  {
    var d := Sub(K, x, a);
    if |p| == 0 {
      MulZero(K, d);
      SubSelf(K, K.zero, K.zero);
    } else {
      EvalSplit(K, p, x);
      EvalSplit(K, p, a);
      var t := p[1..];
      var (tx, ta) := (Eval(K, t, x), Eval(K, t, a));
      QuotientExact(K, t, a, x);
      var qx := Eval(K, Quotient(K, t, a), x);
      QuotientStep(K, p[0], x, a, tx, ta, qx);
      if |p| == 1 {
        assert qx == K.zero && ta == K.zero;
        MulZero(K, x);
        AddZero(K, K.zero);
      } else {
        EvalCons(K, ta, Quotient(K, t, a), x);
      }
    }
  }

  lemma QuotientStep<T(!new)>(K: Field<T>, c: T, x: T, a: T, tx: T, ta: T, qx: T)
    requires IsField(K) && Sub(K, tx, ta) == K.mul(Sub(K, x, a), qx)
    ensures Sub(K, K.add(c, K.mul(x, tx)), K.add(c, K.mul(a, ta)))
         == K.mul(Sub(K, x, a), K.add(ta, K.mul(x, qx)))
  {
    var d := Sub(K, x, a);
    // right side: d ta + x (tx - ta) == (x ta - a ta) + (x tx - x ta)
    Distrib(K, d, ta, K.mul(x, qx));
    MulSwap(K, d, x, qx);
    SubMul(K, x, tx, ta);
    SubMul(K, ta, x, a);
    Telescope(K, K.mul(x, ta), K.mul(x, tx), K.mul(a, ta));
    SubSameLeft(K, c, K.mul(x, tx), K.mul(a, ta));
  }

  /** (c + u) - (c + v) == u - v */
  lemma SubSameLeft<T(!new)>(K: Field<T>, c: T, u: T, v: T)
    requires IsField(K)
    ensures Sub(K, K.add(c, u), K.add(c, v)) == Sub(K, u, v)
  {
    var l, r := Sub(K, K.add(c, u), K.add(c, v)), Sub(K, u, v);
    SubAdd(K, K.add(c, u), K.add(c, v));
    SubAdd(K, u, v);
    AddComm(K, c, v);
    AddAssoc(K, r, v, c);
    AddComm(K, u, c);
    AddCancel(K, l, r, K.add(c, v));
  }

  ghost predicate Distinct<T(!new)>(xs: seq<T>) {
    forall i: nat, j: nat {:trigger xs[i], xs[j]} | i < |xs| && j < |xs| && i != j :: xs[i] != xs[j]
  }

  /** A polynomial with as many distinct roots as coefficients is zero. */
  lemma {:induction false} RootsForceZero<T(!new)>(K: Field<T>, p: seq<T>, xs: seq<T>, x: T)
    requires IsField(K) && |p| <= |xs| && Distinct(xs)
    requires forall i: nat {:trigger xs[i]} | i < |xs| :: Eval(K, p, xs[i]) == K.zero
    ensures Eval(K, p, x) == K.zero
    decreases |xs|
  {
    if |p| > 0 {
      var n := |xs| - 1;
      var a := xs[n];
      var q := Quotient(K, p, a);
      var ys := xs[..n];
      forall i: nat {:trigger ys[i]} | i < n ensures Eval(K, q, ys[i]) == K.zero {
        QuotientExact(K, p, a, xs[i]);
        SubSelf(K, K.zero, K.zero);
        SubSelf(K, xs[i], a);
        NoZeroDivisors(K, Sub(K, xs[i], a), Eval(K, q, xs[i]));
      }
      RootsForceZero(K, q, ys, x);
      QuotientExact(K, p, a, x);
      MulZero(K, Sub(K, x, a));
      SubSelf(K, Eval(K, p, x), K.zero);
    }
  }

  // ----------------------------------------------------------- interpolation

  /** The product of `x - xs[m]` over every m < n but j. */
  function Product<T>(K: Field<T>, xs: seq<T>, n: nat, j: nat, x: T): T
    requires n <= |xs|
  {
    if n == 0 then K.one
    else if n - 1 == j then Product(K, xs, n - 1, j, x)
    else K.mul(Product(K, xs, n - 1, j, x), Sub(K, x, xs[n - 1]))
  }

  function LagrangeTerm<T>(K: Field<T>, xs: seq<T>, vs: seq<T>, x: T): nat -> T
    requires |vs| == |xs|
  {
    (j: nat) => if j < |xs| then Div(K, K.mul(vs[j], Product(K, xs, |xs|, j, x)), Product(K, xs, |xs|, j, xs[j]))
                else K.zero
  }

  /** Lagrange's interpolant through (xs[j], vs[j]), at `x`. */
  function Lagrange<T>(K: Field<T>, xs: seq<T>, vs: seq<T>, x: T): T
    requires |vs| == |xs|
  {
    Sum(K, |xs|, LagrangeTerm(K, xs, vs, x))
  }

  lemma {:induction false} ProductZero<T(!new)>(K: Field<T>, xs: seq<T>, n: nat, j: nat, x: T)
    requires IsField(K) && n <= |xs|
    ensures Product(K, xs, n, j, x) == K.zero <==> exists m: nat {:trigger xs[m]} :: m < n && m != j && xs[m] == x
  {
    if n > 0 {
      ProductZero(K, xs, n - 1, j, x);
      SubSelf(K, x, xs[n - 1]);
      NoZeroDivisors(K, Product(K, xs, n - 1, j, x), Sub(K, x, xs[n - 1]));
    }
  }

  /** The product as coefficients: one for each factor, and one more. */
  function ProductPoly<T>(K: Field<T>, xs: seq<T>, n: nat, j: nat): (p: seq<T>)
    requires n <= |xs|
    ensures |p| == if j < n then n else n + 1
  {
    if n == 0 then [K.one]
    else
      var p := ProductPoly(K, xs, n - 1, j);
      if n - 1 == j then p
      else PolyAdd(K, [K.zero] + p, PolyScale(K, K.neg(xs[n - 1]), p))
  }

  /** Multiplying by (x - a). */
  lemma TimesRoot<T(!new)>(K: Field<T>, p: seq<T>, a: T, x: T)
    requires IsField(K)
    ensures Eval(K, PolyAdd(K, [K.zero] + p, PolyScale(K, K.neg(a), p)), x) == K.mul(Eval(K, p, x), Sub(K, x, a))
  {
    hide IsField, Eval, PolyAdd, PolyScale;
    var e := Eval(K, p, x);
    EvalPolyAdd(K, [K.zero] + p, PolyScale(K, K.neg(a), p), x);
    EvalCons(K, K.zero, p, x);
    AddZero(K, K.mul(x, e));
    EvalPolyScale(K, K.neg(a), p, x);
    Distrib(K, e, x, K.neg(a));
    MulComm(K, e, Sub(K, x, a));
    MulComm(K, e, x);
    MulComm(K, e, K.neg(a));
  }

  lemma EvalConstant<T(!new)>(K: Field<T>, c: T, x: T)
    requires IsField(K)
    ensures Eval(K, [c], x) == c
  {
    hide IsField;
    EvalCons(K, c, [], x);
    assert [c] + [] == [c];
    MulZero(K, x);
    AddZero(K, c);
  }

  lemma {:induction false} ProductPolyEval<T(!new)>(K: Field<T>, xs: seq<T>, n: nat, j: nat, x: T)
    requires IsField(K) && n <= |xs|
    ensures Eval(K, ProductPoly(K, xs, n, j), x) == Product(K, xs, n, j, x)
  {
    hide IsField, Eval, PolyAdd, PolyScale;
    if n == 0 {
      EvalConstant(K, K.one, x);
    } else {
      ProductPolyEval(K, xs, n - 1, j, x);
      if n - 1 != j { TimesRoot(K, ProductPoly(K, xs, n - 1, j), xs[n - 1], x); }
    }
  }

  /** The first `n` terms of the interpolant, as one polynomial. */
  function LagrangePoly<T>(K: Field<T>, xs: seq<T>, vs: seq<T>, n: nat): (p: seq<T>)
    requires |vs| == |xs| && n <= |xs|
    ensures |p| == if n == 0 then 0 else |xs|
  {
    if n == 0 then []
    else
      var s := Div(K, vs[n - 1], Product(K, xs, |xs|, n - 1, xs[n - 1]));
      PolyAdd(K, LagrangePoly(K, xs, vs, n - 1), PolyScale(K, s, ProductPoly(K, xs, |xs|, n - 1)))
  }

  /** (v / at) px == (v px) / at */
  lemma LagrangeTermScaled<T(!new)>(K: Field<T>, xs: seq<T>, vs: seq<T>, x: T, j: nat)
    requires IsField(K) && |vs| == |xs| && j < |xs|
    ensures LagrangeTerm(K, xs, vs, x)(j)
         == K.mul(Div(K, vs[j], Product(K, xs, |xs|, j, xs[j])), Product(K, xs, |xs|, j, x))
  {
    var px, i := Product(K, xs, |xs|, j, x), K.inv(Product(K, xs, |xs|, j, xs[j]));
    MulAssoc(K, vs[j], i, px);
    MulComm(K, i, px);
    MulAssoc(K, vs[j], px, i);
  }

  lemma LagrangePolyStep<T(!new)>(K: Field<T>, xs: seq<T>, vs: seq<T>, j: nat, x: T)
    requires IsField(K) && |vs| == |xs| && j < |xs|
    requires Eval(K, LagrangePoly(K, xs, vs, j), x) == Sum(K, j, LagrangeTerm(K, xs, vs, x))
    ensures Eval(K, LagrangePoly(K, xs, vs, j + 1), x) == Sum(K, j + 1, LagrangeTerm(K, xs, vs, x))
  {
    var b := ProductPoly(K, xs, |xs|, j);
    var s := Div(K, vs[j], Product(K, xs, |xs|, j, xs[j]));
    EvalPolyAdd(K, LagrangePoly(K, xs, vs, j), PolyScale(K, s, b), x);
    EvalPolyScale(K, s, b, x);
    ProductPolyEval(K, xs, |xs|, j, x);
    LagrangeTermScaled(K, xs, vs, x, j);
  }

  lemma {:induction false} LagrangePolyEval<T(!new)>(K: Field<T>, xs: seq<T>, vs: seq<T>, n: nat, x: T)
    requires IsField(K) && |vs| == |xs| && n <= |xs|
    ensures Eval(K, LagrangePoly(K, xs, vs, n), x) == Sum(K, n, LagrangeTerm(K, xs, vs, x))
    decreases n
  {
    hide IsField, Div, PolyAdd, PolyScale, ProductPoly, Product;
    if n > 0 {
      LagrangePolyEval(K, xs, vs, n - 1, x);
      LagrangePolyStep(K, xs, vs, n - 1, x);
    }
  }

  /** The interpolant takes the given values. */
  lemma LagrangeAtPoint<T(!new)>(K: Field<T>, xs: seq<T>, vs: seq<T>, i: nat)
    requires IsField(K) && |vs| == |xs| && i < |xs| && Distinct(xs)
    ensures Lagrange(K, xs, vs, xs[i]) == vs[i]
  {
    var n := |xs|;
    var t := LagrangeTerm(K, xs, vs, xs[i]);
    forall j: nat | j < n && j != i ensures t(j) == K.zero {
      ProductZero(K, xs, n, j, xs[i]);
      assert Product(K, xs, n, j, xs[i]) == K.zero;
      MulZero(K, vs[j]);
      MulZero(K, K.inv(Product(K, xs, n, j, xs[j])));
      assert t(j) == Div(K, K.mul(vs[j], K.zero), Product(K, xs, n, j, xs[j]));
    }
    SumSingle(K, n, t, i);
    ProductZero(K, xs, n, i, xs[i]);
    DivMul(K, vs[i], Product(K, xs, n, i, xs[i]));
  }

  /** Uniqueness of interpolation: whatever polynomial with at most |xs|
      coefficients takes the values, the interpolant is its value everywhere. */
  lemma LagrangeUnique<T(!new)>(K: Field<T>, xs: seq<T>, vs: seq<T>, p: seq<T>, x: T)
    requires IsField(K) && |vs| == |xs| && |p| <= |xs| && Distinct(xs)
    requires forall i: nat {:trigger xs[i]} | i < |xs| :: Eval(K, p, xs[i]) == vs[i]
    ensures Lagrange(K, xs, vs, x) == Eval(K, p, x)
  {
    var m := K.neg(K.one);
    var l := LagrangePoly(K, xs, vs, |xs|);
    var d := PolyAdd(K, p, PolyScale(K, m, l));
    forall y: T ensures Eval(K, d, y) == Sub(K, Eval(K, p, y), Lagrange(K, xs, vs, y)) {
      EvalPolyAdd(K, p, PolyScale(K, m, l), y);
      EvalPolyScale(K, m, l, y);
      LagrangePolyEval(K, xs, vs, |xs|, y);
      NegMul(K, K.one, Lagrange(K, xs, vs, y));
      MulOne(K, Lagrange(K, xs, vs, y));
    }
    forall i: nat {:trigger xs[i]} | i < |xs| ensures Eval(K, d, xs[i]) == K.zero {
      LagrangeAtPoint(K, xs, vs, i);
      SubSelf(K, vs[i], vs[i]);
    }
    RootsForceZero(K, d, xs, x);
    SubSelf(K, Eval(K, p, x), Lagrange(K, xs, vs, x));
  }
}
