/** Polynomials as coefficient sequences, and the number-theoretic transform
    with its inverse (what `lax.ntt` is documented to compute). */
module Transforms {
  import opened Fields
  import opened Sums

  function Coef<T>(K: Field<T>, p: seq<T>, k: nat): T {
    if k < |p| then p[k] else K.zero
  }

  function Term<T>(K: Field<T>, p: seq<T>, x: T): nat -> T {
    (k: nat) => K.mul(Coef(K, p, k), Pow(K, x, k))
  }

  /** The value at `x` of the polynomial whose `x^k` coefficient is `p[k]`. */
  function Eval<T>(K: Field<T>, p: seq<T>, x: T): T {
    Sum(K, |p|, Term(K, p, x))
  }

  /** Every coefficient at or above `d` is zero. */
  ghost predicate DegreeBelow<T(!new)>(K: Field<T>, p: seq<T>, d: nat) {
    forall k: nat {:trigger Coef(K, p, k)} | d <= k :: Coef(K, p, k) == K.zero
  }

  /** Evaluation may run over any range that covers the nonzero coefficients. */
  lemma EvalPadded<T(!new)>(K: Field<T>, p: seq<T>, x: T, n: nat)
    requires IsField(K) && DegreeBelow(K, p, n)
    ensures Sum(K, n, Term(K, p, x)) == Eval(K, p, x)
  {
    var t := Term(K, p, x);
    var lo := if n < |p| then n else |p|;
    var hi := if n < |p| then |p| else n;
    forall i: nat | lo <= i < hi ensures t(i) == K.zero {
      assert Coef(K, p, i) == K.zero;
      MulZero(K, Pow(K, x, i));
    }
    SumTruncate(K, lo, hi, t);
  }

  /** Equal coefficients, equal values: trailing zeros do not matter. */
  lemma EvalCoef<T(!new)>(K: Field<T>, p: seq<T>, q: seq<T>, x: T)
    requires IsField(K)
    requires forall k: nat {:trigger Coef(K, p, k)} {:trigger Coef(K, q, k)} :: Coef(K, p, k) == Coef(K, q, k)
    ensures Eval(K, p, x) == Eval(K, q, x)
  {
    var n := if |p| < |q| then |q| else |p|;
    EvalPadded(K, p, x, n);
    EvalPadded(K, q, x, n);
    SumEq(K, n, Term(K, p, x), Term(K, q, x));
  }

  /** The transform of the `n` coefficients `c` at the root `w`: their
      polynomial's values at 1, w, w^2, ... */
  function Ntt<T>(K: Field<T>, w: T, n: nat, c: seq<T>): (v: seq<T>)
    ensures |v| == n
  {
    seq(n, (i: nat) => Eval(K, c, Pow(K, w, i)))
  }

  /** The inverse transform, with its 1/n. */
  function Intt<T>(K: Field<T>, w: T, n: nat, v: seq<T>): (c: seq<T>)
    ensures |c| == n
  {
    seq(n, (k: nat) => K.mul(K.inv(OfNat(K, n)), Eval(K, v, Pow(K, K.inv(w), k))))
  }

  /** w^m w^(-k) is 1 exactly when m and k agree. */
  lemma Twiddle<T(!new)>(K: Field<T>, w: T, n: nat, m: nat, k: nat)
    requires IsField(K) && PrimitiveRoot(K, w, n) && m < n && k < n
    ensures var z := K.mul(Pow(K, w, m), Pow(K, K.inv(w), k));
            Pow(K, z, n) == K.one && (z == K.one <==> m == k)
  {
    var a, b := Pow(K, w, m), Pow(K, K.inv(w), k);
    RootInverse(K, w, n);
    RootNonzero(K, w, n);
    PowMul(K, a, b, n);
    PowPow(K, w, m, n);
    PowPow(K, w, n, m);
    PowPow(K, K.inv(w), k, n);
    PowPow(K, K.inv(w), n, k);
    assert m * n == n * m && k * n == n * k;
    PowOne(K, m);
    PowOne(K, k);
    MulOne(K, K.one);
    PowInv(K, w, k);
    if m == k {
    } else {
      RootDistinct(K, w, n, m, k);
      if K.mul(a, b) == K.one {
        PowNonzero(K, K.inv(w), k) by { InvNonzero(K, w); }
        MulCancel(K, a, Pow(K, w, k), b);
      }
    }
  }

  /** (c w^(jm)) u^j == c (w^m u)^j */
  lemma TwiddleTerm<T(!new)>(K: Field<T>, w: T, u: T, c: T, j: nat, m: nat)
    requires IsField(K)
    ensures K.mul(K.mul(c, Pow(K, Pow(K, w, j), m)), Pow(K, u, j)) == K.mul(c, Pow(K, K.mul(Pow(K, w, m), u), j))
  {
    PowPow(K, w, j, m);
    PowPow(K, w, m, j);
    assert j * m == m * j;
    PowMul(K, Pow(K, w, m), u, j);
    MulAssoc(K, c, Pow(K, Pow(K, w, j), m), Pow(K, u, j));
  }

  function GridAt<T>(K: Field<T>, w: T, u: T, c: seq<T>, j: nat, m: nat): T {
    K.mul(K.mul(Coef(K, c, m), Pow(K, Pow(K, w, j), m)), Pow(K, u, j))
  }

  /** The two-variable sum behind both round trips. */
  function Grid<T>(K: Field<T>, w: T, u: T, c: seq<T>): (nat, nat) -> T {
    (j: nat, m: nat) => GridAt(K, w, u, c, j, m)
  }

  lemma GridRow<T(!new)>(K: Field<T>, w: T, u: T, n: nat, c: seq<T>, v: seq<T>, j: nat)
    requires IsField(K) && |c| == n && v == Ntt(K, w, n, c) && j < n
    ensures Term(K, v, u)(j) == Sum(K, n, (m: nat) => Grid(K, w, u, c)(j, m))
  {
    var x := Pow(K, w, j);
    var s := Pow(K, u, j);
    var g := (m: nat) => Grid(K, w, u, c)(j, m);
    var t := Term(K, c, x);
    forall m: nat | m < n ensures g(m) == K.mul(s, t(m)) {
      var e := t(m);
      assert e == K.mul(Coef(K, c, m), Pow(K, x, m));
      assert g(m) == Grid(K, w, u, c)(j, m) == GridAt(K, w, u, c, j, m);
      MulComm(K, s, e);
    }
    SumScale(K, n, s, t, g);
    var y := Eval(K, c, x);
    assert Coef(K, v, j) == y;
    MulComm(K, s, y);
    SumEq(K, n, g, (m: nat) => Grid(K, w, u, c)(j, m));
  }

  lemma GridColumn<T(!new)>(K: Field<T>, w: T, u: T, n: nat, c: seq<T>, m: nat)
    requires IsField(K)
    ensures Sum(K, n, (j: nat) => Grid(K, w, u, c)(j, m))
         == K.mul(Coef(K, c, m), Sum(K, n, (j: nat) => Pow(K, K.mul(Pow(K, w, m), u), j)))
  {
    var z := K.mul(Pow(K, w, m), u);
    var e := Coef(K, c, m);
    var g := (j: nat) => Grid(K, w, u, c)(j, m);
    var pows := (j: nat) => Pow(K, z, j);
    forall j: nat | j < n ensures g(j) == K.mul(e, pows(j)) {
      assert g(j) == Grid(K, w, u, c)(j, m) == GridAt(K, w, u, c, j, m);
      TwiddleTerm(K, w, u, e, j, m);
    }
    SumScale(K, n, e, pows, g);
    SumEq(K, n, g, (j: nat) => Grid(K, w, u, c)(j, m));
    SumEq(K, n, pows, (j: nat) => Pow(K, K.mul(Pow(K, w, m), u), j));
  }

  lemma GridColumnValue<T(!new)>(K: Field<T>, w: T, n: nat, c: seq<T>, k: nat, m: nat)
    requires IsField(K) && PrimitiveRoot(K, w, n) && k < n && m < n
    ensures var u := Pow(K, K.inv(w), k);
            Sum(K, n, (j: nat) => Grid(K, w, u, c)(j, m)) == if m == k then K.mul(Coef(K, c, k), OfNat(K, n)) else K.zero
  {
    var u := Pow(K, K.inv(w), k);
    var z := K.mul(Pow(K, w, m), u);
    GridColumn(K, w, u, n, c, m);
    Twiddle(K, w, n, m, k);
    Orthogonality(K, z, n, (j: nat) => Pow(K, z, j));
    MulZero(K, Coef(K, c, m));
  }

  /** Transforming twice, the second time at the inverse root, scales by n. */
  lemma TransformTwice<T(!new)>(K: Field<T>, w: T, n: nat, c: seq<T>, k: nat)
    requires IsField(K) && PrimitiveRoot(K, w, n) && |c| == n && k < n
    ensures Eval(K, Ntt(K, w, n, c), Pow(K, K.inv(w), k)) == K.mul(Coef(K, c, k), OfNat(K, n))
  {
    var v := Ntt(K, w, n, c);
    var u := Pow(K, K.inv(w), k);
    var row := Term(K, v, u);
    var col := (m: nat) => if m == k then K.mul(Coef(K, c, k), OfNat(K, n)) else K.zero;
    forall j: nat | j < n ensures row(j) == Sum(K, n, (m: nat) => Grid(K, w, u, c)(j, m)) {
      GridRow(K, w, u, n, c, v, j);
    }
    forall m: nat | m < n ensures col(m) == Sum(K, n, (j: nat) => Grid(K, w, u, c)(j, m)) {
      GridColumnValue(K, w, n, c, k, m);
    }
    SumSwap(K, n, n, Grid(K, w, u, c), row, col);
    SumSingle(K, n, col, k);
  }

  /** `OfNat(n)` is a unit and `w` a root of order `n`: a transform of size `n` exists. */
  ghost predicate Transformable<T(!new)>(K: Field<T>, w: T, n: nat) {
    IsField(K) && PrimitiveRoot(K, w, n) && OfNat(K, n) != K.zero
  }

  /** (1/N) (a N) == a */
  lemma Unscale<T(!new)>(K: Field<T>, a: T, N: T)
    requires IsField(K) && N != K.zero
    ensures K.mul(K.inv(N), K.mul(a, N)) == a
  {
    MulComm(K, K.inv(N), K.mul(a, N));
    DivMul(K, a, N);
  }

  lemma InttOfNtt<T(!new)>(K: Field<T>, w: T, n: nat, c: seq<T>)
    requires Transformable(K, w, n) && |c| == n
    ensures Intt(K, w, n, Ntt(K, w, n, c)) == c
  {
    forall k: nat | k < n ensures Intt(K, w, n, Ntt(K, w, n, c))[k] == c[k] {
      var e := Coef(K, c, k);
      TransformTwice(K, w, n, c, k);
      Unscale(K, e, OfNat(K, n));
    }
  }

  lemma InvInv<T(!new)>(K: Field<T>, w: T)
    requires IsField(K) && w != K.zero
    ensures K.inv(w) != K.zero && K.inv(K.inv(w)) == w
  {
    InvNonzero(K, w);
    InvNonzero(K, K.inv(w));
    MulComm(K, K.inv(K.inv(w)), K.inv(w));
    MulComm(K, w, K.inv(w));
    MulCancel(K, K.inv(K.inv(w)), w, K.inv(w));
  }

  lemma {:induction false} EvalScale<T(!new)>(K: Field<T>, s: T, p: seq<T>, q: seq<T>, x: T)
    requires IsField(K) && |p| == |q|
    requires forall k: nat {:trigger Coef(K, q, k)} | k < |p| :: Coef(K, q, k) == K.mul(s, Coef(K, p, k))
    ensures Eval(K, q, x) == K.mul(s, Eval(K, p, x))
  {
    var f, g := Term(K, p, x), Term(K, q, x);
    forall k: nat | k < |p| ensures g(k) == K.mul(s, f(k)) {
      var e := Coef(K, p, k);
      assert Coef(K, q, k) == K.mul(s, e);
      MulAssoc(K, s, e, Pow(K, x, k));
      assert f(k) == K.mul(e, Pow(K, x, k));
    }
    SumScale(K, |p|, s, f, g);
  }

  lemma NttOfInttAt<T(!new)>(K: Field<T>, w: T, n: nat, v: seq<T>, i: nat)
    requires Transformable(K, w, n) && |v| == n && i < n
    ensures Eval(K, Intt(K, w, n, v), Pow(K, w, i)) == Coef(K, v, i)
  {
    var s := K.inv(OfNat(K, n));
    var c := Intt(K, w, n, v);
    var plain := Ntt(K, K.inv(w), n, v);
    RootNonzero(K, w, n);
    InvInv(K, w);
    RootInverse(K, w, n);
    TransformTwice(K, K.inv(w), n, v, i);
    EvalScale(K, s, plain, c, Pow(K, w, i));
    Unscale(K, Coef(K, v, i), OfNat(K, n));
  }

  lemma NttOfIntt<T(!new)>(K: Field<T>, w: T, n: nat, v: seq<T>)
    requires Transformable(K, w, n) && |v| == n
    ensures Ntt(K, w, n, Intt(K, w, n, v)) == v
  {
    forall i: nat | i < n ensures Ntt(K, w, n, Intt(K, w, n, v))[i] == v[i] {
      NttOfInttAt(K, w, n, v, i);
    }
  }

  /** A transform is determined by, and determines, its coefficients. */
  lemma InttUnique<T(!new)>(K: Field<T>, w: T, n: nat, c: seq<T>, v: seq<T>)
    requires Transformable(K, w, n) && |c| == n && |v| == n
    ensures Intt(K, w, n, v) == c <==> Ntt(K, w, n, c) == v
  {
    InttOfNtt(K, w, n, c);
    NttOfIntt(K, w, n, v);
  }
}
