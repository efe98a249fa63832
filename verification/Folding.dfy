/** The algebra of one FRI fold: a polynomial as `n` components, and the value
    a group of strided codeword entries folds to. */
module Folding {
  import opened Fields
  import opened Sums
  import opened Transforms
  import opened Polynomials

  function CeilDiv(a: nat, b: nat): (q: nat)
    requires b > 0
    ensures a <= q * b && (q > 0 ==> (q - 1) * b < a)
  {
    (a + b - 1) / b
  }

  /** Component `r` of `p`: the coefficients r, n + r, 2n + r, ... */
  function Part<T>(K: Field<T>, p: seq<T>, n: nat, r: nat): seq<T>
    requires n > 0
  {
    seq(CeilDiv(|p|, n), (m: nat) => Coef(K, p, At(m, n, r)))
  }

  /** The components' values at `y`, as the coefficients of a polynomial. */
  function Parts<T>(K: Field<T>, p: seq<T>, n: nat, y: T): (a: seq<T>)
    requires n > 0
    ensures |a| == n
  {
    seq(n, (r: nat) => Eval(K, Part(K, p, n, r), y))
  }

  /** One block of `p`: the coefficients m n, m n + 1, ... */
  function Block<T>(K: Field<T>, p: seq<T>, n: nat, m: nat): (b: seq<T>)
    requires n > 0
    ensures |b| == n
  {
    seq(n, (r: nat) => Coef(K, p, At(m, n, r)))
  }

  /** The beta-combination of the components: sum over r of beta^r Part(r). */
  function Combine<T>(K: Field<T>, p: seq<T>, n: nat, beta: T): (q: seq<T>)
    requires n > 0
    ensures |q| == CeilDiv(|p|, n)
  {
    seq(CeilDiv(|p|, n), (m: nat) => Eval(K, Block(K, p, n, m), beta))
  }

  function CellAt<T>(K: Field<T>, p: seq<T>, n: nat, y: T, beta: T, m: nat, r: nat): T {
    K.mul(K.mul(Coef(K, p, At(m, n, r)), Pow(K, y, m)), Pow(K, beta, r))
  }

  function Cell<T>(K: Field<T>, p: seq<T>, n: nat, y: T, beta: T): (nat, nat) -> T {
    (r: nat, m: nat) => CellAt(K, p, n, y, beta, m, r)
  }

  /** A row of cells is a term of the components' polynomial. */
  lemma CellRow<T(!new)>(K: Field<T>, p: seq<T>, n: nat, y: T, beta: T, r: nat)
    requires IsField(K) && r < n
    ensures Term(K, Parts(K, p, n, y), beta)(r)
         == Sum(K, CeilDiv(|p|, n), (m: nat) => Cell(K, p, n, y, beta)(r, m))
  {
    var M, s := CeilDiv(|p|, n), Pow(K, beta, r);
    var part := Part(K, p, n, r);
    var t := Term(K, part, y);
    var g := (m: nat) => Cell(K, p, n, y, beta)(r, m);
    forall m: nat | m < M ensures g(m) == K.mul(s, t(m)) {
      assert Coef(K, part, m) == Coef(K, p, At(m, n, r));
      var e := K.mul(Coef(K, part, m), Pow(K, y, m));
      assert g(m) == Cell(K, p, n, y, beta)(r, m) == CellAt(K, p, n, y, beta, m, r) == K.mul(e, s);
      MulComm(K, s, e);
      assert t(m) == e;
    }
    SumScale(K, M, s, t, g);
    var v := Eval(K, part, y);
    assert Coef(K, Parts(K, p, n, y), r) == v;
    MulComm(K, s, v);
    SumEq(K, M, g, (m: nat) => Cell(K, p, n, y, beta)(r, m));
  }

  /** A column of cells is a term of the combination. */
  lemma CellColumn<T(!new)>(K: Field<T>, p: seq<T>, n: nat, y: T, beta: T, m: nat)
    requires IsField(K) && n > 0 && m < CeilDiv(|p|, n)
    ensures Term(K, Combine(K, p, n, beta), y)(m) == Sum(K, n, (r: nat) => Cell(K, p, n, y, beta)(r, m))
  {
    var s := Pow(K, y, m);
    var block := Block(K, p, n, m);
    var t := Term(K, block, beta);
    var g := (r: nat) => Cell(K, p, n, y, beta)(r, m);
    forall r: nat | r < n ensures g(r) == K.mul(s, t(r)) {
      var c, b := Coef(K, p, At(m, n, r)), Pow(K, beta, r);
      assert Coef(K, block, r) == c;
      assert g(r) == Cell(K, p, n, y, beta)(r, m) == CellAt(K, p, n, y, beta, m, r) == K.mul(K.mul(c, s), b);
      assert t(r) == K.mul(c, b);
      MulComm(K, c, s);
      MulAssoc(K, s, c, b);
    }
    SumScale(K, n, s, t, g);
    var v := Eval(K, block, beta);
    assert Coef(K, Combine(K, p, n, beta), m) == v;
    MulComm(K, s, v);
    SumEq(K, n, g, (r: nat) => Cell(K, p, n, y, beta)(r, m));
  }

  /** The components read at `y` and combined at `beta`, in either order. */
  lemma CombineEval<T(!new)>(K: Field<T>, p: seq<T>, n: nat, y: T, beta: T)
    requires IsField(K) && n > 0
    ensures Eval(K, Parts(K, p, n, y), beta) == Eval(K, Combine(K, p, n, beta), y)
  {
    var M := CeilDiv(|p|, n);
    var row, col := Term(K, Parts(K, p, n, y), beta), Term(K, Combine(K, p, n, beta), y);
    forall r: nat | r < n ensures row(r) == Sum(K, M, (m: nat) => Cell(K, p, n, y, beta)(r, m)) {
      CellRow(K, p, n, y, beta, r);
    }
    forall m: nat | m < M ensures col(m) == Sum(K, n, (r: nat) => Cell(K, p, n, y, beta)(r, m)) {
      CellColumn(K, p, n, y, beta, m);
    }
    SumSwap(K, n, M, Cell(K, p, n, y, beta), row, col);
  }

  /** Block `m` contributes x^(m n) times its own value. */
  lemma BlockValue<T(!new)>(K: Field<T>, p: seq<T>, n: nat, x: T, m: nat)
    requires IsField(K) && n > 0
    ensures Sum(K, n, (r: nat) => Term(K, p, x)(At(m, n, r)))
         == K.mul(Eval(K, Block(K, p, n, m), x), Pow(K, Pow(K, x, n), m))
  {
    var s := Pow(K, Pow(K, x, n), m);
    var block := Block(K, p, n, m);
    var t := Term(K, block, x);
    var g := (r: nat) => Term(K, p, x)(At(m, n, r));
    PowPow(K, x, n, m);
    assert m * n == n * m;
    forall r: nat | r < n ensures g(r) == K.mul(s, t(r)) {
      var c := Coef(K, p, At(m, n, r));
      assert Coef(K, block, r) == c;
      PowAdd(K, x, m * n, r);
      assert g(r) == Term(K, p, x)(At(m, n, r)) == K.mul(c, Pow(K, x, At(m, n, r)));
      assert At(m, n, r) == m * n + r;
      MulSwap(K, c, s, Pow(K, x, r));
      assert t(r) == K.mul(c, Pow(K, x, r));
    }
    SumScale(K, n, s, t, g);
    MulComm(K, s, Eval(K, block, x));
    SumEq(K, n, g, (r: nat) => Term(K, p, x)(At(m, n, r)));
  }

  /** p(x) from its components: p(x) == sum over r of x^r Part(r)(x^n). */
  lemma SplitEval<T(!new)>(K: Field<T>, p: seq<T>, n: nat, x: T)
    requires IsField(K) && n > 0
    ensures Eval(K, p, x) == Eval(K, Parts(K, p, n, Pow(K, x, n)), x)
  {
    var M, y := CeilDiv(|p|, n), Pow(K, x, n);
    var q := Combine(K, p, n, x);
    var col := Term(K, q, y);
    forall m: nat | m < M ensures col(m) == Sum(K, n, (r: nat) => Term(K, p, x)(At(m, n, r))) {
      BlockValue(K, p, n, x, m);
      assert Coef(K, q, m) == Eval(K, Block(K, p, n, m), x);
    }
    SumBlocks(K, M, n, Term(K, p, x), col);
    assert DegreeBelow(K, p, M * n);
    EvalPadded(K, p, x, M * n);
    CombineEval(K, p, n, y, x);
  }

  /** Combining divides the degree bound by the number of components. */
  lemma CombineDegree<T(!new)>(K: Field<T>, p: seq<T>, n: nat, beta: T, d: nat)
    requires IsField(K) && n > 0 && DegreeBelow(K, p, d)
    ensures DegreeBelow(K, Combine(K, p, n, beta), CeilDiv(d, n))
  {
    var q := Combine(K, p, n, beta);
    forall m: nat {:trigger Coef(K, q, m)} | CeilDiv(d, n) <= m ensures Coef(K, q, m) == K.zero {
      if m < |q| {
        var block := Block(K, p, n, m);
        var t := Term(K, block, beta);
        forall r: nat | r < n ensures t(r) == K.zero {
          AtBound(d, n, m, r);
          assert Coef(K, p, At(m, n, r)) == K.zero;
          MulZero(K, Pow(K, beta, r));
          assert t(r) == K.mul(Coef(K, block, r), Pow(K, beta, r));
        }
        SumZero(K, n, t);
      }
    }
  }

  lemma AtBound(d: nat, n: nat, m: nat, r: nat)
    requires n > 0 && CeilDiv(d, n) <= m
    ensures d <= At(m, n, r)
  {
    assert CeilDiv(d, n) * n <= m * n;
  }

  // ------------------------------------------------------------ one group

  /** `fri_fold_k` over a coset: inverse transform, rescale by the coset's
      inverse, evaluate at the challenge. */
  function FoldCoset<T>(K: Field<T>, group: seq<T>, beta: T, cosetInv: T, w: T): T {
    Eval(K, ScaleCoefs(K, Intt(K, w, |group|, group), cosetInv), beta)
  }

  /** The value folded from a group is that of the group's one interpolant. */
  lemma FoldCosetEval<T(!new)>(K: Field<T>, group: seq<T>, beta: T, s: T, w: T, a: seq<T>)
    requires Transformable(K, w, |group|) && s != K.zero && |a| == |group|
    requires forall j: nat {:trigger group[j]} | j < |group| :: group[j] == Eval(K, a, K.mul(s, Pow(K, w, j)))
    ensures FoldCoset(K, group, beta, K.inv(s), w) == Eval(K, a, beta)
  {
    var n := |group|;
    var b := ScaleCoefs(K, a, s);
    forall j: nat | j < n ensures Ntt(K, w, n, b)[j] == group[j] {
      EvalScaleCoefs(K, a, s, Pow(K, w, j));
    }
    assert Ntt(K, w, n, b) == group;
    InttOfNtt(K, w, n, b);
    UnscaleCoefs(K, a, s);
  }

  /** Every group has an interpolant on its coset. */
  lemma GroupInterpolant<T(!new)>(K: Field<T>, group: seq<T>, s: T, w: T) returns (a: seq<T>)
    requires Transformable(K, w, |group|) && s != K.zero
    ensures |a| == |group|
    ensures forall j: nat {:trigger group[j]} | j < |group| :: group[j] == Eval(K, a, K.mul(s, Pow(K, w, j)))
  {
    var n := |group|;
    var b := Intt(K, w, n, group);
    a := ScaleCoefs(K, b, K.inv(s));
    InvInv(K, s);
    UnscaleCoefs(K, b, K.inv(s));
    NttOfIntt(K, w, n, group);
    forall j: nat {:trigger group[j]} | j < n ensures group[j] == Eval(K, a, K.mul(s, Pow(K, w, j))) {
      EvalScaleCoefs(K, a, s, Pow(K, w, j));
      assert Ntt(K, w, n, b)[j] == group[j];
    }
  }

  /** The coset form and the point form of the fold agree on every group. */
  lemma FoldFormsAgree<T(!new)>(K: Field<T>, group: seq<T>, beta: T, s: T, w: T, points: seq<T>)
    requires Transformable(K, w, |group|) && s != K.zero && |points| == |group|
    requires forall j: nat {:trigger points[j]} | j < |group| :: points[j] == K.mul(s, Pow(K, w, j))
    ensures Lagrange(K, points, group, beta) == FoldCoset(K, group, beta, K.inv(s), w)
  {
    var a := GroupInterpolant(K, group, s, w);
    FoldCosetEval(K, group, beta, s, w, a);
    forall i: nat, j: nat {:trigger points[i], points[j]} | i < |points| && j < |points| && i != j
      ensures points[i] != points[j]
    {
      RootDistinct(K, w, |group|, i, j);
      MulComm(K, s, Pow(K, w, i));
      MulComm(K, s, Pow(K, w, j));
      if points[i] == points[j] { MulCancel(K, Pow(K, w, i), Pow(K, w, j), s); }
    }
    forall i: nat {:trigger points[i]} | i < |points| ensures Eval(K, a, points[i]) == group[i] {
    }
    LagrangeUnique(K, points, group, a, beta);
  }
}
