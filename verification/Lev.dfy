/** The opening vector: a closed form for the inverse transform of a geometric
    series, and what dotting it with a committed column reads off. */
module Lev {
  import opened Arith
  import opened Fields
  import opened Sums
  import opened Transforms
  import opened Polynomials
  import opened Cosets
  import opened Fri
  import Folding

  /** `base ** exp` with a negative exponent as the inverse of the positive power. */
  function FPow<T>(K: Field<T>, base: T, exp: int): T {
    if exp >= 0 then Pow(K, base, exp) else Div(K, K.one, Pow(K, base, -exp))
  }

  /** The shifted opening point of offset `p`: xi w^p / shift. */
  function ShiftedPoint<T>(D: Tower<T>, xi: T, p: int, nBits: nat): T
    requires nBits <= 32
  {
    D.K.mul(xi, D.K.mul(FPow(D.K, Root(D, nBits), p), Div(D.K, D.K.one, D.shift)))
  }

  /** 1, g, g^2, ... g^(n-1) */
  function Series<T>(K: Field<T>, g: T, n: nat): (s: seq<T>)
    ensures |s| == n
  {
    seq(n, (k: nat) => Pow(K, g, k))
  }

  /** The closed form: (g^n - 1) / (g w^(-j) - 1) / n. */
  function ClosedForm<T>(K: Field<T>, w: T, n: nat, g: T, j: nat): T {
    K.mul(K.mul(Sub(K, Pow(K, g, n), K.one), Div(K, K.one, Sub(K, K.mul(g, Pow(K, K.inv(w), j)), K.one))),
          Div(K, K.one, OfNat(K, n)))
  }

  function LevColumn<T>(K: Field<T>, w: T, n: nat, g: T): (c: seq<T>)
    ensures |c| == n
  {
    seq(n, (j: nat) => ClosedForm(K, w, n, g, j))
  }

  lemma {:induction false} PowDouble<T(!new)>(K: Field<T>, g: T, n: nat)
    requires IsField(K)
    ensures K.mul(Pow(K, g, n), Pow(K, g, n)) == Pow(K, g, 2 * n)
  {
    PowAdd(K, g, n, n);
    assert n + n == 2 * n;
  }

  /** The (N, points) matrix, column by column. */
  method ComputeLev<T(!new)>(D: Tower<T>, xi: T, openings: seq<int>, nBits: int) returns (lev: Result<seq<seq<T>>>)
    requires IsTower(D)
    ensures lev.Ok? <==> 0 <= nBits <= 32 && |openings| > 0
    ensures lev.Ok? ==> |lev.value| == |openings|
                        && forall i: nat {:trigger lev.value[i]} | i < |openings| ::
                             lev.value[i] == LevColumn(D.K, Root(D, nBits), Exp2(nBits), ShiftedPoint(D, xi, openings[i], nBits))
  {
    hide IsField;
    if !(0 <= nBits <= 32) || |openings| == 0 {
      return ValueError;
    }
    var K, n := D.K, Exp2(nBits);
    var w := FPow(K, D.root, Exp2(32 - nBits));
    var shiftInv := Div(K, K.one, D.shift);
    var invN := Div(K, K.one, OfNat(K, n));
    var wInv := FPow(K, w, -1);
    PowSmall(K, w);
    InverseOne(K, w);
    var cols: seq<seq<T>> := [];
    for i := 0 to |openings|
      invariant |cols| == i
      invariant forall c: nat {:trigger cols[c]} | c < i ::
        cols[c] == LevColumn(K, w, n, ShiftedPoint(D, xi, openings[c], nBits))
    {
      var g := K.mul(xi, K.mul(FPow(K, w, openings[i]), shiftInv));
      PowSmall(K, g);
      var gn := g;
      for b := 0 to nBits
        invariant gn == Pow(K, g, Exp2(b))
      {
        PowDouble(K, g, Exp2(b));
        gn := K.mul(gn, gn);
      }
      var num := Sub(K, gn, K.one);
      var col := seq(n, (j: nat) =>
        K.mul(K.mul(num, Div(K, K.one, Sub(K, K.mul(g, Pow(K, wInv, j)), K.one))), invN));
      assert col == LevColumn(K, w, n, g);
      cols := cols + [col];
    }
    return Ok(cols);
  }

  lemma InverseOne<T(!new)>(K: Field<T>, w: T)
    requires IsField(K)
    ensures Div(K, K.one, w) == K.inv(w)
  {
    MulOne(K, K.inv(w));
  }

  /** One entry of the inverse transform of the series, for g^n != 1. */
  lemma SeriesIntt<T(!new)>(K: Field<T>, w: T, n: nat, g: T, j: nat)
    requires Transformable(K, w, n) && j < n && Pow(K, g, n) != K.one
    ensures Intt(K, w, n, Series(K, g, n))[j] == ClosedForm(K, w, n, g, j)
  {
    var u := Pow(K, K.inv(w), j);
    var z := K.mul(g, u);
    var s := Eval(K, Series(K, g, n), u);
    SeriesEval(K, g, u, n);
    PowMul(K, g, u, n);
    RootInverse(K, w, n);
    PowPow(K, K.inv(w), j, n);
    PowPow(K, K.inv(w), n, j);
    assert j * n == n * j;
    PowOne(K, j);
    MulOne(K, Pow(K, g, n));
    var d := Sub(K, z, K.one);
    SubSelf(K, z, K.one);
    PowOne(K, n);
    assert d != K.zero;
    var num := Sub(K, Pow(K, g, n), K.one);
    MulComm(K, d, s);
    DivUnique(K, num, d, s);
    InverseOne(K, d);
    InverseOne(K, OfNat(K, n));
    MulComm(K, K.inv(OfNat(K, n)), s);
  }

  /** sum over k of g^k u^k, as a geometric sum of g u. */
  lemma SeriesEval<T(!new)>(K: Field<T>, g: T, u: T, n: nat)
    requires IsField(K)
    ensures K.mul(Sub(K, K.mul(g, u), K.one), Eval(K, Series(K, g, n), u)) == Sub(K, Pow(K, K.mul(g, u), n), K.one)
  {
    var s := Series(K, g, n);
    var f := Term(K, s, u);
    forall k: nat {:trigger f(k)} | k < n ensures f(k) == Pow(K, K.mul(g, u), k) {
      PowMul(K, g, u, k);
      assert Coef(K, s, k) == Pow(K, g, k);
    }
    GeometricSum(K, K.mul(g, u), n, f);
  }

  /** The closed form is the inverse transform of the series exactly when g is
      not in the subgroup.  When it is (g^n == 1), every entry is zero while the
      series is not: the column then opens nothing. */
  lemma LevIsIntt<T(!new)>(K: Field<T>, w: T, n: nat, g: T)
    requires Transformable(K, w, n)
    ensures LevColumn(K, w, n, g) == Intt(K, w, n, Series(K, g, n)) <==> Pow(K, g, n) != K.one
  {
    var col, idft := LevColumn(K, w, n, g), Intt(K, w, n, Series(K, g, n));
    if Pow(K, g, n) != K.one {
      forall j: nat | j < n ensures col[j] == idft[j] { SeriesIntt(K, w, n, g, j); }
      assert col == idft;
    } else {
      LevColumnZero(K, w, n, g);
      NttOfIntt(K, w, n, Series(K, g, n));
      assert Ntt(K, w, n, idft)[0] == Series(K, g, n)[0] == K.one;
      EvalZeros(K, col, Pow(K, w, 0));
      assert Ntt(K, w, n, col)[0] == K.zero;
    }
  }

  lemma LevColumnZero<T(!new)>(K: Field<T>, w: T, n: nat, g: T)
    requires IsField(K) && Pow(K, g, n) == K.one
    ensures forall j: nat {:trigger LevColumn(K, w, n, g)[j]} | j < n :: LevColumn(K, w, n, g)[j] == K.zero
  {
    SubSelf(K, K.one, K.one);
    forall j: nat {:trigger LevColumn(K, w, n, g)[j]} | j < n ensures LevColumn(K, w, n, g)[j] == K.zero {
      MulZero(K, Div(K, K.one, Sub(K, K.mul(g, Pow(K, K.inv(w), j)), K.one)));
      MulZero(K, Div(K, K.one, OfNat(K, n)));
    }
  }

  lemma EvalZeros<T(!new)>(K: Field<T>, p: seq<T>, x: T)
    requires IsField(K) && forall j: nat {:trigger p[j]} | j < |p| :: p[j] == K.zero
    ensures Eval(K, p, x) == K.zero
  {
    var t := Term(K, p, x);
    forall j: nat | j < |p| ensures t(j) == K.zero {
      assert Coef(K, p, j) == K.zero;
      MulZero(K, Pow(K, x, j));
    }
    SumZero(K, |p|, t);
  }

  // -------------------------------------------------------------- openings

  /** Row `j` of a column, every `stride`-th row of the section from row `from`. */
  function DotTerm<T>(K: Field<T>, lev: seq<T>, col: seq<T>, stride: nat): nat -> T {
    (j: nat) => K.mul(Coef(K, lev, j), Coef(K, col, j * stride))
  }

  /** `open_columns` for one column: its strided rows against the opening vector. */
  function OpenColumn<T>(K: Field<T>, lev: seq<T>, col: seq<T>, stride: nat): T {
    Sum(K, |lev|, DotTerm(K, lev, col, stride))
  }

  function DotAt<T>(K: Field<T>, w: T, c: seq<T>, q: seq<T>, j: nat, m: nat): T {
    K.mul(K.mul(Coef(K, q, m), Pow(K, Pow(K, w, j), m)), Coef(K, c, j))
  }

  function DotGrid<T>(K: Field<T>, w: T, c: seq<T>, q: seq<T>): (nat, nat) -> T {
    (j: nat, m: nat) => DotAt(K, w, c, q, j, m)
  }

  lemma DotRow<T(!new)>(K: Field<T>, w: T, c: seq<T>, q: seq<T>, j: nat)
    requires IsField(K)
    ensures K.mul(Coef(K, c, j), Eval(K, q, Pow(K, w, j))) == Sum(K, |q|, (m: nat) => DotGrid(K, w, c, q)(j, m))
  {
    var s, x := Coef(K, c, j), Pow(K, w, j);
    var t := Term(K, q, x);
    var g := (m: nat) => DotGrid(K, w, c, q)(j, m);
    forall m: nat | m < |q| ensures g(m) == K.mul(s, t(m)) {
      var e := t(m);
      assert e == K.mul(Coef(K, q, m), Pow(K, x, m));
      assert g(m) == DotGrid(K, w, c, q)(j, m) == DotAt(K, w, c, q, j, m) == K.mul(e, s);
      MulComm(K, s, e);
    }
    SumScale(K, |q|, s, t, g);
    SumEq(K, |q|, g, (m: nat) => DotGrid(K, w, c, q)(j, m));
  }

  lemma DotColumn<T(!new)>(K: Field<T>, w: T, c: seq<T>, q: seq<T>, m: nat)
    requires IsField(K)
    ensures K.mul(Coef(K, q, m), Eval(K, c, Pow(K, w, m))) == Sum(K, |c|, (j: nat) => DotGrid(K, w, c, q)(j, m))
  {
    var s, x := Coef(K, q, m), Pow(K, w, m);
    var t := Term(K, c, x);
    var g := (j: nat) => DotGrid(K, w, c, q)(j, m);
    forall j: nat | j < |c| ensures g(j) == K.mul(s, t(j)) {
      var a, b := Pow(K, Pow(K, w, j), m), Coef(K, c, j);
      PowPow(K, w, j, m);
      PowPow(K, w, m, j);
      assert j * m == m * j;
      assert g(j) == DotGrid(K, w, c, q)(j, m) == DotAt(K, w, c, q, j, m) == K.mul(K.mul(s, a), b);
      MulAssoc(K, s, a, b);
      MulComm(K, a, b);
      assert t(j) == K.mul(b, Pow(K, x, j));
    }
    SumScale(K, |c|, s, t, g);
    SumEq(K, |c|, g, (j: nat) => DotGrid(K, w, c, q)(j, m));
  }

  /** Dotting a vector with a polynomial's values on the subgroup is dotting the
      polynomial's coefficients with the vector's transform. */
  lemma DotSwap<T(!new)>(K: Field<T>, w: T, c: seq<T>, q: seq<T>, row: nat -> T, col: nat -> T)
    requires IsField(K)
    requires forall j: nat {:trigger row(j)} | j < |c| :: row(j) == K.mul(Coef(K, c, j), Eval(K, q, Pow(K, w, j)))
    requires forall m: nat {:trigger col(m)} | m < |q| :: col(m) == K.mul(Coef(K, q, m), Eval(K, c, Pow(K, w, m)))
    ensures Sum(K, |c|, row) == Sum(K, |q|, col)
  {
    forall j: nat | j < |c| ensures row(j) == Sum(K, |q|, (m: nat) => DotGrid(K, w, c, q)(j, m)) { DotRow(K, w, c, q, j); }
    forall m: nat | m < |q| ensures col(m) == Sum(K, |c|, (j: nat) => DotGrid(K, w, c, q)(j, m)) { DotColumn(K, w, c, q, m); }
    SumSwap(K, |c|, |q|, DotGrid(K, w, c, q), row, col);
  }

  /** A vector whose transform is the series of `g` evaluates at `g`. */
  lemma DotEvaluates<T(!new)>(K: Field<T>, w: T, n: nat, g: T, q: seq<T>, row: nat -> T)
    requires Transformable(K, w, n) && |q| <= n
    requires forall j: nat {:trigger row(j)} | j < n ::
      row(j) == K.mul(Coef(K, Intt(K, w, n, Series(K, g, n)), j), Eval(K, q, Pow(K, w, j)))
    ensures Sum(K, n, row) == Eval(K, q, g)
  {
    var c := Intt(K, w, n, Series(K, g, n));
    NttOfIntt(K, w, n, Series(K, g, n));
    var col := Term(K, q, g);
    forall m: nat {:trigger col(m)} | m < |q| ensures col(m) == K.mul(Coef(K, q, m), Eval(K, c, Pow(K, w, m))) {
      assert Ntt(K, w, n, c)[m] == Pow(K, g, m);
    }
    DotSwap(K, w, c, q, row, col);
  }

  /** shift * g is the opening point itself. */
  lemma OpeningPoint<T(!new)>(D: Tower<T>, xi: T, p: int, nBits: nat)
    requires IsTower(D) && nBits <= 32
    ensures D.K.mul(D.shift, ShiftedPoint(D, xi, p, nBits)) == D.K.mul(xi, FPow(D.K, Root(D, nBits), p))
  {
    var K, r := D.K, FPow(D.K, Root(D, nBits), p);
    InverseOne(K, D.shift);
    MulAssoc(K, xi, r, K.inv(D.shift));
    MulComm(K, D.shift, K.mul(K.mul(xi, r), K.inv(D.shift)));
    DivMul(K, K.mul(xi, r), D.shift);
  }

  /** A strided row of an extended column is a value on the base coset. */
  lemma StridedPoint<T(!new)>(D: Tower<T>, ext: nat, nBits: nat, j: nat)
    requires IsTower(D) && nBits <= ext <= 32
    ensures Point(D, ext, ext, j * Exp2(ext - nBits)) == D.K.mul(D.shift, Pow(D.K, Root(D, nBits), j))
  {
    var K, s := D.K, Exp2(ext - nBits);
    PowSmall(K, D.shift);
    assert Exp2(0) == 1;
    RootStep(D, ext, nBits);
    PowPow(K, Root(D, ext), s, j);
    assert j * s == s * j;
  }

  /** The opening vector opens: for xi w^p / shift outside the subgroup, its dot
      product with every stride-th row of P's coset values is P(xi w^p), for
      every P of degree below N. */
  lemma LevOpens<T(!new)>(D: Tower<T>, xi: T, p: int, nBits: nat, ext: nat, poly: seq<T>, col: seq<T>)
    requires IsTower(D) && nBits <= ext <= 32 && DegreeBelow(D.K, poly, Exp2(nBits))
    requires IsCodeword(D, ext, ext, poly, col)
    requires Pow(D.K, ShiftedPoint(D, xi, p, nBits), Exp2(nBits)) != D.K.one
    ensures OpenColumn(D.K, LevColumn(D.K, Root(D, nBits), Exp2(nBits), ShiftedPoint(D, xi, p, nBits)), col, Exp2(ext - nBits))
         == Eval(D.K, poly, D.K.mul(xi, FPow(D.K, Root(D, nBits), p)))
  {
    var K, w, n, stride := D.K, Root(D, nBits), Exp2(nBits), Exp2(ext - nBits);
    var g := ShiftedPoint(D, xi, p, nBits);
    var lev := LevColumn(K, w, n, g);
    RootTransforms(D, nBits);
    LevIsIntt(K, w, n, g);
    var q := ScaleCoefs(K, Padded(K, poly, n), D.shift);
    var row := DotTerm(K, lev, col, stride);
    forall j: nat {:trigger row(j)} | j < n ensures row(j) == K.mul(Coef(K, lev, j), Eval(K, q, Pow(K, w, j))) {
      StridedRow(D, nBits, ext, poly, col, j);
    }
    DotEvaluates(K, w, n, g, q, row);
    EvalScaleCoefs(K, Padded(K, poly, n), D.shift, g);
    PaddedEval(K, poly, n, K.mul(D.shift, g));
    OpeningPoint(D, xi, p, nBits);
  }

  lemma StridedRow<T(!new)>(D: Tower<T>, nBits: nat, ext: nat, poly: seq<T>, col: seq<T>, j: nat)
    requires IsTower(D) && nBits <= ext <= 32 && DegreeBelow(D.K, poly, Exp2(nBits)) && j < Exp2(nBits)
    requires IsCodeword(D, ext, ext, poly, col)
    ensures Coef(D.K, col, j * Exp2(ext - nBits))
         == Eval(D.K, ScaleCoefs(D.K, Padded(D.K, poly, Exp2(nBits)), D.shift), Pow(D.K, Root(D, nBits), j))
  {
    hide IsField, Eval, Pow, Point, Padded, ScaleCoefs, Root, Exp2;
    var K, stride := D.K, Exp2(ext - nBits);
    var padded := Padded(K, poly, Exp2(nBits));
    Exp2Add(nBits, ext - nBits);
    StrideInside(0, Exp2(nBits), j, stride);
    assert j * stride < |col|;
    var x := Pow(K, Root(D, nBits), j);
    StridedPoint(D, ext, nBits, j);
    EvalScaleCoefs(K, padded, D.shift, x);
    PaddedEval(K, poly, Exp2(nBits), K.mul(D.shift, x));
  }

  // --------------------------------------------------------------- windows

  datatype Window = Window(lo: nat, hi: nat)

  /** The `count` row windows covering `n` rows; the tail is clipped and windows
      that would start past the end are dropped. */
  function WindowsFrom(n: nat, per: nat, k: nat, count: nat): seq<Window>
    requires k <= count
    decreases count - k
  {
    if k == count then []
    else if k * per < n then
      [Window(k * per, if (k + 1) * per < n then (k + 1) * per else n)] + WindowsFrom(n, per, k + 1, count)
    else WindowsFrom(n, per, k + 1, count)
  }

  function RowWindows(n: nat, count: nat): seq<Window>
    requires count > 0
  {
    WindowsFrom(n, Folding.CeilDiv(n, count), 0, count)
  }

  /** Each window starts where the one before ended, and none is empty. */
  ghost predicate Tiles(ws: seq<Window>, lo: nat, hi: nat)
    decreases |ws|
  {
    if ws == [] then lo == hi else ws[0].lo == lo < ws[0].hi <= hi && Tiles(ws[1..], ws[0].hi, hi)
  }

  lemma {:induction false} WindowsTile(n: nat, per: nat, k: nat, count: nat)
    requires k <= count && n <= count * per
    ensures k * per < n ==> Tiles(WindowsFrom(n, per, k, count), k * per, n)
    ensures k * per >= n ==> WindowsFrom(n, per, k, count) == []
    decreases count - k
  {
    if k < count {
      WindowsTile(n, per, k + 1, count);
      assert (k + 1) * per == k * per + per;
    }
  }

  lemma {:induction false} WindowsAt(n: nat, per: nat, k: nat, count: nat, i: nat)
    requires k <= count && n <= count * per
    ensures k * per >= n ==> WindowsFrom(n, per, k, count) == []
    ensures |WindowsFrom(n, per, k, count)| <= count - k
    ensures var ws := WindowsFrom(n, per, k, count);
            i < |ws| ==> var end := (k + i + 1) * per; ws[i] == Window((k + i) * per, if end < n then end else n)
    decreases count - k
  {
    if k < count {
      assert (k + 1) * per == k * per + per;
      WindowsAt(n, per, k + 1, count, if i > 0 then i - 1 else 0);
    }
  }

  /** The windows cover every row once, in order, whatever the count: no more than `count`
      of them, all but the last of n / count rows, rounded up. */
  lemma RowWindowsTile(n: nat, count: nat)
    requires count > 0
    ensures Tiles(RowWindows(n, count), 0, n) && |RowWindows(n, count)| <= count
    ensures var ws, per := RowWindows(n, count), (n + count - 1) / count;
            && per * count < n + count
            && forall i: nat {:trigger ws[i]} | i < |ws| ::
                 ws[i].lo == i * per && ws[i].hi == if (i + 1) * per < n then (i + 1) * per else n
  {
    hide WindowsFrom;
    var ws, per := RowWindows(n, count), Folding.CeilDiv(n, count);
    assert per * count == count * per;
    WindowsTile(n, per, 0, count);
    WindowsAt(n, per, 0, count, 0);
    forall i: nat {:trigger ws[i]} | i < |ws|
      ensures ws[i].lo == i * per && ws[i].hi == if (i + 1) * per < n then (i + 1) * per else n
    {
      WindowsAt(n, per, 0, count, i);
    }
  }

  /** One window's share of an opening: its own base rows of the weights, and the
      section rows under them. */
  function OpenWindow<T>(K: Field<T>, lev: seq<T>, col: seq<T>, stride: nat, win: Window): T
    requires win.lo <= win.hi <= |lev| && |col| == |lev| * stride
  {
    MulMono(win.hi, |lev|, stride);
    MulMono(win.lo, win.hi, stride);
    OpenColumn(K, lev[win.lo..win.hi], col[win.lo * stride..win.hi * stride], stride)
  }

  /** `add_windows`: the shares added from the left. */
  function AddWindows<T>(K: Field<T>, parts: seq<T>): T
    requires |parts| > 0
  {
    if |parts| == 1 then parts[0] else K.add(AddWindows(K, parts[..|parts| - 1]), parts[|parts| - 1])
  }

  lemma WindowShare<T(!new)>(K: Field<T>, lev: seq<T>, col: seq<T>, stride: nat, win: Window)
    requires IsField(K) && win.lo <= win.hi <= |lev| && |col| == |lev| * stride && stride > 0
    ensures Sum(K, win.hi, DotTerm(K, lev, col, stride))
         == K.add(Sum(K, win.lo, DotTerm(K, lev, col, stride)), OpenWindow(K, lev, col, stride, win))
  {
    hide IsField, Sum;
    var size := win.hi - win.lo;
    var a, b := win.lo * stride, win.hi * stride;
    WindowStrides(win.lo, win.hi, |lev|, stride);
    var l, c := lev[win.lo..win.hi], col[a..b];
    var f, g := DotTerm(K, lev, col, stride), DotTerm(K, l, c, stride);
    forall j: nat | j < size ensures g(j) == f(win.lo + j) {
      StrideInside(win.lo, win.hi, j, stride);
      assert Coef(K, c, j * stride) == Coef(K, col, a + j * stride);
      assert Coef(K, l, j) == Coef(K, lev, win.lo + j);
    }
    SumSplit(K, win.lo, size, f, g);
  }

  lemma WindowStrides(lo: nat, hi: nat, n: nat, stride: nat)
    requires lo <= hi <= n
    ensures 0 <= lo * stride <= hi * stride <= n * stride
  {
    MulMono(hi, n, stride);
    MulMono(lo, hi, stride);
    MulMono(0, lo, stride);
  }

  lemma StrideInside(lo: nat, hi: nat, j: nat, stride: nat)
    requires stride > 0 && lo + j < hi
    ensures 0 <= j * stride && (lo + j) * stride == lo * stride + j * stride < hi * stride
  {
    MulMono(0, j, stride);
    MulMono(lo + j + 1, hi, stride);
  }

  /** Windows within `n` rows, each starting where the one before ended. */
  ghost predicate Chained(ws: seq<Window>, n: nat) {
    && (|ws| > 0 ==> ws[0].lo == 0)
    && (forall k: nat {:trigger ws[k]} | k < |ws| :: ws[k].lo <= ws[k].hi <= n)
    && (forall k: nat, l: nat {:trigger ws[k], ws[l]} | k + 1 == l < |ws| :: ws[l].lo == ws[k].hi)
  }

  ghost function Shares<T>(K: Field<T>, lev: seq<T>, col: seq<T>, stride: nat, ws: seq<Window>): (s: seq<T>)
    requires |col| == |lev| * stride && Chained(ws, |lev|)
    ensures |s| == |ws|
  {
    seq(|ws|, (k: nat) requires k < |ws| => OpenWindow(K, lev, col, stride, ws[k]))
  }

  /** Windows that tile the rows add up to the whole opening: for any number of
      windows, the windowed sum is the sum over the domain. */
  lemma {:induction false} WindowsAddUp<T(!new)>(K: Field<T>, lev: seq<T>, col: seq<T>, stride: nat, ws: seq<Window>)
    requires IsField(K) && |col| == |lev| * stride && stride > 0 && |ws| > 0 && Chained(ws, |lev|)
    ensures AddWindows(K, Shares(K, lev, col, stride, ws)) == Sum(K, ws[|ws| - 1].hi, DotTerm(K, lev, col, stride))
    decreases |ws|
  {
    var n := |ws| - 1;
    var parts := Shares(K, lev, col, stride, ws);
    WindowShare(K, lev, col, stride, ws[n]);
    assert parts[n] == OpenWindow(K, lev, col, stride, ws[n]);
    if n == 0 {
      AddZero(K, parts[0]);
    } else {
      assert Chained(ws[..n], |lev|);
      WindowsAddUp(K, lev, col, stride, ws[..n]);
      assert parts[..n] == Shares(K, lev, col, stride, ws[..n]);
      assert ws[..n][n - 1] == ws[n - 1];
    }
  }

  lemma {:induction false} TilesChain(ws: seq<Window>, lo: nat, hi: nat)
    requires Tiles(ws, lo, hi)
    ensures lo <= hi && (|ws| > 0 <==> lo < hi) && (|ws| > 0 ==> ws[0].lo == lo && ws[|ws| - 1].hi == hi)
    ensures forall k: nat {:trigger ws[k]} | k < |ws| :: ws[k].lo < ws[k].hi <= hi
    ensures forall k: nat, l: nat {:trigger ws[k], ws[l]} | k + 1 == l < |ws| :: ws[l].lo == ws[k].hi
    decreases |ws|
  {
    if ws != [] {
      var rest := ws[1..];
      TilesChain(rest, ws[0].hi, hi);
      forall k: nat {:trigger ws[k]} | k < |ws| ensures ws[k].lo < ws[k].hi <= hi {
        if k > 0 { assert rest[k - 1] == ws[k]; }
      }
      forall k: nat, l: nat {:trigger ws[k], ws[l]} | k + 1 == l < |ws| ensures ws[l].lo == ws[k].hi {
        assert rest[k] == ws[l];
        if k > 0 { assert rest[k - 1] == ws[k]; }
      }
    }
  }

  /** The windowed evaluation the provers run, against the one sum it stands for. */
  lemma WindowedOpening<T(!new)>(K: Field<T>, lev: seq<T>, col: seq<T>, stride: nat, count: nat)
    requires IsField(K) && |lev| > 0 && |col| == |lev| * stride && stride > 0 && count > 0
    ensures var ws := RowWindows(|lev|, count);
            && |ws| > 0
            && Chained(ws, |lev|)
            && AddWindows(K, Shares(K, lev, col, stride, ws)) == OpenColumn(K, lev, col, stride)
  {
    var ws := RowWindows(|lev|, count);
    RowWindowsTile(|lev|, count);
    TilesChain(ws, 0, |lev|);
    WindowsAddUp(K, lev, col, stride, ws);
  }
}
