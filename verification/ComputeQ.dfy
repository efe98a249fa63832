/** pil2's `computeQ`: the quotient's coset values, split into the sections of
    degree below N that are committed. */
module ComputeQ {
  import opened Fields
  import opened Sums
  import opened Transforms
  import opened Polynomials
  import opened Cosets
  import opened Folding

  /** `p` blocks of `n`: p n, by repeated addition. */
  function Blocks(p: nat, n: nat): nat {
    if p == 0 then 0 else Blocks(p - 1, n) + n
  }

  lemma {:induction false} BlocksIsProduct(p: nat, n: nat)
    ensures Blocks(p, n) == p * n
  {
    if p > 0 {
      BlocksIsProduct(p - 1, n);
      assert p * n == (p - 1) * n + n;
    }
  }

  lemma {:induction false} BlockInside(p: nat, qDeg: nat, n: nat)
    requires p < qDeg
    ensures Blocks(p, n) + n <= Blocks(qDeg, n)
    decreases qDeg
  {
    if p < qDeg - 1 {
      BlockInside(p, qDeg - 1, n);
    }
  }

  /** Coefficients `pN .. (p+1)N` of `c`: the section's polynomial. */
  function Chunk<T>(c: seq<T>, n: nat, p: nat): (q: seq<T>)
    requires Blocks(p, n) + n <= |c|
    ensures |q| == n
  {
    c[Blocks(p, n)..Blocks(p, n) + n]
  }

  /** The coefficients of the one polynomial of degree below Ne with the coset values `v`. */
  function Interpolant<T>(D: Tower<T>, nbe: nat, v: seq<T>): (c: seq<T>)
    requires nbe <= 32
    ensures |c| == Exp2(nbe)
  {
    ScaleCoefs(D.K, Intt(D.K, Root(D, nbe), Exp2(nbe), v), D.K.inv(D.shift))
  }

  /** `col` holds the coset values of the input's coefficients pN .. (p+1)N, taken as
      a polynomial of degree below N. */
  ghost predicate IsSection<T(!new)>(D: Tower<T>, v: seq<T>, nb: nat, nbe: nat, p: nat, col: seq<T>)
    requires nbe <= 32
  {
    && Blocks(p, Exp2(nb)) + Exp2(nb) <= Exp2(nbe)
    && IsCodeword(D, nbe, nbe, Chunk(Interpolant(D, nbe, v), Exp2(nb), p), col)
  }

  lemma TopShift<T(!new)>(D: Tower<T>, nbe: nat)
    requires IsTower(D)
    ensures Shift(D, nbe, nbe) == D.shift
  {
    PowSmall(D.K, D.shift);
  }

  /** `v` is the codeword of its interpolant, whatever `v` is. */
  lemma InterpolantEval<T(!new)>(D: Tower<T>, nbe: nat, v: seq<T>)
    requires IsTower(D) && nbe <= 32 && |v| == Exp2(nbe)
    ensures IsCodeword(D, nbe, nbe, Interpolant(D, nbe, v), v)
  {
    var K, w := D.K, Root(D, nbe);
    TopShift(D, nbe);
    RootTransforms(D, nbe);
    var raw := Intt(K, w, Exp2(nbe), v);
    NttOfIntt(K, w, Exp2(nbe), v);
    InvInv(K, D.shift);
    UnscaleCoefs(K, raw, K.inv(D.shift));
    CodewordIsNtt(D, nbe, nbe, Interpolant(D, nbe, v), v);
  }

  /** A codeword's interpolant is its polynomial. */
  lemma InterpolantOfCodeword<T(!new)>(D: Tower<T>, nbe: nat, q: seq<T>, v: seq<T>)
    requires IsTower(D) && nbe <= 32 && DegreeBelow(D.K, q, Exp2(nbe)) && IsCodeword(D, nbe, nbe, q, v)
    ensures Interpolant(D, nbe, v) == Padded(D.K, q, Exp2(nbe))
  {
    TopShift(D, nbe);
    CodewordIntt(D, nbe, nbe, q, v);
    UnscaleCoefs(D.K, Padded(D.K, q, Exp2(nbe)), D.shift);
  }

  /** shift^(-pN) takes shift^(pN + r) down to shift^r. */
  lemma ChunkScale<T(!new)>(D: Tower<T>, n: nat, p: nat, r: nat, raw: T)
    requires IsTower(D)
    ensures D.K.mul(Pow(D.K, Pow(D.K, D.K.inv(D.shift), n), p), raw)
         == D.K.mul(D.K.mul(raw, Pow(D.K, D.K.inv(D.shift), Blocks(p, n) + r)), Pow(D.K, D.shift, r))
  {
    hide Pow, Blocks, IsField;
    var K, i := D.K, D.K.inv(D.shift);
    PowOfBlocks(K, i, n, p);
    PowAdd(K, i, Blocks(p, n), r);
    PowInv(K, D.shift, r);
    CancelsUnder(K, raw, Pow(K, i, Blocks(p, n)), Pow(K, i, r), Pow(K, D.shift, r));
  }

  lemma PowOfBlocks<T(!new)>(K: Field<T>, x: T, n: nat, p: nat)
    requires IsField(K)
    ensures Pow(K, Pow(K, x, n), p) == Pow(K, x, Blocks(p, n))
  {
    hide Pow, Blocks, IsField;
    PowPow(K, x, n, p);
    BlocksIsProduct(p, n);
    assert n * p == p * n;
  }

  lemma CancelsUnder<T(!new)>(K: Field<T>, raw: T, b: T, u: T, w: T)
    requires IsField(K) && K.mul(u, w) == K.one
    ensures K.mul(b, raw) == K.mul(K.mul(raw, K.mul(b, u)), w)
  {
    hide IsField;
    MulAssoc(K, b, u, w);
    MulOne(K, b);
    MulAssoc(K, raw, K.mul(b, u), w);
    MulComm(K, b, raw);
  }

  lemma SectionIsCodeword<T(!new)>(D: Tower<T>, v: seq<T>, nb: nat, nbe: nat, p: nat, coeffs: seq<T>, chunk: seq<T>,
                                   pad: seq<T>, col: seq<T>)
    requires IsTower(D) && nb <= nbe <= 32 && |v| == Exp2(nbe) && Blocks(p, Exp2(nb)) + Exp2(nb) <= Exp2(nbe)
    requires coeffs == Intt(D.K, Root(D, nbe), Exp2(nbe), v)
    requires chunk == PolyScale(D.K, Pow(D.K, Pow(D.K, D.K.inv(D.shift), Exp2(nb)), p), Chunk(coeffs, Exp2(nb), p))
    requires forall i: nat {:trigger pad[i]} | i < |pad| :: pad[i] == D.K.zero
    requires col == Ntt(D.K, Root(D, nbe), Exp2(nbe), chunk + pad)
    ensures IsSection(D, v, nb, nbe, p, col)
  {
    hide IsField, Exp2, Ntt, Intt, ScaleCoefs, PolyScale;
    var n := Exp2(nb);
    var q := Chunk(Interpolant(D, nbe, v), n, p);
    ChunkIsScaled(D, n, p, coeffs, chunk, q);
    PadsNothing(D.K, Root(D, nbe), Exp2(nbe), chunk, pad);
    TopShift(D, nbe);
    CodewordIsNtt(D, nbe, nbe, q, col);
  }

  /** The chunk scaled down by shift^(-pN) is the interpolant's chunk, scaled up by the shift. */
  lemma ChunkIsScaled<T(!new)>(D: Tower<T>, n: nat, p: nat, coeffs: seq<T>, chunk: seq<T>, q: seq<T>)
    requires IsTower(D) && Blocks(p, n) + n <= |coeffs|
    requires chunk == PolyScale(D.K, Pow(D.K, Pow(D.K, D.K.inv(D.shift), n), p), Chunk(coeffs, n, p))
    requires q == Chunk(ScaleCoefs(D.K, coeffs, D.K.inv(D.shift)), n, p)
    ensures chunk == ScaleCoefs(D.K, q, D.shift)
  {
    hide IsField, Pow, Blocks;
    var scaled := ScaleCoefs(D.K, q, D.shift);
    forall r: nat | r < n ensures chunk[r] == scaled[r] {
      ChunkScale(D, n, p, r, coeffs[Blocks(p, n) + r]);
    }
    assert chunk == scaled;
  }

  lemma PadsNothing<T(!new)>(K: Field<T>, w: T, ne: nat, chunk: seq<T>, pad: seq<T>)
    requires IsField(K) && forall i: nat {:trigger pad[i]} | i < |pad| :: pad[i] == K.zero
    ensures Ntt(K, w, ne, chunk + pad) == Ntt(K, w, ne, chunk)
  {
    forall i: nat | i < ne ensures Ntt(K, w, ne, chunk + pad)[i] == Ntt(K, w, ne, chunk)[i] {
      EvalCoef(K, chunk + pad, chunk, Pow(K, w, i));
    }
  }

  method ComputeQ<T(!new)>(D: Tower<T>, v: seq<T>, nb: nat, nbe: nat, qDeg: nat) returns (cols: seq<seq<T>>)
    requires IsTower(D) && nb <= nbe <= 32 && |v| == Exp2(nbe) && Blocks(qDeg, Exp2(nb)) <= Exp2(nbe)
    ensures |cols| == qDeg
    ensures forall p: nat {:trigger cols[p]} | p < qDeg :: IsSection(D, v, nb, nbe, p, cols[p])
  {
    hide IsField, Exp2, Ntt, Intt, IsSection;
    var n, ne := Exp2(nb), Exp2(nbe);
    var coeffs := Intt(D.K, Root(D, nbe), ne, v);
    var shiftIn := Pow(D.K, D.K.inv(D.shift), n);
    cols := [];
    var s := D.K.one;
    for p := 0 to qDeg
      invariant |cols| == p && s == Pow(D.K, shiftIn, p)
      invariant forall j: nat {:trigger cols[j]} | j < p :: IsSection(D, v, nb, nbe, j, cols[j])
    {
      BlockInside(p, qDeg, n);
      var chunk := PolyScale(D.K, s, Chunk(coeffs, n, p));
      var pad := seq(ne - n, (i: nat) => D.K.zero);
      var col := Ntt(D.K, Root(D, nbe), ne, chunk + pad);
      SectionIsCodeword(D, v, nb, nbe, p, coeffs, chunk, pad, col);
      cols := cols + [col];
      MulComm(D.K, s, shiftIn);
      s := D.K.mul(s, shiftIn);
    }
  }

  // ---------------------------------------------------------------- lossless

  /** Every column of `cols` is its section of `v`, and the sections fit the domain. */
  ghost predicate AreSections<T(!new)>(D: Tower<T>, v: seq<T>, nb: nat, nbe: nat, cols: seq<seq<T>>) {
    && IsTower(D) && nb <= nbe <= 32 && |v| == Exp2(nbe) && Blocks(|cols|, Exp2(nb)) <= Exp2(nbe)
    && forall p: nat {:trigger cols[p]} | p < |cols| :: IsSection(D, v, nb, nbe, p, cols[p])
  }

  /** Row `i` of the committed section. */
  function SectionRow<T>(cols: seq<seq<T>>, i: nat): (row: seq<T>)
    requires forall p: nat {:trigger cols[p]} | p < |cols| :: i < |cols[p]|
    ensures |row| == |cols|
  {
    seq(|cols|, (p: nat) requires p < |cols| => cols[p][i])
  }

  function RecomposedTerm<T>(K: Field<T>, row: seq<T>, n: nat, x: T): nat -> T {
    (p: nat) => K.mul(Pow(K, x, Blocks(p, n)), Coef(K, row, p))
  }

  /** sum over p of x^(pN) Q_p(x), from the values Q_p(x). */
  function Recomposed<T>(K: Field<T>, row: seq<T>, n: nat, x: T): T {
    Sum(K, |row|, RecomposedTerm(K, row, n, x))
  }

  lemma ChunkTerm<T(!new)>(K: Field<T>, c: seq<T>, n: nat, p: nat, x: T)
    requires IsField(K) && Blocks(p, n) + n <= |c|
    ensures Sum(K, n, (j: nat) => Term(K, c, x)(At(p, n, j))) == K.mul(Pow(K, x, Blocks(p, n)), Eval(K, Chunk(c, n, p), x))
  {
    var q := Chunk(c, n, p);
    var s := Pow(K, x, Blocks(p, n));
    var f := Term(K, c, x);
    var t := Term(K, q, x);
    var g := (j: nat) => f(At(p, n, j));
    BlocksIsProduct(p, n);
    forall j: nat | j < n ensures g(j) == K.mul(s, t(j)) {
      assert g(j) == f(At(p, n, j)) == f(Blocks(p, n) + j) == K.mul(Coef(K, c, Blocks(p, n) + j), Pow(K, x, Blocks(p, n) + j));
      assert Coef(K, q, j) == Coef(K, c, Blocks(p, n) + j);
      PowAdd(K, x, Blocks(p, n), j);
      MulSwap(K, Coef(K, q, j), s, Pow(K, x, j));
      assert t(j) == K.mul(Coef(K, q, j), Pow(K, x, j));
    }
    SumScale(K, n, s, t, g);
    SumEq(K, n, g, (j: nat) => Term(K, c, x)(At(p, n, j)));
  }

  lemma RecomposedTermIsBlock<T(!new)>(K: Field<T>, c: seq<T>, n: nat, row: seq<T>, x: T, p: nat)
    requires IsField(K) && Blocks(p, n) + n <= |c| && p < |row| && row[p] == Eval(K, Chunk(c, n, p), x)
    ensures RecomposedTerm(K, row, n, x)(p) == Sum(K, n, (j: nat) => Term(K, c, x)(At(p, n, j)))
  {
    ChunkTerm(K, c, n, p, x);
    assert Coef(K, row, p) == row[p];
  }

  ghost predicate ChunkValues<T(!new)>(K: Field<T>, c: seq<T>, n: nat, row: seq<T>, x: T) {
    forall p: nat | p < |row| :: ChunkValue(K, c, n, row, x, p)
  }

  ghost predicate ChunkValue<T(!new)>(K: Field<T>, c: seq<T>, n: nat, row: seq<T>, x: T, p: nat)
    requires p < |row|
  {
    Blocks(p, n) + n <= |c| && row[p] == Eval(K, Chunk(c, n, p), x)
  }

  /** Evaluating the chunks and putting the powers of x back is evaluating the whole. */
  lemma ChunksRecompose<T(!new)>(K: Field<T>, c: seq<T>, n: nat, row: seq<T>, x: T)
    requires IsField(K) && |c| == Blocks(|row|, n) && ChunkValues(K, c, n, row, x)
    ensures Recomposed(K, row, n, x) == Eval(K, c, x)
  {
    var f := Term(K, c, x);
    var block := RecomposedTerm(K, row, n, x);
    forall p: nat {:trigger block(p)} | p < |row| ensures block(p) == Sum(K, n, (j: nat) => f(At(p, n, j))) {
      assert ChunkValue(K, c, n, row, x, p);
      RecomposedTermIsBlock(K, c, n, row, x, p);
      SumEq(K, n, (j: nat) => Term(K, c, x)(At(p, n, j)), (j: nat) => f(At(p, n, j)));
    }
    BlocksIsProduct(|row|, n);
    SumBlocks(K, |row|, n, f, block);
  }

  lemma SectionValue<T(!new)>(D: Tower<T>, v: seq<T>, nb: nat, nbe: nat, p: nat, col: seq<T>, i: nat, m: nat)
    requires nbe <= 32 && IsSection(D, v, nb, nbe, p, col) && i < Exp2(nbe) && Blocks(p, Exp2(nb)) + Exp2(nb) <= m <= Exp2(nbe)
    ensures |col| == Exp2(nbe) && col[i] == Eval(D.K, Chunk(Interpolant(D, nbe, v)[..m], Exp2(nb), p), Point(D, nbe, nbe, i))
  {
    var c := Interpolant(D, nbe, v);
    assert Chunk(c[..m], Exp2(nb), p) == Chunk(c, Exp2(nb), p);
  }

  lemma SectionRowValues<T(!new)>(D: Tower<T>, v: seq<T>, nb: nat, nbe: nat, cols: seq<seq<T>>, i: nat, m: nat)
    requires AreSections(D, v, nb, nbe, cols) && i < Exp2(nbe) && m == Blocks(|cols|, Exp2(nb))
    ensures ChunkValues(D.K, Interpolant(D, nbe, v)[..m], Exp2(nb), SectionRow(cols, i), Point(D, nbe, nbe, i))
  {
    var row := SectionRow(cols, i);
    forall p: nat | p < |row|
      ensures ChunkValue(D.K, Interpolant(D, nbe, v)[..m], Exp2(nb), row, Point(D, nbe, nbe, i), p)
    {
      BlockInside(p, |cols|, Exp2(nb));
      SectionValue(D, v, nb, nbe, p, cols[p], i, m);
    }
  }

  /** Row by row, the sections put back together. */
  function RecomposedColumn<T>(D: Tower<T>, nb: nat, nbe: nat, cols: seq<seq<T>>): (v: seq<T>)
    requires nbe <= 32
    requires forall p: nat {:trigger cols[p]} | p < |cols| :: |cols[p]| == Exp2(nbe)
    ensures |v| == Exp2(nbe)
  {
    seq(Exp2(nbe), (i: nat) requires i < Exp2(nbe) =>
      Recomposed(D.K, SectionRow(cols, i), Exp2(nb), Point(D, nbe, nbe, i)))
  }

  /** The sections put back together are the input's interpolant, cut to qDeg N coefficients. */
  lemma RecomposedIsTruncation<T(!new)>(D: Tower<T>, v: seq<T>, nb: nat, nbe: nat, cols: seq<seq<T>>)
    requires AreSections(D, v, nb, nbe, cols)
    ensures IsCodeword(D, nbe, nbe, Interpolant(D, nbe, v)[..Blocks(|cols|, Exp2(nb))], RecomposedColumn(D, nb, nbe, cols))
  {
    var m := Blocks(|cols|, Exp2(nb));
    forall i: nat | i < Exp2(nbe)
      ensures Recomposed(D.K, SectionRow(cols, i), Exp2(nb), Point(D, nbe, nbe, i))
           == Eval(D.K, Interpolant(D, nbe, v)[..m], Point(D, nbe, nbe, i))
    {
      SectionRowValues(D, v, nb, nbe, cols, i, m);
      ChunksRecompose(D.K, Interpolant(D, nbe, v)[..m], Exp2(nb), SectionRow(cols, i), Point(D, nbe, nbe, i));
    }
  }

  lemma PaddedCut<T(!new)>(K: Field<T>, c: seq<T>, m: nat)
    requires m <= |c|
    ensures DegreeBelow(K, c[..m], |c|)
    ensures Padded(K, c[..m], |c|) == c <==> DegreeBelow(K, c, m)
  {
    var q := Padded(K, c[..m], |c|);
    forall k: nat | k < |c| ensures q[k] == if k < m then c[k] else K.zero { }
    if q == c {
      forall k: nat {:trigger Coef(K, c, k)} | m <= k ensures Coef(K, c, k) == K.zero {
        if k < |c| { assert q[k] == c[k]; }
      }
    }
    if DegreeBelow(K, c, m) {
      forall k: nat | k < |c| ensures q[k] == c[k] {
        if m <= k { assert Coef(K, c, k) == K.zero; }
      }
    }
  }

  /** `v` is the codeword of its interpolant's first `m` coefficients exactly when
      the rest vanish. */
  lemma CutIsCodeword<T(!new)>(D: Tower<T>, nbe: nat, v: seq<T>, m: nat)
    requires IsTower(D) && nbe <= 32 && |v| == Exp2(nbe) && m <= Exp2(nbe)
    ensures IsCodeword(D, nbe, nbe, Interpolant(D, nbe, v)[..m], v) <==> DegreeBelow(D.K, Interpolant(D, nbe, v), m)
  {
    var c := Interpolant(D, nbe, v);
    PaddedCut(D.K, c, m);
    InterpolantEval(D, nbe, v);
    if IsCodeword(D, nbe, nbe, c[..m], v) {
      InterpolantOfCodeword(D, nbe, c[..m], v);
    }
    if DegreeBelow(D.K, c, m) {
      forall i: nat {:trigger v[i]} | i < |v| ensures v[i] == Eval(D.K, c[..m], Point(D, nbe, nbe, i)) {
        PaddedEval(D.K, c[..m], |c|, Point(D, nbe, nbe, i));
      }
    }
  }

  lemma CodewordUnique<T(!new)>(D: Tower<T>, nbe: nat, p: seq<T>, u: seq<T>, v: seq<T>)
    requires nbe <= 32 && IsCodeword(D, nbe, nbe, p, u) && |v| == Exp2(nbe)
    ensures u == v <==> IsCodeword(D, nbe, nbe, p, v)
  {
    if IsCodeword(D, nbe, nbe, p, v) {
      assert forall i: nat | i < |u| :: u[i] == v[i];
    }
  }

  /** Nothing is lost exactly when the input's interpolant has degree below qDeg N:
      the sections then recompose to the input at every row, and otherwise at some
      row they do not. */
  lemma SplitsWithoutLoss<T(!new)>(D: Tower<T>, v: seq<T>, nb: nat, nbe: nat, cols: seq<seq<T>>)
    requires AreSections(D, v, nb, nbe, cols)
    ensures RecomposedColumn(D, nb, nbe, cols) == v
       <==> DegreeBelow(D.K, Interpolant(D, nbe, v), Blocks(|cols|, Exp2(nb)))
  {
    var m := Blocks(|cols|, Exp2(nb));
    RecomposedIsTruncation(D, v, nb, nbe, cols);
    CodewordUnique(D, nbe, Interpolant(D, nbe, v)[..m], RecomposedColumn(D, nb, nbe, cols), v);
    CutIsCodeword(D, nbe, v, m);
  }

  /** Coefficients pN .. (p+1)N of `q`, zero past its end. */
  function QuotientChunk<T>(K: Field<T>, q: seq<T>, n: nat, p: nat): (c: seq<T>)
    ensures |c| == n
  {
    seq(n, (r: nat) => Coef(K, q, Blocks(p, n) + r))
  }

  /** A quotient q of degree below qDeg N is recovered at every row, and section p
      is the codeword of q's own p-th chunk, a polynomial of degree below N. */
  lemma QuotientRecovered<T(!new)>(D: Tower<T>, q: seq<T>, v: seq<T>, nb: nat, nbe: nat, cols: seq<seq<T>>)
    requires AreSections(D, v, nb, nbe, cols) && IsCodeword(D, nbe, nbe, q, v)
    requires DegreeBelow(D.K, q, Blocks(|cols|, Exp2(nb)))
    ensures RecomposedColumn(D, nb, nbe, cols) == v
    ensures forall p: nat {:trigger cols[p]} | p < |cols| ::
              IsCodeword(D, nbe, nbe, QuotientChunk(D.K, q, Exp2(nb), p), cols[p])
  {
    PaddedDegree(D.K, q, Exp2(nbe), Blocks(|cols|, Exp2(nb)));
    InterpolantOfCodeword(D, nbe, q, v);
    SplitsWithoutLoss(D, v, nb, nbe, cols);
    forall p: nat {:trigger cols[p]} | p < |cols|
      ensures IsCodeword(D, nbe, nbe, QuotientChunk(D.K, q, Exp2(nb), p), cols[p])
    {
      assert IsSection(D, v, nb, nbe, p, cols[p]);
      ChunkOfPadded(D.K, q, Exp2(nbe), Exp2(nb), p);
    }
  }

  lemma PaddedDegree<T(!new)>(K: Field<T>, q: seq<T>, n: nat, m: nat)
    requires DegreeBelow(K, q, m) && m <= n
    ensures DegreeBelow(K, Padded(K, q, n), m) && DegreeBelow(K, q, n)
  {
    forall k: nat {:trigger Coef(K, Padded(K, q, n), k)} | m <= k ensures Coef(K, Padded(K, q, n), k) == K.zero {
      assert Coef(K, q, k) == K.zero;
    }
  }

  lemma ChunkOfPadded<T(!new)>(K: Field<T>, q: seq<T>, m: nat, n: nat, p: nat)
    requires Blocks(p, n) + n <= m
    ensures Chunk(Padded(K, q, m), n, p) == QuotientChunk(K, q, n, p)
  {
  }

  /** With one section the transform is the identity exactly on the codewords of
      degree below N. */
  lemma OneSectionIdentity<T(!new)>(D: Tower<T>, v: seq<T>, nb: nat, nbe: nat, col: seq<T>)
    requires AreSections(D, v, nb, nbe, [col])
    ensures col == v <==> DegreeBelow(D.K, Interpolant(D, nbe, v), Exp2(nb))
  {
    SplitsWithoutLoss(D, v, nb, nbe, [col]);
    assert Blocks(1, Exp2(nb)) == Exp2(nb);
    assert IsSection(D, v, nb, nbe, 0, [col][0]);
    OneColumn(D, nb, nbe, col);
  }

  lemma OneColumn<T(!new)>(D: Tower<T>, nb: nat, nbe: nat, col: seq<T>)
    requires IsTower(D) && nbe <= 32 && |col| == Exp2(nbe)
    ensures RecomposedColumn(D, nb, nbe, [col]) == col
  {
    forall i: nat | i < |col| ensures RecomposedColumn(D, nb, nbe, [col])[i] == col[i] {
      OneTerm(D.K, col[i], Exp2(nb), Point(D, nbe, nbe, i));
      assert SectionRow([col], i) == [col[i]];
    }
  }

  lemma OneTerm<T(!new)>(K: Field<T>, e: T, n: nat, x: T)
    requires IsField(K)
    ensures Recomposed(K, [e], n, x) == e
  {
    var f := RecomposedTerm(K, [e], n, x);
    assert Sum(K, 1, f) == K.add(Sum(K, 0, f), f(0));
    assert f(0) == K.mul(Pow(K, x, Blocks(0, n)), Coef(K, [e], 0)) == K.mul(K.one, e);
    MulOne(K, e);
    AddZero(K, e);
  }
}
