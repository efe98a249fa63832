/** The two-adic tower of evaluation domains: W[bits], the LDE coset, and the
    coset of each FRI layer. */
module Cosets {
  import opened Fields
  import opened Sums
  import opened Transforms
  import opened Polynomials

  /** The field with pil2's order-2^32 root `W[32]` and its coset generator. */
  datatype Tower<!T> = Tower(K: Field<T>, root: T, shift: T)

  ghost predicate IsTower<T(!new)>(D: Tower<T>) {
    IsField(D.K) && PrimitiveRoot(D.K, D.root, Exp2(32)) && D.shift != D.K.zero
  }

  /** `W[bits]`, the root of order 2^bits. */
  function Root<T>(D: Tower<T>, bits: nat): T
    requires bits <= 32
  {
    Pow(D.K, D.root, Exp2(32 - bits))
  }

  /** The coset shift of the layer of size 2^bits under an extended domain of size 2^ext. */
  function Shift<T>(D: Tower<T>, ext: nat, bits: nat): T
    requires bits <= ext
  {
    Pow(D.K, D.shift, Exp2(ext - bits))
  }

  /** Point `i` of that layer's coset. */
  function Point<T>(D: Tower<T>, ext: nat, bits: nat, i: nat): T
    requires bits <= ext <= 32
  {
    D.K.mul(Shift(D, ext, bits), Pow(D.K, Root(D, bits), i))
  }

  /** `v` holds the values of the polynomial `p` on that layer's coset. */
  ghost predicate IsCodeword<T(!new)>(D: Tower<T>, ext: nat, bits: nat, p: seq<T>, v: seq<T>)
    requires bits <= ext <= 32
  {
    |v| == Exp2(bits) && forall i: nat {:trigger v[i]} | i < |v| :: v[i] == Eval(D.K, p, Point(D, ext, bits, i))
  }

  lemma RootTransforms<T(!new)>(D: Tower<T>, bits: nat)
    requires IsTower(D) && bits <= 32
    ensures Transformable(D.K, Root(D, bits), Exp2(bits))
  {
    Exp2Add(32 - bits, bits);
    RootPower(D.K, D.root, Exp2(32 - bits), Exp2(bits));
    TwoPowerNonzero(D.K, Root(D, bits), bits);
  }

  /** W[hi]^(2^(hi - lo)) == W[lo]: each layer's root comes from the one above. */
  lemma RootStep<T(!new)>(D: Tower<T>, hi: nat, lo: nat)
    requires IsTower(D) && lo <= hi <= 32
    ensures Pow(D.K, Root(D, hi), Exp2(hi - lo)) == Root(D, lo)
  {
    PowPow(D.K, D.root, Exp2(32 - hi), Exp2(hi - lo));
    Exp2Add(32 - hi, hi - lo);
  }

  lemma ShiftNonzero<T(!new)>(D: Tower<T>, ext: nat, bits: nat)
    requires IsTower(D) && bits <= ext
    ensures Shift(D, ext, bits) != D.K.zero
  {
    PowNonzero(D.K, D.shift, Exp2(ext - bits));
  }

  lemma ShiftStep<T(!new)>(D: Tower<T>, ext: nat, hi: nat, lo: nat)
    requires IsTower(D) && lo <= hi <= ext
    ensures Pow(D.K, Shift(D, ext, hi), Exp2(hi - lo)) == Shift(D, ext, lo)
  {
    PowPow(D.K, D.shift, Exp2(ext - hi), Exp2(hi - lo));
    Exp2Add(ext - hi, hi - lo);
  }

  /** Raising a layer's point to the fold factor gives the next layer's point. */
  lemma PointStep<T(!new)>(D: Tower<T>, ext: nat, hi: nat, lo: nat, i: nat)
    requires IsTower(D) && lo <= hi <= ext <= 32
    ensures Pow(D.K, Point(D, ext, hi, i), Exp2(hi - lo)) == Point(D, ext, lo, i)
  {
    var K, n, w := D.K, Exp2(hi - lo), Root(D, hi);
    PowMul(K, Shift(D, ext, hi), Pow(K, w, i), n);
    ShiftStep(D, ext, hi, lo);
    RootStep(D, hi, lo);
    PowPow(K, w, i, n);
    PowPow(K, w, n, i);
    assert i * n == n * i;
  }

  /** Points repeat with the layer's size. */
  lemma PointMod<T(!new)>(D: Tower<T>, ext: nat, bits: nat, i: nat)
    requires IsTower(D) && bits <= ext <= 32
    ensures Point(D, ext, bits, i) == Point(D, ext, bits, i % Exp2(bits))
  {
    RootTransforms(D, bits);
    RootMod(D.K, Root(D, bits), Exp2(bits), i);
  }

  lemma PointNonzero<T(!new)>(D: Tower<T>, ext: nat, bits: nat, i: nat)
    requires IsTower(D) && bits <= ext <= 32
    ensures Point(D, ext, bits, i) != D.K.zero
  {
    ShiftNonzero(D, ext, bits);
    RootTransforms(D, bits);
    RootNonzero(D.K, Root(D, bits), Exp2(bits));
    PowNonzero(D.K, Root(D, bits), i);
    NoZeroDivisors(D.K, Shift(D, ext, bits), Pow(D.K, Root(D, bits), i));
  }

  /** The layer's points are the transform's points moved by the shift. */
  lemma CodewordIsNtt<T(!new)>(D: Tower<T>, ext: nat, bits: nat, p: seq<T>, v: seq<T>)
    requires IsTower(D) && bits <= ext <= 32 && |v| == Exp2(bits)
    ensures IsCodeword(D, ext, bits, p, v)
       <==> v == Ntt(D.K, Root(D, bits), Exp2(bits), ScaleCoefs(D.K, p, Shift(D, ext, bits)))
  {
    var q := ScaleCoefs(D.K, p, Shift(D, ext, bits));
    var u := Ntt(D.K, Root(D, bits), Exp2(bits), q);
    forall i: nat | i < |v| ensures u[i] == Eval(D.K, p, Point(D, ext, bits, i)) {
      EvalScaleCoefs(D.K, p, Shift(D, ext, bits), Pow(D.K, Root(D, bits), i));
    }
  }

  /** `p` with zeros behind it up to length `n`. */
  function Padded<T>(K: Field<T>, p: seq<T>, n: nat): (q: seq<T>)
    ensures |q| == n
  {
    seq(n, (k: nat) => Coef(K, p, k))
  }

  lemma PaddedEval<T(!new)>(K: Field<T>, p: seq<T>, n: nat, x: T)
    requires IsField(K) && DegreeBelow(K, p, n)
    ensures Eval(K, Padded(K, p, n), x) == Eval(K, p, x)
  {
    var q := Padded(K, p, n);
    forall k: nat ensures Coef(K, p, k) == Coef(K, q, k) {
      if k >= n { assert Coef(K, p, k) == K.zero; }
    }
    EvalCoef(K, p, q, x);
  }

  /** A codeword's inverse transform is its polynomial with coefficient `k`
      times shift^k, padded with zeros. */
  lemma CodewordIntt<T(!new)>(D: Tower<T>, ext: nat, bits: nat, p: seq<T>, v: seq<T>)
    requires IsTower(D) && bits <= ext <= 32 && DegreeBelow(D.K, p, Exp2(bits))
    requires IsCodeword(D, ext, bits, p, v)
    ensures Intt(D.K, Root(D, bits), Exp2(bits), v)
         == ScaleCoefs(D.K, Padded(D.K, p, Exp2(bits)), Shift(D, ext, bits))
  {
    var q := Padded(D.K, p, Exp2(bits));
    forall i: nat {:trigger v[i]} | i < |v| ensures v[i] == Eval(D.K, q, Point(D, ext, bits, i)) {
      PaddedEval(D.K, p, Exp2(bits), Point(D, ext, bits, i));
    }
    CodewordIsNtt(D, ext, bits, q, v);
    RootTransforms(D, bits);
    InttOfNtt(D.K, Root(D, bits), Exp2(bits), ScaleCoefs(D.K, q, Shift(D, ext, bits)));
  }
}
