/** Finite sums over a field, and the two facts about roots of unity that the
    transforms rest on: the geometric sum and orthogonality. */
module Sums {
  import opened Fields

  function Sum<T>(K: Field<T>, n: nat, f: nat -> T): T {
    if n == 0 then K.zero else K.add(Sum(K, n - 1, f), f(n - 1))
  }

  lemma {:induction false} SumEq<T(!new)>(K: Field<T>, n: nat, f: nat -> T, g: nat -> T)
    requires forall i: nat | i < n :: f(i) == g(i)
    ensures Sum(K, n, f) == Sum(K, n, g)
  {
    if n > 0 {
      SumEq(K, n - 1, f, g);
    }
  }

  lemma {:induction false} SumZero<T(!new)>(K: Field<T>, n: nat, f: nat -> T)
    requires IsField(K)
    requires forall i: nat | i < n :: f(i) == K.zero
    ensures Sum(K, n, f) == K.zero
  {
    if n > 0 {
      SumZero(K, n - 1, f);
      AddZero(K, K.zero);
    }
  }

  /** Only the term at `k` is not zero. */
  lemma {:induction false} SumSingle<T(!new)>(K: Field<T>, n: nat, f: nat -> T, k: nat)
    requires IsField(K) && k < n
    requires forall i: nat | i < n && i != k :: f(i) == K.zero
    ensures Sum(K, n, f) == f(k)
  {
    if k == n - 1 {
      SumZero(K, n - 1, f);
    } else {
      SumSingle(K, n - 1, f, k);
    }
    AddZero(K, f(k));
  }

  lemma {:induction false} SumAdd<T(!new)>(K: Field<T>, n: nat, f: nat -> T, g: nat -> T, h: nat -> T)
    requires IsField(K)
    requires forall i: nat | i < n :: h(i) == K.add(f(i), g(i))
    ensures Sum(K, n, h) == K.add(Sum(K, n, f), Sum(K, n, g))
  {
    if n == 0 {
      AddZero(K, K.zero);
    } else {
      SumAdd(K, n - 1, f, g, h);
      AddInterchange(K, Sum(K, n - 1, f), Sum(K, n - 1, g), f(n - 1), g(n - 1));
    }
  }

  lemma {:induction false} SumScale<T(!new)>(K: Field<T>, n: nat, c: T, f: nat -> T, h: nat -> T)
    requires IsField(K)
    requires forall i: nat | i < n :: h(i) == K.mul(c, f(i))
    ensures Sum(K, n, h) == K.mul(c, Sum(K, n, f))
  {
    if n == 0 {
      MulZero(K, c);
    } else {
      SumScale(K, n - 1, c, f, h);
      Distrib(K, c, Sum(K, n - 1, f), f(n - 1));
    }
  }

  /** The tail of a sum on its own: `g` is `f` moved down by `m`. */
  lemma {:induction false} SumSplit<T(!new)>(K: Field<T>, m: nat, n: nat, f: nat -> T, g: nat -> T)
    requires IsField(K)
    requires forall i: nat | i < n :: g(i) == f(m + i)
    ensures Sum(K, m + n, f) == K.add(Sum(K, m, f), Sum(K, n, g))
  {
    if n == 0 {
      AddZero(K, Sum(K, m, f));
    } else {
      SumSplit(K, m, n - 1, f, g);
      AddAssoc(K, Sum(K, m, f), Sum(K, n - 1, g), g(n - 1));
    }
  }

  /** A sum whose tail vanishes. */
  lemma SumTruncate<T(!new)>(K: Field<T>, m: nat, n: nat, f: nat -> T)
    requires IsField(K) && m <= n
    requires forall i: nat | m <= i < n :: f(i) == K.zero
    ensures Sum(K, n, f) == Sum(K, m, f)
  {
    var g := (i: nat) => f(m + i);
    SumSplit(K, m, n - m, f, g);
    SumZero(K, n - m, g);
    AddZero(K, Sum(K, m, f));
  }

  /** The order of a double sum: `row(i)` sums `i`'s row, `col(j)` `j`'s column. */
  lemma {:induction false} SumSwap<T(!new)>(K: Field<T>, m: nat, n: nat, f: (nat, nat) -> T,
                                            row: nat -> T, col: nat -> T)
    requires IsField(K)
    requires forall i: nat | i < m :: row(i) == Sum(K, n, (j: nat) => f(i, j))
    requires forall j: nat | j < n :: col(j) == Sum(K, m, (i: nat) => f(i, j))
    ensures Sum(K, m, row) == Sum(K, n, col)
  {
    if m == 0 {
      SumZero(K, n, col);
    } else {
      var head := (j: nat) => Sum(K, m - 1, (i: nat) => f(i, j));
      SumSwap(K, m - 1, n, f, row, head);
      var last := (j: nat) => f(m - 1, j);
      SumEq(K, n, last, (j: nat) => f(m - 1, j));
      SumAdd(K, n, head, last, col) by {
        forall j: nat | j < n ensures col(j) == K.add(head(j), last(j)) {
          SumEq(K, m, (i: nat) => f(i, j), (i: nat) => f(i, j));
        }
      }
    }
  }

  /** Position `j` of block `i`, `n` positions to a block. */
  function At(i: nat, n: nat, j: nat): nat { i * n + j }

  lemma BlockStep<T(!new)>(K: Field<T>, i: nat, n: nat, f: nat -> T, base: nat)
    requires IsField(K) && base == i * n
    ensures Sum(K, base + n, f) == K.add(Sum(K, base, f), Sum(K, n, (j: nat) => f(At(i, n, j))))
  {
    var g := (j: nat) => f(At(i, n, j));
    forall j: nat | j < n ensures g(j) == f(base + j) { assert At(i, n, j) == base + j; }
    SumSplit(K, base, n, f, g);
    SumEq(K, n, g, (j: nat) => f(At(i, n, j)));
  }

  lemma SumNone<T>(K: Field<T>, f: nat -> T)
    ensures Sum(K, 0, f) == K.zero
  {
  }

  lemma SumNext<T>(K: Field<T>, n: nat, f: nat -> T)
    ensures Sum(K, n + 1, f) == K.add(Sum(K, n, f), f(n))
  {
  }

  lemma NextBlock(i: nat, n: nat)
    ensures 0 <= i * n && (i + 1) * n == i * n + n
  {
  }

  /** A sum of `m * n` terms taken block by block, `n` terms to a block. */
  lemma {:induction false} SumBlocks<T(!new)>(K: Field<T>, m: nat, n: nat, f: nat -> T, block: nat -> T)
    requires IsField(K)
    requires forall i: nat {:trigger block(i)} | i < m :: block(i) == Sum(K, n, (j: nat) => f(At(i, n, j)))
    ensures Sum(K, m * n, f) == Sum(K, m, block)
    decreases m
  {
    hide IsField, At, Sum;
    if m == 0 {
      SumNone(K, f);
      SumNone(K, block);
    } else {
      SumBlocks(K, m - 1, n, f, block);
      NextBlock(m - 1, n);
      SumNext(K, m - 1, block);
      BlockStep(K, m - 1, n, f, (m - 1) * n);
      assert block(m - 1) == Sum(K, n, (j: nat) => f(At(m - 1, n, j)));
    }
  }

  // ------------------------------------------------------ roots of unity

  /** `n` as an element of the field: 1 + ... + 1. */
  function OfNat<T>(K: Field<T>, n: nat): T {
    Sum(K, n, (i: nat) => K.one)
  }

  /** `(p - a) + (q - p) == q - a` */
  lemma Telescope<T(!new)>(K: Field<T>, p: T, q: T, a: T)
    requires IsField(K)
    ensures K.add(Sub(K, p, a), Sub(K, q, p)) == Sub(K, q, a)
  {
    AddComm(K, Sub(K, p, a), Sub(K, q, p));
    AddAssoc(K, q, K.neg(p), Sub(K, p, a));
    AddAssoc(K, K.neg(p), p, K.neg(a));
    AddComm(K, K.neg(p), p);
    AddZero(K, K.neg(a));
  }

  lemma GeometricStep<T(!new)>(K: Field<T>, x: T, s: T, p: T)
    requires IsField(K) && K.mul(Sub(K, x, K.one), s) == Sub(K, p, K.one)
    ensures K.mul(Sub(K, x, K.one), K.add(s, p)) == Sub(K, K.mul(x, p), K.one)
  {
    var d := Sub(K, x, K.one);
    Distrib(K, d, s, p);
    SubMul(K, p, x, K.one);
    MulOne(K, p);
    Telescope(K, p, K.mul(x, p), K.one);
  }

  /** `(x - 1) (1 + x + ... + x^(n-1)) == x^n - 1` */
  lemma {:induction false} GeometricSum<T(!new)>(K: Field<T>, x: T, n: nat, f: nat -> T)
    requires IsField(K)
    requires forall i: nat {:trigger f(i)} | i < n :: f(i) == Pow(K, x, i)
    ensures K.mul(Sub(K, x, K.one), Sum(K, n, f)) == Sub(K, Pow(K, x, n), K.one)
  {
    if n == 0 {
      MulZero(K, Sub(K, x, K.one));
      SubSelf(K, K.one, K.one);
    } else {
      GeometricSum(K, x, n - 1, f);
      GeometricStep(K, x, Sum(K, n - 1, f), Pow(K, x, n - 1));
    }
  }

  /** `w` has order exactly `n`. */
  ghost predicate PrimitiveRoot<T(!new)>(K: Field<T>, w: T, n: nat) {
    n > 0 && Pow(K, w, n) == K.one && forall k: nat | 0 < k < n :: Pow(K, w, k) != K.one
  }

  lemma RootNonzero<T(!new)>(K: Field<T>, w: T, n: nat)
    requires IsField(K) && PrimitiveRoot(K, w, n)
    ensures w != K.zero
  {
    if w == K.zero {
      assert Pow(K, w, n) == K.mul(w, Pow(K, w, n - 1));
      MulZero(K, Pow(K, w, n - 1));
    }
  }

  /** Powers of a root depend on the exponent modulo the order. */
  lemma RootMod<T(!new)>(K: Field<T>, w: T, n: nat, e: nat)
    requires IsField(K) && PrimitiveRoot(K, w, n)
    ensures Pow(K, w, e) == Pow(K, w, e % n)
  {
    var q := e / n;
    assert e == n * q + e % n;
    PowPow(K, w, n, q);
    PowOne(K, q);
    PowAdd(K, w, n * q, e % n);
    MulOne(K, Pow(K, w, e % n));
  }

  /** Distinct exponents below the order give distinct powers. */
  lemma RootDistinct<T(!new)>(K: Field<T>, w: T, n: nat, i: nat, j: nat)
    requires IsField(K) && PrimitiveRoot(K, w, n) && i < n && j < n && i != j
    ensures Pow(K, w, i) != Pow(K, w, j)
  {
    if i > j {
      RootDistinct(K, w, n, j, i);
    } else if Pow(K, w, i) == Pow(K, w, j) {
      RootNonzero(K, w, n);
      PowNonzero(K, w, i);
      PowAdd(K, w, j - i, i);
      MulOne(K, Pow(K, w, i));
      MulCancel(K, Pow(K, w, j - i), K.one, Pow(K, w, i));
    }
  }

  /** The `m`-th power of a root of order `m * n` has order `n`. */
  lemma RootPower<T(!new)>(K: Field<T>, w: T, m: nat, n: nat)
    requires IsField(K) && m > 0 && n > 0 && PrimitiveRoot(K, w, m * n)
    ensures PrimitiveRoot(K, Pow(K, w, m), n)
  {
    PowPow(K, w, m, n);
    forall k: nat | 0 < k < n ensures Pow(K, Pow(K, w, m), k) != K.one {
      PowPow(K, w, m, k);
      assert 0 < m * k < m * n by { MulLess(m, k, n); }
    }
  }

  lemma MulLess(m: nat, k: nat, n: nat)
    requires m > 0 && 0 < k < n
    ensures 0 < m * k < m * n
  {
    assert m * n == m * k + m * (n - k);
    assert m * k > 0 && m * (n - k) > 0;
  }

  lemma RootInverse<T(!new)>(K: Field<T>, w: T, n: nat)
    requires IsField(K) && PrimitiveRoot(K, w, n)
    ensures PrimitiveRoot(K, K.inv(w), n)
  {
    RootNonzero(K, w, n);
    forall k: nat ensures Pow(K, K.inv(w), k) == K.one <==> Pow(K, w, k) == K.one {
      PowInv(K, w, k);
      MulOne(K, Pow(K, w, k));
      MulOne(K, Pow(K, K.inv(w), k));
    }
  }

  /** The powers of `u` over a whole period of a root sum to zero, unless `u` is 1. */
  lemma Orthogonality<T(!new)>(K: Field<T>, u: T, n: nat, f: nat -> T)
    requires IsField(K) && Pow(K, u, n) == K.one
    requires forall i: nat {:trigger f(i)} | i < n :: f(i) == Pow(K, u, i)
    ensures u != K.one ==> Sum(K, n, f) == K.zero
    ensures u == K.one ==> Sum(K, n, f) == OfNat(K, n)
  {
    if u != K.one {
      GeometricSum(K, u, n, f);
      SubSelf(K, K.one, K.one);
      SubSelf(K, u, K.one);
      NoZeroDivisors(K, Sub(K, u, K.one), Sum(K, n, f));
    } else {
      forall i: nat | i < n ensures f(i) == K.one { PowOne(K, i); }
      SumEq(K, n, f, (i: nat) => K.one);
    }
  }

  lemma OfNatMul<T(!new)>(K: Field<T>, m: nat, n: nat)
    requires IsField(K)
    ensures OfNat(K, m * n) == K.mul(OfNat(K, m), OfNat(K, n))
  {
    hide IsField, Sum;
    var one := (i: nat) => K.one;
    var block := (i: nat) => OfNat(K, n);
    forall i: nat | i < m ensures block(i) == Sum(K, n, (j: nat) => one(At(i, n, j))) {
      SumEq(K, n, (i: nat) => K.one, (j: nat) => one(At(i, n, j)));
    }
    SumBlocks(K, m, n, one, block);
    SumEq(K, m * n, one, (i: nat) => K.one);
    SumEq(K, m, one, (i: nat) => K.one);
    MulOne(K, OfNat(K, n));
    SumScale(K, m, OfNat(K, n), one, block);
    MulComm(K, OfNat(K, n), OfNat(K, m));
  }

  function Exp2(k: nat): (n: nat)
    ensures n > 0
  {
    if k == 0 then 1 else 2 * Exp2(k - 1)
  }

  lemma {:induction false} Exp2Add(a: nat, b: nat)
    ensures Exp2(a + b) == Exp2(a) * Exp2(b)
  {
    if a > 0 {
      Exp2Add(a - 1, b);
      assert Exp2(a) * Exp2(b) == 2 * (Exp2(a - 1) * Exp2(b));
    }
  }

  /** A field with a root of order `2^k` has `2^k` invertible: were 2 zero, the
      root's half-way power, a square root of 1, would be 1 already. */
  lemma {:induction false} TwoPowerNonzero<T(!new)>(K: Field<T>, w: T, k: nat)
    requires IsField(K) && PrimitiveRoot(K, w, Exp2(k))
    ensures OfNat(K, Exp2(k)) != K.zero
  {
    if k == 0 {
      assert OfNat(K, 1) == K.add(Sum(K, 0, (i: nat) => K.one), K.one);
      AddZero(K, K.one);
    } else {
      var h := Exp2(k - 1);
      assert Exp2(k) == 2 * h;
      RootPower(K, w, 2, h);
      TwoPowerNonzero(K, Pow(K, w, 2), k - 1);
      TwoNonzero(K, Pow(K, w, h)) by {
        PowPow(K, w, h, 2);
        assert h * 2 == Exp2(k);
        assert Pow(K, w, h) != K.one;
      }
      OfNatMul(K, 2, h);
      NoZeroDivisors(K, OfNat(K, 2), OfNat(K, h));
    }
  }

  lemma TwoNonzero<T(!new)>(K: Field<T>, s: T)
    requires IsField(K) && Pow(K, s, 2) == K.one && s != K.one
    ensures OfNat(K, 2) != K.zero
  {
    PowSmall(K, s);
    assert Pow(K, s, 2) == K.mul(s, Pow(K, s, 1));
    // (s - 1)(1 + s) == 0, so 1 + s == 0; with 2 == 0 that is s == 1.
    var pows := (i: nat) => Pow(K, s, i);
    GeometricSum(K, s, 2, pows);
    SubSelf(K, K.one, K.one);
    SubSelf(K, s, K.one);
    NoZeroDivisors(K, Sub(K, s, K.one), Sum(K, 2, pows));
    assert Sum(K, 1, pows) == K.add(K.zero, K.one);
    assert Sum(K, 2, pows) == K.add(Sum(K, 1, pows), s);
    AddZero(K, K.one);
    var one := (i: nat) => K.one;
    assert Sum(K, 1, one) == K.add(K.zero, K.one);
    assert Sum(K, 2, one) == K.add(Sum(K, 1, one), K.one);
    SumEq(K, 2, one, (i: nat) => K.one);
    if OfNat(K, 2) == K.zero {
      AddComm(K, K.one, s);
      AddCancel(K, s, K.one, K.one);
    }
  }
}
