/** The field every polynomial module works over: Goldilocks' cubic extension
    in the program, here any field given by its operations.  Base-field scalars
    (the roots, the coset shift) are elements of the same type. */
module Fields {

  datatype Field<!T> = Field(zero: T, one: T, add: (T, T) -> T, neg: T -> T, mul: (T, T) -> T, inv: T -> T)

  // Marker terms that stand as triggers of the field laws, so that the laws are
  // used where a lemma below asks for them and nowhere else.
  ghost predicate Law2<T(!new)>(a: T, b: T) { true }
  ghost predicate Law3<T(!new)>(a: T, b: T, c: T) { true }

  ghost predicate IsField<T(!new)>(K: Field<T>) {
    && (forall a, b, c {:trigger Law3(a, b, c)} ::
          && K.add(K.add(a, b), c) == K.add(a, K.add(b, c))
          && K.mul(K.mul(a, b), c) == K.mul(a, K.mul(b, c))
          && K.mul(a, K.add(b, c)) == K.add(K.mul(a, b), K.mul(a, c)))
    && (forall a, b {:trigger Law2(a, b)} ::
          && K.add(a, b) == K.add(b, a)
          && K.mul(a, b) == K.mul(b, a))
    && (forall a {:trigger K.add(a, K.zero)} :: K.add(a, K.zero) == a)
    && (forall a {:trigger K.mul(a, K.one)} :: K.mul(a, K.one) == a)
    && (forall a {:trigger K.neg(a)} :: K.add(a, K.neg(a)) == K.zero)
    && (forall a {:trigger K.inv(a)} :: a != K.zero ==> K.mul(a, K.inv(a)) == K.one)
    && K.zero != K.one
  }

  function Sub<T>(K: Field<T>, a: T, b: T): T { K.add(a, K.neg(b)) }

  function Div<T>(K: Field<T>, a: T, b: T): T { K.mul(a, K.inv(b)) }

  function Pow<T>(K: Field<T>, x: T, n: nat): T {
    if n == 0 then K.one else K.mul(x, Pow(K, x, n - 1))
  }

  // ---------------------------------------------------------------- laws

  lemma AddAssoc<T(!new)>(K: Field<T>, a: T, b: T, c: T)
    requires IsField(K)
    ensures K.add(K.add(a, b), c) == K.add(a, K.add(b, c))
  { assert Law3(a, b, c); }

  lemma MulAssoc<T(!new)>(K: Field<T>, a: T, b: T, c: T)
    requires IsField(K)
    ensures K.mul(K.mul(a, b), c) == K.mul(a, K.mul(b, c))
  { assert Law3(a, b, c); }

  lemma AddComm<T(!new)>(K: Field<T>, a: T, b: T)
    requires IsField(K)
    ensures K.add(a, b) == K.add(b, a)
  { assert Law2(a, b); }

  lemma MulComm<T(!new)>(K: Field<T>, a: T, b: T)
    requires IsField(K)
    ensures K.mul(a, b) == K.mul(b, a)
  { assert Law2(a, b); }

  lemma Distrib<T(!new)>(K: Field<T>, a: T, b: T, c: T)
    requires IsField(K)
    ensures K.mul(a, K.add(b, c)) == K.add(K.mul(a, b), K.mul(a, c))
    ensures K.mul(K.add(b, c), a) == K.add(K.mul(b, a), K.mul(c, a))
  {
    assert Law3(a, b, c);
    assert Law2(a, K.add(b, c)) && Law2(a, b) && Law2(a, c);
  }

  lemma AddZero<T(!new)>(K: Field<T>, a: T)
    requires IsField(K)
    ensures K.add(a, K.zero) == a && K.add(K.zero, a) == a
  { assert Law2(a, K.zero); }

  lemma MulOne<T(!new)>(K: Field<T>, a: T)
    requires IsField(K)
    ensures K.mul(a, K.one) == a && K.mul(K.one, a) == a
  { assert Law2(a, K.one); }

  /** (a + b) + (c + d) == (a + c) + (b + d) */
  lemma AddInterchange<T(!new)>(K: Field<T>, a: T, b: T, c: T, d: T)
    requires IsField(K)
    ensures K.add(K.add(a, b), K.add(c, d)) == K.add(K.add(a, c), K.add(b, d))
  {
    AddAssoc(K, a, b, K.add(c, d));
    AddAssoc(K, b, c, d);
    AddComm(K, b, c);
    AddAssoc(K, c, b, d);
    AddAssoc(K, a, c, K.add(b, d));
  }

  /** (a b)(c d) == (a c)(b d) */
  lemma MulInterchange<T(!new)>(K: Field<T>, a: T, b: T, c: T, d: T)
    requires IsField(K)
    ensures K.mul(K.mul(a, b), K.mul(c, d)) == K.mul(K.mul(a, c), K.mul(b, d))
  {
    MulAssoc(K, a, b, K.mul(c, d));
    MulAssoc(K, b, c, d);
    MulComm(K, b, c);
    MulAssoc(K, c, b, d);
    MulAssoc(K, a, c, K.mul(b, d));
  }

  /** a (b c) == b (a c) */
  lemma MulSwap<T(!new)>(K: Field<T>, a: T, b: T, c: T)
    requires IsField(K)
    ensures K.mul(a, K.mul(b, c)) == K.mul(b, K.mul(a, c))
  {
    MulAssoc(K, a, b, c);
    MulComm(K, a, b);
    MulAssoc(K, b, a, c);
  }

  lemma AddCancel<T(!new)>(K: Field<T>, a: T, b: T, c: T)
    requires IsField(K) && K.add(a, c) == K.add(b, c)
    ensures a == b
  {
    var n := K.neg(c);
    AddAssoc(K, a, c, n);
    AddAssoc(K, b, c, n);
    AddZero(K, a);
    AddZero(K, b);
  }

  lemma MulZero<T(!new)>(K: Field<T>, a: T)
    requires IsField(K)
    ensures K.mul(a, K.zero) == K.zero && K.mul(K.zero, a) == K.zero
  {
    var z := K.mul(a, K.zero);
    AddZero(K, K.zero);
    Distrib(K, a, K.zero, K.zero);
    AddZero(K, z);
    AddCancel(K, z, K.zero, z);
    MulComm(K, a, K.zero);
  }

  lemma NegUnique<T(!new)>(K: Field<T>, a: T, b: T)
    requires IsField(K) && K.add(a, b) == K.zero
    ensures b == K.neg(a)
  {
    AddComm(K, a, b);
    AddComm(K, a, K.neg(a));
    AddCancel(K, b, K.neg(a), a);
  }

  lemma NegMul<T(!new)>(K: Field<T>, a: T, b: T)
    requires IsField(K)
    ensures K.mul(K.neg(a), b) == K.neg(K.mul(a, b))
    ensures K.mul(b, K.neg(a)) == K.neg(K.mul(b, a))
  {
    Distrib(K, b, a, K.neg(a));
    MulZero(K, b);
    NegUnique(K, K.mul(a, b), K.mul(K.neg(a), b));
    NegUnique(K, K.mul(b, a), K.mul(b, K.neg(a)));
  }

  lemma SubSelf<T(!new)>(K: Field<T>, a: T, b: T)
    requires IsField(K)
    ensures Sub(K, a, a) == K.zero
    ensures Sub(K, a, b) == K.zero <==> a == b
  {
    if Sub(K, a, b) == K.zero {
      assert K.add(b, K.neg(b)) == K.zero;
      AddCancel(K, a, b, K.neg(b));
    }
  }

  lemma SubAdd<T(!new)>(K: Field<T>, a: T, b: T)
    requires IsField(K)
    ensures K.add(Sub(K, a, b), b) == a
  {
    AddAssoc(K, a, K.neg(b), b);
    AddComm(K, b, K.neg(b));
  }

  /** c (a - b) == c a - c b, on either side */
  lemma SubMul<T(!new)>(K: Field<T>, c: T, a: T, b: T)
    requires IsField(K)
    ensures K.mul(c, Sub(K, a, b)) == Sub(K, K.mul(c, a), K.mul(c, b))
    ensures K.mul(Sub(K, a, b), c) == Sub(K, K.mul(a, c), K.mul(b, c))
  {
    Distrib(K, c, a, K.neg(b));
    NegMul(K, b, c);
  }

  lemma NoZeroDivisors<T(!new)>(K: Field<T>, a: T, b: T)
    requires IsField(K)
    ensures K.mul(a, b) == K.zero <==> a == K.zero || b == K.zero
  {
    MulZero(K, a);
    MulZero(K, b);
    if K.mul(a, b) == K.zero && a != K.zero {
      MulComm(K, a, K.inv(a));
      MulAssoc(K, K.inv(a), a, b);
      MulOne(K, b);
      MulZero(K, K.inv(a));
    }
  }

  lemma MulCancel<T(!new)>(K: Field<T>, a: T, b: T, c: T)
    requires IsField(K) && c != K.zero && K.mul(a, c) == K.mul(b, c)
    ensures a == b
  {
    SubMul(K, c, a, b);
    SubSelf(K, K.mul(a, c), K.mul(b, c));
    NoZeroDivisors(K, Sub(K, a, b), c);
    SubSelf(K, a, b);
  }

  lemma DivMul<T(!new)>(K: Field<T>, a: T, b: T)
    requires IsField(K) && b != K.zero
    ensures K.mul(Div(K, a, b), b) == a
    ensures Div(K, K.mul(a, b), b) == a
  {
    MulAssoc(K, a, K.inv(b), b);
    MulComm(K, b, K.inv(b));
    MulAssoc(K, a, b, K.inv(b));
    MulOne(K, a);
  }

  lemma DivUnique<T(!new)>(K: Field<T>, a: T, b: T, q: T)
    requires IsField(K) && b != K.zero && K.mul(q, b) == a
    ensures Div(K, a, b) == q
  {
    DivMul(K, q, b);
  }

  lemma InvNonzero<T(!new)>(K: Field<T>, a: T)
    requires IsField(K) && a != K.zero
    ensures K.inv(a) != K.zero && K.mul(a, K.inv(a)) == K.one && K.mul(K.inv(a), a) == K.one
  {
    MulZero(K, a);
    MulComm(K, a, K.inv(a));
  }

  // ---------------------------------------------------------------- powers

  lemma {:induction false} PowAdd<T(!new)>(K: Field<T>, x: T, m: nat, n: nat)
    requires IsField(K)
    ensures Pow(K, x, m + n) == K.mul(Pow(K, x, m), Pow(K, x, n))
  {
    if m == 0 {
      MulOne(K, Pow(K, x, n));
    } else {
      PowAdd(K, x, m - 1, n);
      MulAssoc(K, x, Pow(K, x, m - 1), Pow(K, x, n));
    }
  }

  lemma PowSmall<T(!new)>(K: Field<T>, x: T)
    requires IsField(K)
    ensures Pow(K, x, 0) == K.one && Pow(K, x, 1) == x
  {
    MulOne(K, x);
    assert Pow(K, x, 1) == K.mul(x, Pow(K, x, 0));
  }

  lemma {:induction false} PowOne<T(!new)>(K: Field<T>, n: nat)
    requires IsField(K)
    ensures Pow(K, K.one, n) == K.one
  {
    if n > 0 {
      PowOne(K, n - 1);
    }
  }

  lemma {:induction false} PowPow<T(!new)>(K: Field<T>, x: T, m: nat, n: nat)
    requires IsField(K)
    ensures Pow(K, Pow(K, x, m), n) == Pow(K, x, m * n)
  {
    if n > 0 {
      PowPow(K, x, m, n - 1);
      PowAdd(K, x, m, m * (n - 1));
      assert m * n == m + m * (n - 1);
    }
  }

  lemma {:induction false} PowMul<T(!new)>(K: Field<T>, x: T, y: T, n: nat)
    requires IsField(K)
    ensures Pow(K, K.mul(x, y), n) == K.mul(Pow(K, x, n), Pow(K, y, n))
  {
    if n == 0 {
      MulOne(K, K.one);
    } else {
      PowMul(K, x, y, n - 1);
      MulInterchange(K, x, y, Pow(K, x, n - 1), Pow(K, y, n - 1));
    }
  }

  lemma {:induction false} PowNonzero<T(!new)>(K: Field<T>, x: T, n: nat)
    requires IsField(K) && x != K.zero
    ensures Pow(K, x, n) != K.zero
  {
    if n > 0 {
      PowNonzero(K, x, n - 1);
      NoZeroDivisors(K, x, Pow(K, x, n - 1));
    }
  }

  lemma PowInv<T(!new)>(K: Field<T>, x: T, n: nat)
    requires IsField(K) && x != K.zero
    ensures K.mul(Pow(K, x, n), Pow(K, K.inv(x), n)) == K.one
    ensures K.mul(Pow(K, K.inv(x), n), Pow(K, x, n)) == K.one
    ensures Pow(K, K.inv(x), n) == K.inv(Pow(K, x, n))
  {
    InvNonzero(K, x);
    PowMul(K, x, K.inv(x), n);
    PowOne(K, n);
    MulComm(K, Pow(K, x, n), Pow(K, K.inv(x), n));
    PowNonzero(K, x, n);
    InvNonzero(K, Pow(K, x, n));
    MulCancel(K, Pow(K, K.inv(x), n), K.inv(Pow(K, x, n)), Pow(K, x, n));
  }
}
