/** Products, quotients and remainders, one small fact each. */
module Arith {

  lemma DivModUnique(x: nat, c: nat, q: nat, r: nat)
    requires r < c && x == c * q + r
    ensures x / c == q && x % c == r
  {
    var d, e := q - x / c, x % c - r;
    assert c * (q - x / c) == c * q - c * (x / c);
    SmallMultiple(c, d, e);
  }

  lemma SmallMultiple(c: int, d: int, e: int)
    requires -c < e < c && c * d == e
    ensures d == 0
  {
    assert c * (-d) == -(c * d);
    if d >= 1 { MulMono(1, d, c); }
    if d <= -1 { MulMono(1, -d, c); }
  }

  lemma MulMono(a: int, b: int, c: nat)
    requires a <= b
    ensures a * c <= b * c && c * a <= c * b
  {
    assert (b - a) * c >= 0;
  }

  lemma MulOrder(a: int, b: int, c: nat)
    requires c > 0
    ensures a * c <= b * c <==> a <= b
  {
    if a <= b { MulMono(a, b, c); } else { MulMono(b + 1, a, c); }
  }

  lemma DivBound(i: nat, c: nat, n: nat)
    requires i < n * c
    ensures c > 0 && i / c < n
  {
    assert c > 0;
    var q := i / c;
    assert q * c <= i;
    MulOrder(n, q, c);
  }

  lemma ModMod(x: nat, c: nat, n: nat)
    requires c > 0 && n > 0
    ensures n * c > 0 && (x % (n * c)) % c == x % c
  {
    var m := n * c;
    MulOrder(1, n, c);
    var y, k := x % m, x / m;
    assert x == m * k + y;
    var a, b := y / c, y % c;
    assert y == c * a + b;
    Regroup(n, c, k, a);
    DivModUnique(x, c, n * k + a, b);
  }

  lemma Regroup(n: nat, c: nat, k: nat, a: nat)
    ensures (n * c) * k + c * a == c * (n * k + a)
  {
    assert (n * c) * k == c * (n * k);
  }

  lemma DivOrder(a: nat, b: nat, c: nat)
    requires c > 0 && a <= b
    ensures a / c <= b / c
  {
    var q := b / c;
    assert b < (q + 1) * c by { assert b == q * c + b % c; }
    DivBound(a, c, q + 1);
  }

  /** a + m q divided by m. */
  lemma DivAdd(a: nat, q: nat, m: nat)
    requires m > 0
    ensures (a + m * q) / m == a / m + q && (a + m * q) % m == a % m
  {
    assert a == m * (a / m) + a % m;
    assert m * (a / m + q) == m * (a / m) + m * q;
    DivModUnique(a + m * q, m, a / m + q, a % m);
  }
}
