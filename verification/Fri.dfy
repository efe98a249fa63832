/** The FRI code over pil2's cosets: the fold of one layer (prover and verifier
    forms), the step schedule, and the chain of layers down to the final
    polynomial's low-degree test. */
module Fri {
  import opened Arith
  import opened Fields
  import opened Sums
  import opened Transforms
  import opened Polynomials
  import opened Cosets
  import opened Folding

  datatype Result<+R> = Ok(value: R) | ValueError

  // ------------------------------------------------------------- one layer

  /** Member `j` of group `g` is entry `j * cur + g`. */
  function Group<T>(pol: seq<T>, cur: nat, nx: nat, g: nat): (group: seq<T>)
    requires g < cur && |pol| == nx * cur
    ensures |group| == nx
  {
    seq(nx, (j: nat) requires j < nx => assert InGroup(cur, nx, g, j); pol[At(j, cur, g)])
  }

  ghost predicate InGroup(cur: nat, nx: nat, g: nat, j: nat)
    requires g < cur && j < nx
    ensures InGroup(cur, nx, g, j) && At(j, cur, g) < nx * cur
  {
    assert At(j, cur, g) < (j + 1) * cur <= nx * cur;
    true
  }

  predicate FoldSizes(ext: int, prev: int, cur: int) {
    0 <= cur < prev <= ext <= 32
  }

  /** The inverse of group `g`'s coset shift, from the two seeds of the power series. */
  function CosetInv<T>(D: Tower<T>, ext: nat, prev: nat, g: nat): T
    requires prev <= ext <= 32
  {
    D.K.mul(D.K.inv(Shift(D, ext, prev)), Pow(D.K, D.K.inv(Root(D, prev)), g))
  }

  /** The prover's fold of a codeword of size 2^prev to size 2^cur. */
  function Fold<T>(D: Tower<T>, pol: seq<T>, beta: T, ext: int, prev: int, cur: int): Result<seq<T>> {
    if !FoldSizes(ext, prev, cur) || |pol| != Exp2(prev) then ValueError
    else
      Exp2Add(prev - cur, cur);
      var w := Pow(D.K, Root(D, prev), Exp2(cur));
      Ok(seq(Exp2(cur), (g: nat) requires g < Exp2(cur) =>
        FoldCoset(D.K, Group(pol, Exp2(cur), Exp2(prev - cur), g), beta, CosetInv(D, ext, prev, g), w)))
  }

  /** The coset points a group's entries sit on: shift * w^g * (w^cur)^j. */
  function CosetDomain<T>(D: Tower<T>, ext: nat, prev: nat, cur: nat, g: nat): (xs: seq<T>)
    requires FoldSizes(ext, prev, cur)
    ensures |xs| == Exp2(prev - cur)
  {
    var w := Root(D, prev);
    seq(Exp2(prev - cur), (j: nat) =>
      D.K.mul(D.K.mul(Shift(D, ext, prev), Pow(D.K, w, g)), Pow(D.K, Pow(D.K, w, Exp2(cur)), j)))
  }

  /** `_powers`: each entry the one before it times the base. */
  method Powers<T(!new)>(K: Field<T>, base: T, count: nat) returns (out: array<T>)
    requires IsField(K)
    ensures out.Length == count && forall k: nat {:trigger out[k]} | k < count :: out[k] == Pow(K, base, k)
  {
    out := new T[count]((k: nat) => K.one);
    PowSmall(K, base);
    if count > 0 {
      for k := 1 to count
        invariant forall j: nat {:trigger out[j]} | j < k :: out[j] == Pow(K, base, j)
      {
        PowStep(K, base, k - 1);
        out[k] := K.mul(out[k - 1], base);
      }
    }
  }

  lemma PowStep<T(!new)>(K: Field<T>, base: T, k: nat)
    requires IsField(K)
    ensures Pow(K, base, k + 1) == K.mul(Pow(K, base, k), base)
  {
    PowAdd(K, base, k, 1);
    PowSmall(K, base);
  }

  /** Row `g` of the table: group `g`'s points. */
  function TableRow<T>(K: Field<T>, shift: T, col: seq<T>, row: seq<T>, g: nat): (xs: seq<T>)
    requires g < |col|
    ensures |xs| == |row|
  {
    seq(|row|, (j: nat) requires j < |row| => K.mul(K.mul(shift, col[g]), row[j]))
  }

  /** `_coset_domain`: the whole table, as the outer product of two short runs of powers. */
  method CosetTable<T(!new)>(D: Tower<T>, ext: nat, prev: nat, cur: nat) returns (table: seq<seq<T>>)
    requires IsTower(D) && FoldSizes(ext, prev, cur)
    ensures |table| == Exp2(cur) && forall g: nat {:trigger table[g]} | g < Exp2(cur) :: table[g] == CosetDomain(D, ext, prev, cur, g)
  {
    var K, w, shift := D.K, Root(D, prev), Shift(D, ext, prev);
    var col := Powers(K, w, Exp2(cur));
    var row := Powers(K, Pow(K, w, Exp2(cur)), Exp2(prev - cur));
    var c, r := col[..], row[..];
    table := seq(Exp2(cur), (g: nat) requires g < |c| => TableRow(K, shift, c, r, g));
    forall g: nat {:trigger table[g]} | g < Exp2(cur) ensures table[g] == CosetDomain(D, ext, prev, cur, g) {
      assert c[g] == Pow(K, w, g);
    }
  }

  /** The verifier's fold of one opened group. */
  function VerifyFold<T>(D: Tower<T>, values: seq<T>, beta: T, ext: int, prev: int, cur: int, idx: nat): Result<T> {
    if !FoldSizes(ext, prev, cur) || |values| != Exp2(prev - cur) then ValueError
    else Ok(Lagrange(D.K, CosetDomain(D, ext, prev, cur, idx), values, beta))
  }

  /** Group `g`'s own coset shift. */
  function GroupShift<T>(D: Tower<T>, ext: nat, prev: nat, g: nat): T
    requires prev <= ext <= 32
  {
    Point(D, ext, prev, g)
  }

  lemma CosetInvIsInverse<T(!new)>(D: Tower<T>, ext: nat, prev: nat, g: nat)
    requires IsTower(D) && prev <= ext <= 32
    ensures GroupShift(D, ext, prev, g) != D.K.zero
    ensures CosetInv(D, ext, prev, g) == D.K.inv(GroupShift(D, ext, prev, g))
  {
    var K, a, w := D.K, Shift(D, ext, prev), Root(D, prev);
    var b := Pow(K, w, g);
    PointNonzero(D, ext, prev, g);
    ShiftNonzero(D, ext, prev);
    RootTransforms(D, prev);
    RootNonzero(K, w, Exp2(prev));
    PowInv(K, w, g);
    InvNonzero(K, a);
    MulInterchange(K, K.inv(a), K.inv(b), a, b);
    MulOne(K, K.one);
    InvNonzero(K, K.mul(a, b));
    MulCancel(K, CosetInv(D, ext, prev, g), K.inv(K.mul(a, b)), K.mul(a, b));
  }

  lemma StridedRoot<T(!new)>(D: Tower<T>, prev: nat, cur: nat)
    requires IsTower(D) && cur <= prev <= 32
    ensures Transformable(D.K, Pow(D.K, Root(D, prev), Exp2(cur)), Exp2(prev - cur))
  {
    hide IsField, PrimitiveRoot, Pow;
    RootStep(D, prev, prev - cur);
    assert prev - (prev - cur) == cur;
    RootTransforms(D, prev - cur);
  }

  /** Point `j * cur + g` of the layer is member `j` of group `g`'s coset. */
  lemma MemberPoint<T(!new)>(D: Tower<T>, ext: nat, prev: nat, cur: nat, g: nat, j: nat)
    requires IsTower(D) && FoldSizes(ext, prev, cur)
    ensures Point(D, ext, prev, At(j, Exp2(cur), g))
         == D.K.mul(GroupShift(D, ext, prev, g), Pow(D.K, Pow(D.K, Root(D, prev), Exp2(cur)), j))
  {
    hide IsField, Pow, Root, Shift, Exp2;
    var K, w, c := D.K, Root(D, prev), Exp2(cur);
    PowAdd(K, w, j * c, g);
    PowPow(K, w, c, j);
    assert j * c == c * j;
    MulComm(K, Pow(K, w, c * j), Pow(K, w, g));
    MulAssoc(K, Shift(D, ext, prev), Pow(K, w, g), Pow(K, w, c * j));
  }

  /** A group's coset points are all different. */
  lemma CosetDistinct<T(!new)>(D: Tower<T>, ext: nat, prev: nat, cur: nat, g: nat)
    requires IsTower(D) && FoldSizes(ext, prev, cur)
    ensures Distinct(CosetDomain(D, ext, prev, cur, g))
  {
    hide IsField, PrimitiveRoot, Pow, Root, Shift, Exp2, Point;
    var K, s, w := D.K, GroupShift(D, ext, prev, g), Pow(D.K, Root(D, prev), Exp2(cur));
    var xs := CosetDomain(D, ext, prev, cur, g);
    CosetInvIsInverse(D, ext, prev, g);
    StridedRoot(D, prev, cur);
    forall i: nat, j: nat {:trigger xs[i], xs[j]} | i < |xs| && j < |xs| && i != j ensures xs[i] != xs[j] {
      GroupPoint(D, ext, prev, cur, g, i);
      GroupPoint(D, ext, prev, cur, g, j);
      RootDistinct(K, w, Exp2(prev - cur), i, j);
      MulComm(K, s, Pow(K, w, i));
      MulComm(K, s, Pow(K, w, j));
      if xs[i] == xs[j] { MulCancel(K, Pow(K, w, i), Pow(K, w, j), s); }
    }
  }

  lemma GroupPoint<T(!new)>(D: Tower<T>, ext: nat, prev: nat, cur: nat, g: nat, j: nat)
    requires FoldSizes(ext, prev, cur) && j < Exp2(prev - cur)
    ensures CosetDomain(D, ext, prev, cur, g)[j]
         == D.K.mul(GroupShift(D, ext, prev, g), Pow(D.K, Pow(D.K, Root(D, prev), Exp2(cur)), j))
  {
  }

  /** Both folds of a group are the same element, whatever the codeword: the
      prover's inverse transform with coset rescale, and the verifier's Lagrange
      interpolation over the explicit points. */
  lemma VerifyFoldIsFold<T(!new)>(D: Tower<T>, pol: seq<T>, beta: T, ext: nat, prev: nat, cur: nat, g: nat)
    requires IsTower(D) && FoldSizes(ext, prev, cur) && |pol| == Exp2(prev) && g < Exp2(cur)
    ensures Fold(D, pol, beta, ext, prev, cur).Ok?
    ensures Exp2(prev - cur) * Exp2(cur) == Exp2(prev)
    ensures VerifyFold(D, Group(pol, Exp2(cur), Exp2(prev - cur), g), beta, ext, prev, cur, g)
         == Ok(Fold(D, pol, beta, ext, prev, cur).value[g])
  {
    Exp2Add(prev - cur, cur);
    var group := Group(pol, Exp2(cur), Exp2(prev - cur), g);
    CosetInvIsInverse(D, ext, prev, g);
    StridedRoot(D, prev, cur);
    FoldFormsAgree(D.K, group, beta, GroupShift(D, ext, prev, g), Pow(D.K, Root(D, prev), Exp2(cur)),
                   CosetDomain(D, ext, prev, cur, g));
  }

  /** Folding the codeword of `p` gives the codeword, on the next layer's coset,
      of the beta-combination of p's components. */
  lemma FoldKeepsCode<T(!new)>(D: Tower<T>, p: seq<T>, pol: seq<T>, beta: T, ext: nat, prev: nat, cur: nat)
    requires IsTower(D) && FoldSizes(ext, prev, cur) && IsCodeword(D, ext, prev, p, pol)
    ensures Fold(D, pol, beta, ext, prev, cur).Ok?
    ensures IsCodeword(D, ext, cur, Combine(D.K, p, Exp2(prev - cur), beta), Fold(D, pol, beta, ext, prev, cur).value)
  {
    var q := Combine(D.K, p, Exp2(prev - cur), beta);
    var out := Fold(D, pol, beta, ext, prev, cur).value;
    forall g: nat {:trigger out[g]} | g < Exp2(cur) ensures out[g] == Eval(D.K, q, Point(D, ext, cur, g)) {
      FoldGroupValue(D, p, pol, beta, ext, prev, cur, g);
    }
  }

  lemma FoldGroupValue<T(!new)>(D: Tower<T>, p: seq<T>, pol: seq<T>, beta: T, ext: nat, prev: nat, cur: nat, g: nat)
    requires IsTower(D) && FoldSizes(ext, prev, cur) && IsCodeword(D, ext, prev, p, pol) && g < Exp2(cur)
    ensures Fold(D, pol, beta, ext, prev, cur).Ok?
    ensures Fold(D, pol, beta, ext, prev, cur).value[g]
         == Eval(D.K, Combine(D.K, p, Exp2(prev - cur), beta), Point(D, ext, cur, g))
  {
    hide Eval, Combine, Parts, Pow, Root, GroupShift, Point, Exp2;
    var K, c, n := D.K, Exp2(cur), Exp2(prev - cur);
    Exp2Add(prev - cur, cur);
    var group := Group(pol, c, n, g);
    var y := Point(D, ext, cur, g);
    var a := Parts(K, p, n, y);
    forall j: nat {:trigger group[j]} | j < n
      ensures group[j] == Eval(K, a, K.mul(GroupShift(D, ext, prev, g), Pow(K, Pow(K, Root(D, prev), c), j)))
    {
      MemberValue(D, p, pol, ext, prev, cur, g, j);
    }
    CosetInvIsInverse(D, ext, prev, g);
    StridedRoot(D, prev, cur);
    FoldCosetEval(K, group, beta, GroupShift(D, ext, prev, g), Pow(K, Root(D, prev), c), a);
    CombineEval(K, p, n, y, beta);
  }

  /** A group's entries are the values, on the group's coset, of one polynomial
      with a coefficient for each component of `p`. */
  lemma MemberValue<T(!new)>(D: Tower<T>, p: seq<T>, pol: seq<T>, ext: nat, prev: nat, cur: nat, g: nat, j: nat)
    requires IsTower(D) && FoldSizes(ext, prev, cur) && IsCodeword(D, ext, prev, p, pol)
    requires g < Exp2(cur) && j < Exp2(prev - cur) && |pol| == Exp2(prev - cur) * Exp2(cur)
    ensures Group(pol, Exp2(cur), Exp2(prev - cur), g)[j]
         == Eval(D.K, Parts(D.K, p, Exp2(prev - cur), Point(D, ext, cur, g)),
                 D.K.mul(GroupShift(D, ext, prev, g), Pow(D.K, Pow(D.K, Root(D, prev), Exp2(cur)), j)))
  {
    var c, n := Exp2(cur), Exp2(prev - cur);
    assert InGroup(c, n, g, j);
    var i := At(j, c, g);
    MemberPoint(D, ext, prev, cur, g, j);
    SplitEval(D.K, p, n, Point(D, ext, prev, i));
    PointStep(D, ext, prev, cur, i);
    PointMod(D, ext, cur, i);
    AtMod(j, c, g);
  }

  lemma AtMod(j: nat, c: nat, g: nat)
    requires g < c
    ensures At(j, c, g) % c == g && At(j, c, g) / c == j
  {
    var x := At(j, c, g);
    assert x == c * j + g;
    DivModUnique(x, c, j, g);
  }

  // --------------------------------------------------------------- the code

  predicate NonIncreasing(steps: seq<int>) {
    forall i: nat, j: nat {:trigger steps[i], steps[j]} | i < j < |steps| :: steps[i] >= steps[j]
  }

  predicate NoRepeat(steps: seq<int>) {
    forall i: nat, j: nat {:trigger steps[i], steps[j]} | i < j < |steps| :: steps[i] != steps[j]
  }

  /** `Pil2FriCode`'s checks: at least one step, each a log size in [0, 32], equal
      to its own descending sort, and without a repeat. */
  function MakeCode(steps: seq<int>): Result<seq<int>> {
    if |steps| < 1 then ValueError
    else if exists i: nat {:trigger steps[i]} :: i < |steps| && !(0 <= steps[i] <= 32) then ValueError
    else if !NonIncreasing(steps) || !NoRepeat(steps) then ValueError
    else Ok(steps)
  }

  ghost predicate Falling(steps: seq<int>) {
    forall i: nat, j: nat {:trigger steps[i], steps[j]} | i + 1 == j < |steps| :: steps[i] > steps[j]
  }

  ghost predicate Schedule(steps: seq<int>) {
    |steps| >= 1 && steps[0] <= 32 && 0 <= steps[|steps| - 1]
    && Falling(steps)
  }

  lemma {:induction false} ScheduleOrder(steps: seq<int>, i: nat, j: nat)
    requires i < j < |steps|
    requires Falling(steps)
    ensures steps[i] > steps[j]
    decreases j
  {
    if i < j - 1 {
      ScheduleOrder(steps, i, j - 1);
    }
  }

  /** The checks accept exactly the strictly decreasing schedules within [0, 32]. */
  lemma MakeCodeAccepts(steps: seq<int>)
    ensures MakeCode(steps) == Ok(steps) <==> Schedule(steps)
    ensures MakeCode(steps).Ok? <==> MakeCode(steps) == Ok(steps)
    ensures Schedule(steps) ==> forall i: nat, j: nat {:trigger steps[i], steps[j]} | i < j < |steps| :: 32 >= steps[i] > steps[j] >= 0
    ensures Schedule(steps) ==> forall i: nat {:trigger steps[i]} | i < |steps| :: 0 <= steps[|steps| - 1] <= steps[i] <= steps[0] <= 32
  {
    if Schedule(steps) {
      forall i: nat, j: nat {:trigger steps[i], steps[j]} | i < j < |steps| ensures steps[i] > steps[j] {
        ScheduleOrder(steps, i, j);
      }
    }
  }

  /** The layer whose size a codeword has: `steps.index(floor(log2(length)))`. */
  function LevelFrom(steps: seq<int>, bits: int, i: nat): Result<nat>
    decreases |steps| - i
  {
    if i >= |steps| then ValueError
    else if steps[i] == bits then Ok(i)
    else LevelFrom(steps, bits, i + 1)
  }

  function FloorLog2(n: nat): nat
    requires n > 0
  {
    if n == 1 then 0 else 1 + FloorLog2(n / 2)
  }

  lemma {:induction false} FloorLog2Exp2(k: nat)
    ensures FloorLog2(Exp2(k)) == k
  {
    if k > 0 {
      FloorLog2Exp2(k - 1);
    }
  }

  /** `Pil2FriCode.fold_group`: the codeword's own length picks the layer. */
  function FoldGroup<T>(D: Tower<T>, steps: seq<int>, codeword: seq<T>, beta: T): Result<seq<T>> {
    if |codeword| == 0 || |steps| == 0 then ValueError
    else
      match LevelFrom(steps, FloorLog2(|codeword|), 0)
      case ValueError => ValueError
      case Ok(i) => if i + 1 >= |steps| || i >= |steps| then ValueError
                    else Fold(D, codeword, beta, steps[0], steps[i], steps[i + 1])
  }

  lemma {:induction false} LevelOf(steps: seq<int>, i: nat, k: nat)
    requires k <= i < |steps|
    requires forall j: nat {:trigger steps[j]} | k <= j < i :: steps[j] != steps[i]
    ensures LevelFrom(steps, steps[i], k) == Ok(i)
    decreases i - k
  {
    if k < i {
      LevelOf(steps, i, k + 1);
    }
  }

  lemma FoldGroupLevel<T(!new)>(D: Tower<T>, steps: seq<int>, codeword: seq<T>, beta: T, i: nat)
    requires Schedule(steps) && i + 1 < |steps| && steps[i] >= 0 && |codeword| == Exp2(steps[i])
    ensures FoldGroup(D, steps, codeword, beta) == Fold(D, codeword, beta, steps[0], steps[i], steps[i + 1])
  {
    FloorLog2Exp2(steps[i]);
    MakeCodeAccepts(steps);
    LevelOf(steps, i, 0);
  }

  /** `Pil2FriCode.check_final`: the plain inverse transform of the final
      polynomial has no coefficient at or above the degree bound. */
  function CheckFinal<T(==)>(D: Tower<T>, steps: seq<int>, final: seq<T>, nBits: int): Result<bool>
    requires Schedule(steps)
  {
    MakeCodeAccepts(steps);
    var last := steps[|steps| - 1];
    var blowup := steps[0] - nBits;
    if |final| != Exp2(last) || blowup < 0 then ValueError
    else
      var init := if blowup > last then 0 else Exp2(last - blowup);
      var coeffs := Intt(D.K, Root(D, last), Exp2(last), final);
      Ok(forall k: nat {:trigger coeffs[k]} | init <= k < |coeffs| :: coeffs[k] == D.K.zero)
  }

  // ----------------------------------------------------------- whole chains

  /** Layer `i`'s codeword when the prover folds `pol` with `betas`. */
  function Layer<T>(D: Tower<T>, steps: seq<int>, pol: seq<T>, betas: seq<T>, i: nat): Result<seq<T>>
    requires i <= |betas|
  {
    if i == 0 then Ok(pol)
    else
      match Layer(D, steps, pol, betas, i - 1)
      case ValueError => ValueError
      case Ok(codeword) => FoldGroup(D, steps, codeword, betas[i - 1])
  }

  /** The polynomial whose codeword layer `i` is. */
  function LayerPoly<T>(D: Tower<T>, steps: seq<int>, p: seq<T>, betas: seq<T>, i: nat): seq<T>
    requires Schedule(steps) && i <= |betas| && i < |steps|
  {
    if i == 0 then p
    else
      MakeCodeAccepts(steps);
      Combine(D.K, LayerPoly(D, steps, p, betas, i - 1), Exp2(steps[i - 1] - steps[i]), betas[i - 1])
  }

  /** 2^e coefficients, at least one. */
  function Coefficients(e: int): nat { if e >= 0 then Exp2(e) else 1 }

  /** 2^n_bits divided by the folds so far, at least one coefficient. */
  function DegreeAt(steps: seq<int>, nBits: nat, i: nat): nat
    requires i < |steps|
  {
    Coefficients(nBits - (steps[0] - steps[i]))
  }

  lemma CeilDivExact(a: nat, b: nat)
    requires b > 0
    ensures CeilDiv(a * b, b) == a
  {
    var q: int := CeilDiv(a * b, b);
    MulOrder(a, q, b);
    MulOrder(a, q - 1, b);
  }

  lemma CoefficientsDrop(e: int, drop: nat)
    ensures CeilDiv(Coefficients(e), Exp2(drop)) == Coefficients(e - drop)
  {
    if e >= drop {
      Exp2Add(e - drop, drop);
      CeilDivExact(Exp2(e - drop), Exp2(drop));
    } else {
      CoefficientsFit(if e >= 0 then e else 0, drop);
      CeilDivOne(Coefficients(e), Exp2(drop));
      assert Exp2(0) == 1;
    }
  }

  lemma CoefficientsFit(d: nat, drop: nat)
    requires d <= drop
    ensures 1 <= Exp2(d) <= Exp2(drop) && Exp2(0) == 1
  {
    Exp2Add(drop - d, d);
    MulMono(1, Exp2(drop - d), Exp2(d));
  }

  /** Each fold divides the bound, and the bound never falls below one coefficient. */
  lemma DegreeStep(steps: seq<int>, nBits: nat, i: nat)
    requires Schedule(steps) && i + 1 < |steps| && nBits <= steps[0]
    ensures steps[i] > steps[i + 1]
    ensures CeilDiv(DegreeAt(steps, nBits, i), Exp2(steps[i] - steps[i + 1])) == DegreeAt(steps, nBits, i + 1)
  {
    CoefficientsDrop(nBits - (steps[0] - steps[i]), steps[i] - steps[i + 1]);
  }

  lemma CeilDivOne(a: nat, b: nat)
    requires 1 <= a <= b
    ensures CeilDiv(a, b) == 1
  {
    var q: int := CeilDiv(a, b);
    MulOrder(q, 0, b);
    MulOrder(1, q - 1, b);
  }

  /** For every accepted schedule and every polynomial of degree below 2^n_bits,
      layer after layer, the prover holds the codeword of a polynomial whose
      degree bound was divided by every fold factor so far. */
  lemma {:induction false} ChainKeepsCode<T(!new)>(D: Tower<T>, steps: seq<int>, p: seq<T>, pol: seq<T>,
                                                   betas: seq<T>, nBits: nat, i: nat)
    requires IsTower(D) && Schedule(steps) && |betas| + 1 == |steps| && i < |steps|
    requires nBits <= steps[0] && DegreeBelow(D.K, p, Exp2(nBits))
    requires 0 <= steps[i] <= steps[0] <= 32 && IsCodeword(D, steps[0], steps[0], p, pol)
    ensures Layer(D, steps, pol, betas, i).Ok?
    ensures IsCodeword(D, steps[0], steps[i], LayerPoly(D, steps, p, betas, i), Layer(D, steps, pol, betas, i).value)
    ensures DegreeBelow(D.K, LayerPoly(D, steps, p, betas, i), DegreeAt(steps, nBits, i))
    decreases i
  {
    if i > 0 {
      MakeCodeAccepts(steps);
      ChainKeepsCode(D, steps, p, pol, betas, nBits, i - 1);
      ChainStep(D, steps, p, pol, betas, nBits, i - 1);
    }
  }

  lemma ChainStep<T(!new)>(D: Tower<T>, steps: seq<int>, p: seq<T>, pol: seq<T>,
                           betas: seq<T>, nBits: nat, i: nat)
    requires IsTower(D) && Schedule(steps) && |betas| + 1 == |steps| && i + 1 < |steps|
    requires nBits <= steps[0] && 0 <= steps[i + 1] < steps[i] <= steps[0] <= 32
    requires Layer(D, steps, pol, betas, i).Ok?
    requires IsCodeword(D, steps[0], steps[i], LayerPoly(D, steps, p, betas, i), Layer(D, steps, pol, betas, i).value)
    requires DegreeBelow(D.K, LayerPoly(D, steps, p, betas, i), DegreeAt(steps, nBits, i))
    ensures Layer(D, steps, pol, betas, i + 1).Ok?
    ensures IsCodeword(D, steps[0], steps[i + 1], LayerPoly(D, steps, p, betas, i + 1), Layer(D, steps, pol, betas, i + 1).value)
    ensures DegreeBelow(D.K, LayerPoly(D, steps, p, betas, i + 1), DegreeAt(steps, nBits, i + 1))
  {
    var q := LayerPoly(D, steps, p, betas, i);
    var v := Layer(D, steps, pol, betas, i).value;
    FoldGroupLevel(D, steps, v, betas[i], i);
    FoldKeepsCode(D, q, v, betas[i], steps[0], steps[i], steps[i + 1]);
    CombineDegree(D.K, q, Exp2(steps[i] - steps[i + 1]), betas[i], DegreeAt(steps, nBits, i));
    DegreeStep(steps, nBits, i);
  }

  lemma {:induction false} Exp2Mono(a: nat, b: nat)
    requires a <= b
    ensures Exp2(a) <= Exp2(b)
  {
    Exp2Add(b - a, a);
    assert Exp2(b - a) * Exp2(a) >= 1 * Exp2(a);
  }

  /** On a codeword the low-degree test reads exactly the degree of its polynomial. */
  lemma CheckFinalReadsDegree<T(!new)>(D: Tower<T>, steps: seq<int>, q: seq<T>, final: seq<T>, nBits: nat)
    requires IsTower(D) && Schedule(steps) && nBits <= steps[0]
    requires 0 <= steps[|steps| - 1] <= steps[0] <= 32
    requires DegreeBelow(D.K, q, Exp2(steps[|steps| - 1]))
    requires IsCodeword(D, steps[0], steps[|steps| - 1], q, final)
    ensures CheckFinal(D, steps, final, nBits).Ok?
    ensures CheckFinal(D, steps, final, nBits).value
       <==> DegreeBelow(D.K, q, if steps[0] - nBits > steps[|steps| - 1] then 0
                                else Exp2(steps[|steps| - 1] - (steps[0] - nBits)))
  {
    var K, last := D.K, steps[|steps| - 1];
    var n, s := Exp2(last), Shift(D, steps[0], last);
    var init := if steps[0] - nBits > last then 0 else Exp2(last - (steps[0] - nBits));
    var coeffs := Intt(K, Root(D, last), n, final);
    CodewordIntt(D, steps[0], last, q, final);
    ShiftNonzero(D, steps[0], last);
    var padded := Padded(K, q, n);
    forall k: nat {:trigger coeffs[k]} | k < n ensures coeffs[k] == K.zero <==> Coef(K, q, k) == K.zero {
      PowNonzero(K, s, k);
      assert padded[k] == Coef(K, q, k);
      NoZeroDivisors(K, padded[k], Pow(K, s, k));
    }
    forall k: nat {:trigger Coef(K, q, k)} | n <= k ensures Coef(K, q, k) == K.zero {
    }
    if CheckFinal(D, steps, final, nBits).value {
      forall k: nat {:trigger Coef(K, q, k)} | init <= k ensures Coef(K, q, k) == K.zero {
        if k < n { assert coeffs[k] == K.zero; }
      }
    } else {
      var k: nat :| init <= k < n && coeffs[k] != K.zero;
      assert Coef(K, q, k) != K.zero;
    }
  }

  /** The terminal test on an honest chain: it passes whenever the blowup is no
      wider than the last layer.  When it is wider, the bound collapses to the
      zero polynomial and the test passes exactly for it: an honest nonzero
      constant is rejected. */
  lemma HonestFinalAccepted<T(!new)>(D: Tower<T>, steps: seq<int>, p: seq<T>, pol: seq<T>, betas: seq<T>, nBits: nat)
    requires IsTower(D) && Schedule(steps) && |betas| + 1 == |steps|
    requires nBits <= steps[0] && DegreeBelow(D.K, p, Exp2(nBits))
    requires 0 <= steps[0] <= 32 && IsCodeword(D, steps[0], steps[0], p, pol)
    ensures Layer(D, steps, pol, betas, |betas|).Ok?
    ensures CheckFinal(D, steps, Layer(D, steps, pol, betas, |betas|).value, nBits).Ok?
    ensures CheckFinal(D, steps, Layer(D, steps, pol, betas, |betas|).value, nBits).value
       <==> steps[0] - nBits <= steps[|steps| - 1] || DegreeBelow(D.K, LayerPoly(D, steps, p, betas, |betas|), 0)
  {
    var i := |betas|;
    FinalBound(steps, nBits);
    ChainKeepsCode(D, steps, p, pol, betas, nBits, i);
    var q := LayerPoly(D, steps, p, betas, i);
    DegreeWeaken(D.K, q, DegreeAt(steps, nBits, i), Exp2(steps[i]));
    CheckFinalReadsDegree(D, steps, q, Layer(D, steps, pol, betas, i).value, nBits);
  }

  /** The last layer's bound fits the layer, and is the test's when the blowup does. */
  lemma FinalBound(steps: seq<int>, nBits: nat)
    requires Schedule(steps) && nBits <= steps[0]
    ensures var last := steps[|steps| - 1];
            && 0 <= last <= steps[0] <= 32
            && DegreeAt(steps, nBits, |steps| - 1) <= Exp2(last)
            && (steps[0] - nBits <= last ==> DegreeAt(steps, nBits, |steps| - 1) == Exp2(last - (steps[0] - nBits)))
  {
    MakeCodeAccepts(steps);
    var last := steps[|steps| - 1];
    var e := nBits - (steps[0] - last);
    if e >= 0 { Exp2Mono(e, last); }
  }

  lemma DegreeWeaken<T(!new)>(K: Field<T>, p: seq<T>, d: nat, e: nat)
    requires DegreeBelow(K, p, d) && d <= e
    ensures DegreeBelow(K, p, e)
  {
  }

  /** The rejected case is real: the constant 1 on a domain of two points folded
      to one, with a base domain of one point. */
  lemma WideBlowupRejectsConstant<T(!new)>(D: Tower<T>, beta: T)
    requires IsTower(D)
    ensures var pol := [D.K.one, D.K.one];
            && IsCodeword(D, 1, 1, [D.K.one], pol) && DegreeBelow(D.K, [D.K.one], Exp2(0))
            && Layer(D, [1, 0], pol, [beta], 1).Ok?
            && CheckFinal(D, [1, 0], Layer(D, [1, 0], pol, [beta], 1).value, 0) == Ok(false)
  {
    var K, p, steps := D.K, [D.K.one], [1, 0];
    var pol := [K.one, K.one];
    assert Exp2(0) == 1 && Exp2(1) == 2;
    forall x: T ensures Eval(K, p, x) == K.one {
      assert p == [K.one] + [];
      EvalCons(K, K.one, [], x);
      MulZero(K, x);
      AddZero(K, K.one);
    }
    assert DegreeBelow(K, p, 1);
    HonestFinalAccepted(D, steps, p, pol, [beta], 0);
    var q := LayerPoly(D, steps, p, [beta], 1);
    assert LayerPoly(D, steps, p, [beta], 0) == p;
    var v := Layer(D, steps, pol, [beta], 1).value;
    ChainKeepsCode(D, steps, p, pol, [beta], 0, 1);
    ConstantCombine(K, beta);
    assert Coef(K, q, 0) == K.one;
  }

  lemma ConstantCombine<T(!new)>(K: Field<T>, beta: T)
    requires IsField(K)
    ensures Combine(K, [K.one], 2, beta) == [K.one]
  {
    var p := [K.one];
    CeilDivOne(1, 2);
    var block := Block(K, p, 2, 0);
    var t := Term(K, block, beta);
    assert Coef(K, block, 0) == K.one && Coef(K, block, 1) == K.zero;
    assert t(0) == K.mul(K.one, Pow(K, beta, 0));
    assert t(1) == K.mul(K.zero, Pow(K, beta, 1));
    MulZero(K, Pow(K, beta, 1));
    MulOne(K, K.one);
    SumSingle(K, 2, t, 0);
  }
}
