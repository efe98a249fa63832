/** The DEEP batch with two challenges: vf2-Horner inside an opening group, one
    reciprocal for each group, vf1-Horner across groups. */
module Deep {
  import opened Arith
  import opened Fields
  import opened Sums
  import opened Transforms
  import opened Polynomials
  import opened Cosets
  import opened Fri
  import opened Lev

  datatype Option<+T> = None | Some(value: T)

  // ------------------------------------------------------- what it computes

  /** Entries of group `k` among pos[from..to]. */
  function Count(pos: seq<int>, k: int, from: nat, upto: nat): nat
    requires from <= upto <= |pos|
    decreases upto - from
  {
    if from == upto then 0 else Count(pos, k, from, upto - 1) + if pos[upto - 1] == k then 1 else 0
  }

  /** One entry's share of group `k` among the first `to`: its difference times
      vf2 to the number of the group's entries behind it. */
  function GroupTerm<T>(K: Field<T>, pos: seq<int>, diffs: seq<T>, vf2: T, k: int, upto: nat): nat -> T
    requires |diffs| == |pos| && upto <= |pos|
  {
    (i: nat) => if i < upto && pos[i] == k then K.mul(diffs[i], Pow(K, vf2, Count(pos, k, i + 1, upto))) else K.zero
  }

  /** Group `k`'s numerator: the vf2-powered sum of its entries' differences. */
  function GroupSum<T>(K: Field<T>, pos: seq<int>, diffs: seq<T>, vf2: T, k: int, upto: nat): T
    requires |diffs| == |pos| && upto <= |pos|
  {
    Sum(K, upto, GroupTerm(K, pos, diffs, vf2, k, upto))
  }

  /** The opening points xi w^prime, with the exponent reduced modulo N. */
  function Openings<T>(D: Tower<T>, xi: T, openings: seq<int>, nBits: nat): (zs: seq<T>)
    requires nBits <= 32
    ensures |zs| == |openings|
  {
    seq(|openings|, (k: nat) requires k < |openings| =>
      D.K.mul(xi, Pow(D.K, Root(D, nBits), openings[k] % Exp2(nBits))))
  }

  /** Opening `k`'s share of the first `to`: vf1 to the number of openings behind
      it, whether or not they have entries, times its group over x - z_k. */
  function OpeningTerm<T>(K: Field<T>, pos: seq<int>, diffs: seq<T>, x: T, zs: seq<T>, vf1: T, vf2: T, upto: nat): nat -> T
    requires |diffs| == |pos| && upto <= |zs|
  {
    (k: nat) => if k < upto then
                  K.mul(Div(K, GroupSum(K, pos, diffs, vf2, k, |pos|), Sub(K, x, zs[k])), Pow(K, vf1, upto - 1 - k))
                else K.zero
  }

  /** The batch at one row. */
  function PowerSum<T>(K: Field<T>, pos: seq<int>, diffs: seq<T>, x: T, zs: seq<T>, vf1: T, vf2: T, upto: nat): T
    requires |diffs| == |pos| && upto <= |zs|
  {
    Sum(K, upto, OpeningTerm(K, pos, diffs, x, zs, vf1, vf2, upto))
  }

  /** The columns' differences from their evaluations, at row `r`. */
  function Diffs<T>(K: Field<T>, columns: seq<seq<T>>, evals: seq<T>, r: nat): (d: seq<T>)
    requires |columns| == |evals|
    requires forall i: nat {:trigger columns[i]} | i < |columns| :: r < |columns[i]|
    ensures |d| == |columns|
  {
    seq(|columns|, (i: nat) requires i < |columns| => Sub(K, columns[i][r], evals[i]))
  }

  ghost predicate Rectangular<T>(columns: seq<seq<T>>, rows: nat) {
    forall i: nat {:trigger columns[i]} | i < |columns| :: |columns[i]| == rows
  }

  /** The batch over every row of the domain. */
  function DeepRows<T>(K: Field<T>, pos: seq<int>, columns: seq<seq<T>>, evals: seq<T>, domain: seq<T>, zs: seq<T>,
                       vf1: T, vf2: T, upto: nat): (r: seq<T>)
    requires |columns| == |evals| == |pos| && Rectangular(columns, |domain|) && upto <= |zs|
    ensures |r| == |domain|
  {
    seq(|domain|, (r: nat) requires r < |domain| =>
      PowerSum(K, pos, Diffs(K, columns, evals, r), domain[r], zs, vf1, vf2, upto))
  }

  /** The set of entries of opening `k` behind entry `i`. */
  ghost function Behind(pos: seq<int>, k: int, i: nat): set<nat> { set j: nat | i < j < |pos| && pos[j] == k }

  lemma {:induction false} CountIs(pos: seq<int>, k: int, from: nat, upto: nat)
    requires from <= upto <= |pos|
    ensures Count(pos, k, from, upto) == |set j: nat | from <= j < upto && pos[j] == k|
    decreases upto - from
  {
    var s := set j: nat | from <= j < upto && pos[j] == k;
    if from == upto {
      assert s == {};
    } else {
      CountIs(pos, k, from, upto - 1);
      var was := set j: nat | from <= j < upto - 1 && pos[j] == k;
      if pos[upto - 1] == k { assert s == was + {upto - 1}; } else { assert s == was; }
    }
  }

  /** A group's sum, written out: over its entries, vf2 to the number of its entries behind. */
  lemma GroupSumIs<T(!new)>(K: Field<T>, pos: seq<int>, diffs: seq<T>, vf2: T, k: int)
    requires |diffs| == |pos|
    ensures GroupSum(K, pos, diffs, vf2, k, |pos|)
         == Sum(K, |pos|, (i: nat) => if i < |pos| && pos[i] == k then K.mul(diffs[i], Pow(K, vf2, |Behind(pos, k, i)|)) else K.zero)
  {
    hide Sum, Pow;
    var f := GroupTerm(K, pos, diffs, vf2, k, |pos|);
    var g := (i: nat) => if i < |pos| && pos[i] == k then K.mul(diffs[i], Pow(K, vf2, |Behind(pos, k, i)|)) else K.zero;
    forall i: nat | i < |pos| ensures f(i) == g(i) {
      CountIs(pos, k, i + 1, |pos|);
      assert (set j: nat | i + 1 <= j < |pos| && pos[j] == k) == Behind(pos, k, i);
    }
    SumEq(K, |pos|, f, g);
  }

  /** The batch at one row, written out: over the openings, vf1 to the number of openings
      behind, times the group's sum of the columns less their evaluations, over x - z. */
  lemma DeepRowIs<T(!new)>(K: Field<T>, pos: seq<int>, columns: seq<seq<T>>, evals: seq<T>, domain: seq<T>, zs: seq<T>, vf1: T, vf2: T,
                           r: nat, diffs: seq<T>)
    requires |columns| == |evals| == |pos| && Rectangular(columns, |domain|) && r < |domain|
    requires |diffs| == |pos| && forall i: nat {:trigger columns[i]} | i < |pos| :: diffs[i] == Sub(K, columns[i][r], evals[i])
    ensures DeepRows(K, pos, columns, evals, domain, zs, vf1, vf2, |zs|)[r]
         == Sum(K, |zs|, (k: nat) =>
              if k < |zs| then K.mul(Div(K, GroupSum(K, pos, diffs, vf2, k, |pos|), Sub(K, domain[r], zs[k])), Pow(K, vf1, |zs| - 1 - k))
              else K.zero)
  {
    hide Sum, Pow, GroupSum;
    assert diffs == Diffs(K, columns, evals, r);
    var f := OpeningTerm(K, pos, diffs, domain[r], zs, vf1, vf2, |zs|);
    var g := (k: nat) =>
      if k < |zs| then K.mul(Div(K, GroupSum(K, pos, diffs, vf2, k, |pos|), Sub(K, domain[r], zs[k])), Pow(K, vf1, |zs| - 1 - k)) else K.zero;
    SumEq(K, |zs|, f, g);
  }

  // ------------------------------------------------------------ Horner steps

  lemma {:induction false} GroupSumStep<T(!new)>(K: Field<T>, pos: seq<int>, diffs: seq<T>, vf2: T, k: int, upto: nat)
    requires IsField(K) && |diffs| == |pos| && upto < |pos|
    ensures GroupSum(K, pos, diffs, vf2, k, upto + 1)
         == if pos[upto] == k then K.add(K.mul(GroupSum(K, pos, diffs, vf2, k, upto), vf2), diffs[upto])
            else GroupSum(K, pos, diffs, vf2, k, upto)
  {
    var f, g := GroupTerm(K, pos, diffs, vf2, k, upto), GroupTerm(K, pos, diffs, vf2, k, upto + 1);
    if pos[upto] == k {
      forall i: nat | i < upto ensures g(i) == K.mul(vf2, f(i)) { GroupTermStep(K, pos, diffs, vf2, k, upto, i); }
      SumScale(K, upto, vf2, f, g);
      MulComm(K, vf2, GroupSum(K, pos, diffs, vf2, k, upto));
      assert Count(pos, k, upto + 1, upto + 1) == 0;
      MulOne(K, diffs[upto]);
      assert g(upto) == diffs[upto];
    } else {
      SumEq(K, upto, f, g);
      assert g(upto) == K.zero;
      AddZero(K, Sum(K, upto, g));
    }
  }

  lemma GroupTermStep<T(!new)>(K: Field<T>, pos: seq<int>, diffs: seq<T>, vf2: T, k: int, upto: nat, i: nat)
    requires IsField(K) && |diffs| == |pos| && i < upto < |pos| && pos[upto] == k
    ensures GroupTerm(K, pos, diffs, vf2, k, upto + 1)(i) == K.mul(vf2, GroupTerm(K, pos, diffs, vf2, k, upto)(i))
  {
    if pos[i] == k {
      var c := Count(pos, k, i + 1, upto);
      assert Count(pos, k, i + 1, upto + 1) == c + 1;
      MulSwap(K, vf2, diffs[i], Pow(K, vf2, c));
    } else {
      MulZero(K, vf2);
    }
  }

  lemma PowerSumStep<T(!new)>(K: Field<T>, pos: seq<int>, diffs: seq<T>, x: T, zs: seq<T>, vf1: T, vf2: T, upto: nat)
    requires IsField(K) && |diffs| == |pos| && upto < |zs|
    ensures PowerSum(K, pos, diffs, x, zs, vf1, vf2, upto + 1)
         == K.add(K.mul(PowerSum(K, pos, diffs, x, zs, vf1, vf2, upto), vf1),
                  Div(K, GroupSum(K, pos, diffs, vf2, upto, |pos|), Sub(K, x, zs[upto])))
  {
    var f, g := OpeningTerm(K, pos, diffs, x, zs, vf1, vf2, upto), OpeningTerm(K, pos, diffs, x, zs, vf1, vf2, upto + 1);
    forall k: nat | k < upto ensures g(k) == K.mul(vf1, f(k)) {
      MulSwap(K, vf1, Div(K, GroupSum(K, pos, diffs, vf2, k, |pos|), Sub(K, x, zs[k])), Pow(K, vf1, upto - 1 - k));
    }
    SumScale(K, upto, vf1, f, g);
    MulComm(K, vf1, Sum(K, upto, f));
    MulOne(K, Div(K, GroupSum(K, pos, diffs, vf2, upto, |pos|), Sub(K, x, zs[upto])));
  }

  /** A group without entries adds nothing, and the sum before it still scales. */
  lemma EmptyGroup<T(!new)>(K: Field<T>, pos: seq<int>, diffs: seq<T>, vf2: T, k: int, upto: nat, d: T)
    requires IsField(K) && |diffs| == |pos| && upto <= |pos|
    requires forall i: nat {:trigger pos[i]} | i < upto :: pos[i] != k
    ensures GroupSum(K, pos, diffs, vf2, k, upto) == K.zero && Div(K, K.zero, d) == K.zero
  {
    SumZero(K, upto, GroupTerm(K, pos, diffs, vf2, k, upto));
    MulZero(K, K.inv(d));
  }

  /** Before the first entry of any group the batch is zero. */
  lemma {:induction false} NoGroups<T(!new)>(K: Field<T>, pos: seq<int>, diffs: seq<T>, x: T, zs: seq<T>, vf1: T, vf2: T, upto: nat)
    requires IsField(K) && |diffs| == |pos| && upto <= |zs|
    requires forall i: nat {:trigger pos[i]} | i < |pos| :: !(0 <= pos[i] < upto)
    ensures PowerSum(K, pos, diffs, x, zs, vf1, vf2, upto) == K.zero
    decreases upto
  {
    if upto > 0 {
      NoGroups(K, pos, diffs, x, zs, vf1, vf2, upto - 1);
      PowerSumStep(K, pos, diffs, x, zs, vf1, vf2, upto - 1);
      EmptyGroup(K, pos, diffs, vf2, upto - 1, |pos|, Sub(K, x, zs[upto - 1]));
      MulZero(K, vf1);
      AddZero(K, K.zero);
    }
  }

  // ------------------------------------------------------------- the method

  function GroupRows<T>(K: Field<T>, pos: seq<int>, columns: seq<seq<T>>, evals: seq<T>, rows: nat, vf2: T, k: int, upto: nat): (r: seq<T>)
    requires |columns| == |evals| == |pos| && Rectangular(columns, rows) && upto <= |pos|
    ensures |r| == rows
  {
    seq(rows, (r: nat) requires r < rows => GroupSum(K, pos, Diffs(K, columns, evals, r), vf2, k, upto))
  }

  lemma GroupRowsStep<T(!new)>(K: Field<T>, pos: seq<int>, columns: seq<seq<T>>, evals: seq<T>, rows: nat, vf2: T, k: int, upto: nat, r: nat)
    requires IsField(K) && |columns| == |evals| == |pos| && Rectangular(columns, rows) && upto < |pos| && r < rows
    ensures GroupRows(K, pos, columns, evals, rows, vf2, k, upto + 1)[r]
         == if pos[upto] == k then K.add(K.mul(GroupRows(K, pos, columns, evals, rows, vf2, k, upto)[r], vf2), Sub(K, columns[upto][r], evals[upto]))
            else GroupRows(K, pos, columns, evals, rows, vf2, k, upto)[r]
  {
    GroupSumStep(K, pos, Diffs(K, columns, evals, r), vf2, k, upto);
  }

  /** One group's accumulator: `None` until its first entry. */
  method AccumulateGroup<T(!new)>(K: Field<T>, pos: seq<int>, columns: seq<seq<T>>, evals: seq<T>, rows: nat, vf2: T, k: int)
    returns (acc: Option<seq<T>>)
    requires IsField(K) && |columns| == |evals| == |pos| && Rectangular(columns, rows)
    ensures acc.None? <==> forall i: nat {:trigger pos[i]} | i < |pos| :: pos[i] != k
    ensures acc.Some? ==> acc.value == GroupRows(K, pos, columns, evals, rows, vf2, k, |pos|)
  {
    acc := None;
    for i := 0 to |pos|
      invariant acc.None? <==> forall j: nat {:trigger pos[j]} | j < i :: pos[j] != k
      invariant acc.Some? ==> acc.value == GroupRows(K, pos, columns, evals, rows, vf2, k, i)
    {
      if pos[i] == k {
        assert |columns[i]| == rows;
        var prev := acc;
        var term := seq(rows, (r: nat) requires r < rows => Sub(K, columns[i][r], evals[i]));
        ghost var before := GroupRows(K, pos, columns, evals, rows, vf2, k, i);
        acc := if prev.None? then Some(term)
               else Some(seq(rows, (r: nat) requires r < rows && prev.Some? && |prev.value| == rows =>
                      K.add(K.mul(prev.value[r], vf2), term[r])));
        forall r: nat | r < rows ensures acc.value[r] == GroupRows(K, pos, columns, evals, rows, vf2, k, i + 1)[r] {
          GroupRowsStep(K, pos, columns, evals, rows, vf2, k, i, r);
          if prev.None? {
            EmptyGroup(K, pos, Diffs(K, columns, evals, r), vf2, k, i, K.one);
            assert before[r] == K.zero;
            MulZero(K, vf2);
            AddZero(K, term[r]);
          }
        }
      } else {
        forall r: nat | r < rows ensures GroupRows(K, pos, columns, evals, rows, vf2, k, i + 1)[r]
                                      == GroupRows(K, pos, columns, evals, rows, vf2, k, i)[r] {
          GroupRowsStep(K, pos, columns, evals, rows, vf2, k, i, r);
        }
        assert GroupRows(K, pos, columns, evals, rows, vf2, k, i + 1) == GroupRows(K, pos, columns, evals, rows, vf2, k, i);
      }
    }
  }

  lemma DeepRowsStep<T(!new)>(K: Field<T>, pos: seq<int>, columns: seq<seq<T>>, evals: seq<T>, domain: seq<T>, zs: seq<T>,
                              vf1: T, vf2: T, upto: nat, r: nat)
    requires IsField(K) && |columns| == |evals| == |pos| && Rectangular(columns, |domain|) && upto < |zs| && r < |domain|
    ensures DeepRows(K, pos, columns, evals, domain, zs, vf1, vf2, upto + 1)[r]
         == K.add(K.mul(DeepRows(K, pos, columns, evals, domain, zs, vf1, vf2, upto)[r], vf1),
                  Div(K, GroupRows(K, pos, columns, evals, |domain|, vf2, upto, |pos|)[r], Sub(K, domain[r], zs[upto])))
  {
    PowerSumStep(K, pos, Diffs(K, columns, evals, r), domain[r], zs, vf1, vf2, upto);
  }

  /** An opening's first group, or a group on top of a running batch, or a running
      batch scaled past an opening nothing is opened at. */
  lemma DeepCases<T(!new)>(K: Field<T>, pos: seq<int>, columns: seq<seq<T>>, evals: seq<T>, domain: seq<T>, zs: seq<T>,
                           vf1: T, vf2: T, upto: nat, r: nat)
    requires IsField(K) && |columns| == |evals| == |pos| && Rectangular(columns, |domain|) && upto < |zs| && r < |domain|
    ensures (forall i: nat {:trigger pos[i]} | i < |pos| :: pos[i] != upto) ==>
              DeepRows(K, pos, columns, evals, domain, zs, vf1, vf2, upto + 1)[r]
              == K.mul(DeepRows(K, pos, columns, evals, domain, zs, vf1, vf2, upto)[r], vf1)
    ensures (forall i: nat {:trigger pos[i]} | i < |pos| :: !(0 <= pos[i] < upto)) ==>
              DeepRows(K, pos, columns, evals, domain, zs, vf1, vf2, upto + 1)[r]
              == Div(K, GroupRows(K, pos, columns, evals, |domain|, vf2, upto, |pos|)[r], Sub(K, domain[r], zs[upto]))
  {
    var d := Sub(K, domain[r], zs[upto]);
    var diffs := Diffs(K, columns, evals, r);
    DeepRowsStep(K, pos, columns, evals, domain, zs, vf1, vf2, upto, r);
    var before := DeepRows(K, pos, columns, evals, domain, zs, vf1, vf2, upto)[r];
    var group := Div(K, GroupSum(K, pos, diffs, vf2, upto, |pos|), d);
    if forall i: nat {:trigger pos[i]} | i < |pos| :: pos[i] != upto {
      EmptyGroup(K, pos, diffs, vf2, upto, |pos|, d);
      AddZero(K, K.mul(before, vf1));
    }
    if forall i: nat {:trigger pos[i]} | i < |pos| :: !(0 <= pos[i] < upto) {
      NoGroups(K, pos, diffs, domain[r], zs, vf1, vf2, upto);
      MulZero(K, vf1);
      AddZero(K, group);
    }
  }

  /** One opening's step on the running batch: a group without entries only
      scales it, a first group starts it. */
  function Advance<T>(K: Field<T>, fri: Option<seq<T>>, acc: Option<seq<T>>, domain: seq<T>, point: T, vf1: T): (next: Option<seq<T>>)
    requires fri.Some? ==> |fri.value| == |domain|
    requires acc.Some? ==> |acc.value| == |domain|
    ensures next.None? <==> fri.None? && acc.None?
    ensures next.Some? ==> |next.value| == |domain|
  {
    if acc.None? then
      if fri.None? then None
      else Some(seq(|domain|, (r: nat) requires r < |domain| => K.mul(fri.value[r], vf1)))
    else
      var group := seq(|domain|, (r: nat) requires r < |domain| => Div(K, acc.value[r], Sub(K, domain[r], point)));
      if fri.None? then Some(group)
      else Some(seq(|domain|, (r: nat) requires r < |domain| => K.add(K.mul(fri.value[r], vf1), group[r])))
  }

  lemma AdvanceIsStep<T(!new)>(K: Field<T>, pos: seq<int>, columns: seq<seq<T>>, evals: seq<T>, domain: seq<T>, zs: seq<T>,
                               vf1: T, vf2: T, k: nat, fri: Option<seq<T>>, acc: Option<seq<T>>)
    requires IsField(K) && |columns| == |evals| == |pos| && Rectangular(columns, |domain|) && k < |zs|
    requires fri.None? <==> forall i: nat {:trigger pos[i]} | i < |pos| :: !(0 <= pos[i] < k)
    requires fri.Some? ==> fri.value == DeepRows(K, pos, columns, evals, domain, zs, vf1, vf2, k)
    requires acc.None? <==> forall i: nat {:trigger pos[i]} | i < |pos| :: pos[i] != k
    requires acc.Some? ==> acc.value == GroupRows(K, pos, columns, evals, |domain|, vf2, k, |pos|)
    ensures var next := Advance(K, fri, acc, domain, zs[k], vf1);
            next.Some? ==> next.value == DeepRows(K, pos, columns, evals, domain, zs, vf1, vf2, k + 1)
  {
    var next := Advance(K, fri, acc, domain, zs[k], vf1);
    if next.Some? {
      forall r: nat | r < |domain| ensures next.value[r] == DeepRows(K, pos, columns, evals, domain, zs, vf1, vf2, k + 1)[r] {
        DeepRowsStep(K, pos, columns, evals, domain, zs, vf1, vf2, k, r);
        DeepCases(K, pos, columns, evals, domain, zs, vf1, vf2, k, r);
      }
    }
  }

  /** The whole batch; `None` only when no entry names any opening. */
  method DeepTwoChallenge<T(!new)>(D: Tower<T>, columns: seq<seq<T>>, evals: seq<T>, domain: seq<T>, xi: T, vf1: T, vf2: T,
                                   pos: seq<int>, openings: seq<int>, nBits: nat)
    returns (fri: Option<seq<T>>)
    requires IsTower(D) && nBits <= 32
    requires |columns| == |evals| == |pos| && Rectangular(columns, |domain|)
    ensures fri.None? <==> forall i: nat {:trigger pos[i]} | i < |pos| :: !(0 <= pos[i] < |openings|)
    ensures fri.Some? ==> fri.value == DeepRows(D.K, pos, columns, evals, domain, Openings(D, xi, openings, nBits), vf1, vf2, |openings|)
  {
    ghost var zs := Openings(D, xi, openings, nBits);
    fri := None;
    for k := 0 to |openings|
      invariant fri.None? <==> forall i: nat {:trigger pos[i]} | i < |pos| :: !(0 <= pos[i] < k)
      invariant fri.Some? ==> fri.value == DeepRows(D.K, pos, columns, evals, domain, zs, vf1, vf2, k)
    {
      var acc := AccumulateGroup(D.K, pos, columns, evals, |domain|, vf2, k);
      var point := D.K.mul(xi, Pow(D.K, Root(D, nBits), openings[k] % Exp2(nBits)));
      AdvanceIsStep(D.K, pos, columns, evals, domain, zs, vf1, vf2, k, fri, acc);
      fri := Advance(D.K, fri, acc, domain, point, vf1);
    }
  }

  // ------------------------------------------------------- exact divisibility

  /** The reduced exponent names the same point as the LEv side's signed power. */
  lemma OpeningsAgree<T(!new)>(D: Tower<T>, xi: T, openings: seq<int>, nBits: nat, k: nat)
    requires IsTower(D) && nBits <= 32 && k < |openings|
    ensures Openings(D, xi, openings, nBits)[k] == D.K.mul(xi, FPow(D.K, Root(D, nBits), openings[k]))
  {
    hide IsField;
    RootTransforms(D, nBits);
    if openings[k] >= 0 {
      RootMod(D.K, Root(D, nBits), Exp2(nBits), openings[k]);
    } else {
      NegativePower(D.K, Root(D, nBits), Exp2(nBits), openings[k], openings[k] % Exp2(nBits));
    }
  }

  lemma NegativePower<T(!new)>(K: Field<T>, w: T, n: nat, p: int, m: nat)
    requires IsField(K) && PrimitiveRoot(K, w, n) && p < 0 && m == p % n
    ensures Pow(K, w, m) == Div(K, K.one, Pow(K, w, -p))
  {
    hide IsField;
    var q: nat := -p;
    NegativeMod(q, n);
    PowAdd(K, w, m, q);
    RootMod(K, w, n, m + q);
    RootNonzero(K, w, n);
    PowNonzero(K, w, q);
    assert Pow(K, w, 0) == K.one;
    DivUnique(K, K.one, Pow(K, w, q), Pow(K, w, m));
  }

  lemma NegativeMod(q: int, n: nat)
    requires n > 0 && q >= 0
    ensures (-q) % n >= 0 && ((-q) % n + q) % n == 0
  {
    var p := -q;
    var m, t := p % n, p / n;
    assert m + q == n * (-t);
    MulOrder(0, -t, n);
    assert n * (-t) == (-t) * n;
    DivModUnique(m + q, n, -t, 0);
  }

  /** The batch as one polynomial: Horner over the entries' exact quotients. */
  function GroupPoly<T>(K: Field<T>, pos: seq<int>, polys: seq<seq<T>>, z: T, vf2: T, k: int, upto: nat): seq<T>
    requires |polys| == |pos| && upto <= |pos|
  {
    if upto == 0 then []
    else if pos[upto - 1] == k then
      PolyAdd(K, PolyScale(K, vf2, GroupPoly(K, pos, polys, z, vf2, k, upto - 1)), Quotient(K, polys[upto - 1], z))
    else GroupPoly(K, pos, polys, z, vf2, k, upto - 1)
  }

  function DeepPoly<T>(K: Field<T>, pos: seq<int>, polys: seq<seq<T>>, zs: seq<T>, vf1: T, vf2: T, upto: nat): seq<T>
    requires |polys| == |pos| && upto <= |zs|
  {
    if upto == 0 then []
    else PolyAdd(K, PolyScale(K, vf1, DeepPoly(K, pos, polys, zs, vf1, vf2, upto - 1)),
                 GroupPoly(K, pos, polys, zs[upto - 1], vf2, upto - 1, |pos|))
  }

  /** The differences of true evaluations, at the point x. */
  ghost predicate TrueDiffs<T(!new)>(K: Field<T>, pos: seq<int>, polys: seq<seq<T>>, zs: seq<T>, diffs: seq<T>, x: T)
    requires |polys| == |pos|
  {
    |diffs| == |pos| && forall i: nat {:trigger diffs[i]} | i < |pos| && 0 <= pos[i] < |zs| ::
      diffs[i] == Sub(K, Eval(K, polys[i], x), Eval(K, polys[i], zs[pos[i]]))
  }

  /** A group of true evaluations is divisible by x - z. */
  lemma {:induction false} GroupDivides<T(!new)>(K: Field<T>, pos: seq<int>, polys: seq<seq<T>>, zs: seq<T>, diffs: seq<T>, x: T,
                                                 vf2: T, k: nat, upto: nat)
    requires IsField(K) && |polys| == |pos| && upto <= |pos| && k < |zs| && TrueDiffs(K, pos, polys, zs, diffs, x)
    ensures GroupSum(K, pos, diffs, vf2, k, upto)
         == K.mul(Eval(K, GroupPoly(K, pos, polys, zs[k], vf2, k, upto), x), Sub(K, x, zs[k]))
    decreases upto
  {
    var d := Sub(K, x, zs[k]);
    if upto == 0 {
      MulZero(K, d);
    } else {
      var i := upto - 1;
      GroupDivides(K, pos, polys, zs, diffs, x, vf2, k, i);
      GroupSumStep(K, pos, diffs, vf2, k, i);
      if pos[i] == k {
        GroupDividesStep(K, polys[i], zs[k], x, vf2, GroupPoly(K, pos, polys, zs[k], vf2, k, i));
      }
    }
  }

  /** (g d) vf2 + (p(x) - p(z)) == (vf2 g + q) d, for p(x) - p(z) == d q */
  lemma GroupDividesStep<T(!new)>(K: Field<T>, p: seq<T>, z: T, x: T, vf2: T, g: seq<T>)
    requires IsField(K)
    ensures var d := Sub(K, x, z);
            K.add(K.mul(K.mul(Eval(K, g, x), d), vf2), Sub(K, Eval(K, p, x), Eval(K, p, z)))
            == K.mul(Eval(K, PolyAdd(K, PolyScale(K, vf2, g), Quotient(K, p, z)), x), d)
  {
    var d, e, q := Sub(K, x, z), Eval(K, g, x), Eval(K, Quotient(K, p, z), x);
    EvalPolyAdd(K, PolyScale(K, vf2, g), Quotient(K, p, z), x);
    EvalPolyScale(K, vf2, g, x);
    Distrib(K, d, K.mul(vf2, e), q);
    QuotientExact(K, p, z, x);
    MulComm(K, d, q);
    MulComm(K, K.mul(e, d), vf2);
    MulAssoc(K, vf2, e, d);
  }

  lemma DeepDividesStep<T(!new)>(K: Field<T>, pos: seq<int>, polys: seq<seq<T>>, zs: seq<T>, diffs: seq<T>, x: T,
                                 vf1: T, vf2: T, k: nat)
    requires IsField(K) && |polys| == |pos| && k < |zs| && TrueDiffs(K, pos, polys, zs, diffs, x) && x != zs[k]
    requires PowerSum(K, pos, diffs, x, zs, vf1, vf2, k) == Eval(K, DeepPoly(K, pos, polys, zs, vf1, vf2, k), x)
    ensures PowerSum(K, pos, diffs, x, zs, vf1, vf2, k + 1) == Eval(K, DeepPoly(K, pos, polys, zs, vf1, vf2, k + 1), x)
  {
    var before, group := DeepPoly(K, pos, polys, zs, vf1, vf2, k), GroupPoly(K, pos, polys, zs[k], vf2, k, |pos|);
    PowerSumStep(K, pos, diffs, x, zs, vf1, vf2, k);
    GroupDivides(K, pos, polys, zs, diffs, x, vf2, k, |pos|);
    SubSelf(K, x, zs[k]);
    DivMul(K, Eval(K, group, x), Sub(K, x, zs[k]));
    EvalPolyAdd(K, PolyScale(K, vf1, before), group, x);
    EvalPolyScale(K, vf1, before, x);
    MulComm(K, vf1, Eval(K, before, x));
  }

  lemma DeepDivides<T(!new)>(K: Field<T>, pos: seq<int>, polys: seq<seq<T>>, zs: seq<T>, diffs: seq<T>, x: T,
                                                vf1: T, vf2: T, upto: nat)
    requires IsField(K) && |polys| == |pos| && upto <= |zs| && TrueDiffs(K, pos, polys, zs, diffs, x)
    requires forall k: nat {:trigger zs[k]} | k < |zs| :: x != zs[k]
    ensures PowerSum(K, pos, diffs, x, zs, vf1, vf2, upto) == Eval(K, DeepPoly(K, pos, polys, zs, vf1, vf2, upto), x)
  {
    for k := 0 to upto
      invariant PowerSum(K, pos, diffs, x, zs, vf1, vf2, k) == Eval(K, DeepPoly(K, pos, polys, zs, vf1, vf2, k), x)
    {
      DeepDividesStep(K, pos, polys, zs, diffs, x, vf1, vf2, k);
    }
  }

  lemma {:induction false} QuotientDegree<T(!new)>(K: Field<T>, p: seq<T>, z: T, n: nat)
    requires IsField(K) && DegreeBelow(K, p, n)
    ensures DegreeBelow(K, Quotient(K, p, z), n)
    ensures n > 0 ==> DegreeBelow(K, Quotient(K, p, z), n - 1)
    decreases |p|
  {
    var q := Quotient(K, p, z);
    if |p| > 1 {
      var t := p[1..];
      var m := if n > 0 then n - 1 else 0;
      forall k: nat {:trigger Coef(K, t, k)} | m <= k ensures Coef(K, t, k) == K.zero {
        assert Coef(K, t, k) == Coef(K, p, k + 1);
      }
      QuotientDegree(K, t, z, m);
      var qt := Quotient(K, t, z);
      forall k: nat {:trigger Coef(K, q, k)} | m <= k ensures Coef(K, q, k) == K.zero {
        if k == 0 {
          EvalPadded(K, t, z, 0);
        } else {
          assert Coef(K, q, k) == Coef(K, qt, k - 1);
        }
      }
    }
  }

  lemma AddDegree<T(!new)>(K: Field<T>, s: T, p: seq<T>, q: seq<T>, n: nat)
    requires IsField(K) && DegreeBelow(K, p, n) && DegreeBelow(K, q, n)
    ensures DegreeBelow(K, PolyAdd(K, PolyScale(K, s, p), q), n)
  {
    var sp := PolyScale(K, s, p);
    var r := PolyAdd(K, sp, q);
    forall k: nat {:trigger Coef(K, r, k)} | n <= k ensures Coef(K, r, k) == K.zero {
      assert Coef(K, p, k) == K.zero && Coef(K, q, k) == K.zero;
      MulZero(K, s);
      assert Coef(K, sp, k) == K.zero;
      AddZero(K, K.zero);
    }
  }

  lemma {:induction false} GroupPolyDegree<T(!new)>(K: Field<T>, pos: seq<int>, polys: seq<seq<T>>, z: T, vf2: T, k: int, upto: nat, n: nat)
    requires IsField(K) && |polys| == |pos| && upto <= |pos|
    requires forall i: nat {:trigger polys[i]} | i < |polys| :: DegreeBelow(K, polys[i], n)
    ensures DegreeBelow(K, GroupPoly(K, pos, polys, z, vf2, k, upto), if n > 0 then n - 1 else 0)
    decreases upto
  {
    if upto > 0 {
      GroupPolyDegree(K, pos, polys, z, vf2, k, upto - 1, n);
      if pos[upto - 1] == k {
        QuotientDegree(K, polys[upto - 1], z, n);
        AddDegree(K, vf2, GroupPoly(K, pos, polys, z, vf2, k, upto - 1), Quotient(K, polys[upto - 1], z), if n > 0 then n - 1 else 0);
      }
    }
  }

  lemma {:induction false} DeepPolyDegree<T(!new)>(K: Field<T>, pos: seq<int>, polys: seq<seq<T>>, zs: seq<T>, vf1: T, vf2: T, upto: nat, n: nat)
    requires IsField(K) && |polys| == |pos| && upto <= |zs|
    requires forall i: nat {:trigger polys[i]} | i < |polys| :: DegreeBelow(K, polys[i], n)
    ensures DegreeBelow(K, DeepPoly(K, pos, polys, zs, vf1, vf2, upto), if n > 0 then n - 1 else 0)
    decreases upto
  {
    if upto > 0 {
      DeepPolyDegree(K, pos, polys, zs, vf1, vf2, upto - 1, n);
      GroupPolyDegree(K, pos, polys, zs[upto - 1], vf2, upto - 1, |pos|, n);
      AddDegree(K, vf1, DeepPoly(K, pos, polys, zs, vf1, vf2, upto - 1), GroupPoly(K, pos, polys, zs[upto - 1], vf2, upto - 1, |pos|),
                if n > 0 then n - 1 else 0);
    }
  }

  /** At a row, each column's difference is its polynomial's, at the point and at the opening. */
  lemma RowDiffs<T(!new)>(D: Tower<T>, polys: seq<seq<T>>, columns: seq<seq<T>>, evals: seq<T>, x: T, zs: seq<T>,
                          pos: seq<int>, ext: nat, r: nat)
    requires IsTower(D) && ext <= 32 && |polys| == |columns| == |evals| == |pos| && r < Exp2(ext) && x == Point(D, ext, ext, r)
    requires forall i: nat {:trigger columns[i]} | i < |pos| :: IsCodeword(D, ext, ext, polys[i], columns[i])
    requires forall i: nat {:trigger evals[i]} | i < |pos| && 0 <= pos[i] < |zs| :: evals[i] == Eval(D.K, polys[i], zs[pos[i]])
    ensures Rectangular(columns, Exp2(ext)) && TrueDiffs(D.K, pos, polys, zs, Diffs(D.K, columns, evals, r), x)
  {
    hide IsTower;
    var diffs := Diffs(D.K, columns, evals, r);
    forall i: nat {:trigger diffs[i]} | i < |pos| && 0 <= pos[i] < |zs|
      ensures diffs[i] == Sub(D.K, Eval(D.K, polys[i], x), Eval(D.K, polys[i], zs[pos[i]]))
    {
      assert IsCodeword(D, ext, ext, polys[i], columns[i]) && columns[i][r] == Eval(D.K, polys[i], x);
      assert evals[i] == Eval(D.K, polys[i], zs[pos[i]]);
    }
  }

  /** When every evaluation is the true value of its column's polynomial at its
      opening point, the batch over the extended coset is the codeword of one
      polynomial, of degree below N - 1: what FRI folds is low-degree. */
  lemma DeepIsCodeword<T(!new)>(D: Tower<T>, polys: seq<seq<T>>, columns: seq<seq<T>>, evals: seq<T>, domain: seq<T>, xi: T,
                                vf1: T, vf2: T, pos: seq<int>, openings: seq<int>, nBits: nat, ext: nat)
    requires IsTower(D) && nBits <= ext <= 32 && |polys| == |columns| == |evals| == |pos|
    requires |domain| == Exp2(ext) && forall r: nat {:trigger domain[r]} | r < |domain| :: domain[r] == Point(D, ext, ext, r)
    requires forall i: nat {:trigger columns[i]} | i < |pos| :: IsCodeword(D, ext, ext, polys[i], columns[i])
    requires forall i: nat {:trigger polys[i]} | i < |pos| :: DegreeBelow(D.K, polys[i], Exp2(nBits))
    requires forall i: nat {:trigger evals[i]} | i < |pos| && 0 <= pos[i] < |openings| ::
               evals[i] == Eval(D.K, polys[i], D.K.mul(xi, FPow(D.K, Root(D, nBits), openings[pos[i]])))
    requires forall r: nat, k: nat {:trigger domain[r], openings[k]} | r < |domain| && k < |openings| ::
               domain[r] != D.K.mul(xi, FPow(D.K, Root(D, nBits), openings[k]))
    ensures Rectangular(columns, |domain|)
    ensures var zs := Openings(D, xi, openings, nBits);
            var q := DeepPoly(D.K, pos, polys, zs, vf1, vf2, |openings|);
            && DegreeBelow(D.K, q, Exp2(nBits) - 1)
            && IsCodeword(D, ext, ext, q, DeepRows(D.K, pos, columns, evals, domain, zs, vf1, vf2, |openings|))
  {
    var K, zs := D.K, Openings(D, xi, openings, nBits);
    forall k: nat {:trigger zs[k]} | k < |zs| ensures zs[k] == K.mul(xi, FPow(K, Root(D, nBits), openings[k])) {
      OpeningsAgree(D, xi, openings, nBits, k);
    }
    DeepPolyDegree(K, pos, polys, zs, vf1, vf2, |openings|, Exp2(nBits));
    var out := DeepRows(K, pos, columns, evals, domain, zs, vf1, vf2, |openings|);
    forall r: nat {:trigger out[r]} | r < |out|
      ensures out[r] == Eval(K, DeepPoly(K, pos, polys, zs, vf1, vf2, |openings|), Point(D, ext, ext, r))
    {
      RowDiffs(D, polys, columns, evals, domain[r], zs, pos, ext, r);
      forall k: nat {:trigger zs[k]} | k < |zs| ensures domain[r] != zs[k] { assert openings[k] == openings[k]; }
      DeepDivides(K, pos, polys, zs, Diffs(K, columns, evals, r), domain[r], vf1, vf2, |zs|);
    }
  }

  // ----------------------------------------------------------------- windows

  function Slice<T>(columns: seq<seq<T>>, win: Window, rows: nat): (s: seq<seq<T>>)
    requires Rectangular(columns, rows) && win.lo <= win.hi <= rows
    ensures |s| == |columns| && Rectangular(s, win.hi - win.lo)
  {
    seq(|columns|, (i: nat) requires i < |columns| => columns[i][win.lo..win.hi])
  }

  /** A window's batch is the window of the batch. */
  lemma DeepWindow<T(!new)>(K: Field<T>, pos: seq<int>, columns: seq<seq<T>>, evals: seq<T>, domain: seq<T>, zs: seq<T>,
                            vf1: T, vf2: T, upto: nat, win: Window)
    requires |columns| == |evals| == |pos| && Rectangular(columns, |domain|) && upto <= |zs| && win.lo <= win.hi <= |domain|
    ensures DeepRows(K, pos, Slice(columns, win, |domain|), evals, domain[win.lo..win.hi], zs, vf1, vf2, upto)
         == DeepRows(K, pos, columns, evals, domain, zs, vf1, vf2, upto)[win.lo..win.hi]
  {
    var part := Slice(columns, win, |domain|);
    forall r: nat | r < win.hi - win.lo ensures Diffs(K, part, evals, r) == Diffs(K, columns, evals, win.lo + r) {
    }
  }

  function Concat<T>(parts: seq<seq<T>>): seq<T> {
    if |parts| == 0 then [] else parts[0] + Concat(parts[1..])
  }

  /** The part of `whole` in the window. */
  ghost predicate IsPart<T>(whole: seq<T>, win: Window, part: seq<T>) {
    win.lo <= win.hi <= |whole| && part == whole[win.lo..win.hi]
  }

  ghost predicate Windowed<T>(whole: seq<T>, ws: seq<Window>, parts: seq<seq<T>>) {
    |parts| == |ws| && forall k: nat {:trigger parts[k]} | k < |ws| :: IsPart(whole, ws[k], parts[k])
  }

  lemma WindowedTail<T>(whole: seq<T>, ws: seq<Window>, parts: seq<seq<T>>)
    requires |ws| > 0 && Windowed(whole, ws, parts)
    ensures Windowed(whole, ws[1..], parts[1..])
  {
    hide IsPart;
    var ps, us := parts[1..], ws[1..];
    forall k: nat {:trigger ps[k]} | k < |us| ensures IsPart(whole, us[k], ps[k]) {
      assert ps[k] == parts[k + 1] && us[k] == ws[k + 1];
    }
  }

  lemma {:induction false} ConcatWindows<T>(whole: seq<T>, ws: seq<Window>, lo: nat, parts: seq<seq<T>>)
    requires lo <= |whole| && Tiles(ws, lo, |whole|) && Windowed(whole, ws, parts)
    ensures Concat(parts) == whole[lo..]
    decreases |ws|
  {
    if |ws| > 0 {
      assert IsPart(whole, ws[0], parts[0]);
      var ps, us := parts[1..], ws[1..];
      WindowedTail(whole, ws, parts);
      ConcatWindows(whole, us, ws[0].hi, ps);
      assert whole[lo..] == whole[ws[0].lo..ws[0].hi] + whole[ws[0].hi..];
    }
  }

  /** `part` is the batch computed from the window's own rows alone. */
  ghost predicate IsWindowBatch<T(!new)>(K: Field<T>, pos: seq<int>, columns: seq<seq<T>>, evals: seq<T>, domain: seq<T>, zs: seq<T>,
                                         vf1: T, vf2: T, upto: nat, win: Window, part: seq<T>)
    requires |columns| == |evals| == |pos| && Rectangular(columns, |domain|) && upto <= |zs|
  {
    && win.lo <= win.hi <= |domain|
    && part == DeepRows(K, pos, Slice(columns, win, |domain|), evals, domain[win.lo..win.hi], zs, vf1, vf2, upto)
  }

  /** The windows' batches, concatenated, are the batch: for any window count. */
  lemma WindowedDeep<T(!new)>(K: Field<T>, pos: seq<int>, columns: seq<seq<T>>, evals: seq<T>, domain: seq<T>, zs: seq<T>,
                              vf1: T, vf2: T, upto: nat, count: nat, parts: seq<seq<T>>)
    requires |columns| == |evals| == |pos| && Rectangular(columns, |domain|) && upto <= |zs| && count > 0
    requires |parts| == |RowWindows(|domain|, count)|
    requires forall k: nat {:trigger parts[k]} | k < |parts| ::
               IsWindowBatch(K, pos, columns, evals, domain, zs, vf1, vf2, upto, RowWindows(|domain|, count)[k], parts[k])
    ensures Concat(parts) == DeepRows(K, pos, columns, evals, domain, zs, vf1, vf2, upto)
  {
    var ws := RowWindows(|domain|, count);
    RowWindowsTile(|domain|, count);
    var whole := DeepRows(K, pos, columns, evals, domain, zs, vf1, vf2, upto);
    forall k: nat {:trigger parts[k]} | k < |ws| ensures IsPart(whole, ws[k], parts[k]) {
      assert IsWindowBatch(K, pos, columns, evals, domain, zs, vf1, vf2, upto, ws[k], parts[k]);
      DeepWindow(K, pos, columns, evals, domain, zs, vf1, vf2, upto, ws[k]);
    }
    ConcatWindows(whole, ws, 0, parts);
  }
}
