/** The opening stage's query check: the DEEP value rebuilt from the opened rows
    must be the layer-0 codeword entry that FRI folded. */
module OpeningVerifier {
  import opened Arith
  import opened Fields
  import opened Sums
  import opened Transforms
  import opened Polynomials
  import opened Cosets
  import opened Fri
  import opened FriVerifier
  import Deep

  /** One query's opened rows of the committed columns, and its FRI openings. */
  datatype Query<+T, +P> = Query(trace: Opening<T, P>, quotient: Opening<T, P>, fri: seq<Opening<T, P>>)

  /** The opened row: the trace columns, then the quotient. */
  function OpenedRow<T, P>(query: Query<T, P>, nCols: nat): (row: seq<T>)
    requires |query.trace.row| == nCols && |query.quotient.row| == 1
    ensures |row| == nCols + 1
  {
    query.trace.row + query.quotient.row
  }

  function BatchTerm<T>(K: Field<T>, row: seq<T>, evals: seq<T>, vf: T): nat -> T
    requires |row| == |evals|
  {
    (m: nat) => if m < |row| then K.mul(Pow(K, vf, m), Sub(K, row[m], evals[m])) else K.zero
  }

  /** sum over m of vf^m (row[m] - evals[m]) */
  function Numerator<T>(K: Field<T>, row: seq<T>, evals: seq<T>, vf: T): T
    requires |row| == |evals|
  {
    Sum(K, |row|, BatchTerm(K, row, evals, vf))
  }

  function CompositionTerm<T>(K: Field<T>, row: seq<T>, evals: seq<T>, vf: T, x: T, xi: T): nat -> T
    requires |row| == |evals|
  {
    (m: nat) => Div(K, BatchTerm(K, row, evals, vf)(m), Sub(K, x, xi))
  }

  /** The prover's DEEP composition at one row: each column's own quotient. */
  function Composition<T>(K: Field<T>, row: seq<T>, evals: seq<T>, vf: T, x: T, xi: T): T
    requires |row| == |evals|
  {
    Sum(K, |row|, CompositionTerm(K, row, evals, vf, x, xi))
  }

  /** What the verifier rebuilds: one division for the whole batch. */
  function Rebuilt<T>(K: Field<T>, row: seq<T>, evals: seq<T>, vf: T, x: T, xi: T): T
    requires |row| == |evals|
  {
    Div(K, Numerator(K, row, evals, vf), Sub(K, x, xi))
  }

  lemma RebuiltIsComposition<T(!new)>(K: Field<T>, row: seq<T>, evals: seq<T>, vf: T, x: T, xi: T)
    requires IsField(K) && |row| == |evals|
    ensures Rebuilt(K, row, evals, vf, x, xi) == Composition(K, row, evals, vf, x, xi)
  {
    var i := K.inv(Sub(K, x, xi));
    var f, g := BatchTerm(K, row, evals, vf), CompositionTerm(K, row, evals, vf, x, xi);
    forall m: nat | m < |row| ensures g(m) == K.mul(i, f(m)) { MulComm(K, f(m), i); }
    SumScale(K, |row|, i, f, g);
    MulComm(K, Numerator(K, row, evals, vf), i);
  }

  lemma MemberOfRow(ext: nat, next: nat, row: nat)
    requires next < ext && row < Exp2(ext)
    ensures 0 <= row / Exp2(next) < Exp2(ext - next)
  {
    hide Exp2;
    Exp2Add(ext - next, next);
    DivBound(row, Exp2(next), Exp2(ext - next));
  }

  /** Layer 0's codeword entry of row `row`, taken from the opened group: member `row >> steps[1]`. */
  function GroupMember<T, P>(query: Query<T, P>, ext: nat, next: nat, row: nat): T
    requires next < ext && row < Exp2(ext)
    requires |query.fri| > 0 && |query.fri[0].row| == Exp2(ext - next)
  {
    hide Exp2;
    MemberOfRow(ext, next, row);
    query.fri[0].row[row / Exp2(next)]
  }

  /** The sizes a query is cut to on the wire. */
  ghost predicate QueryShaped<T, P>(query: Query<T, P>, ext: nat, next: nat, nCols: nat)
    requires next < ext
  {
    && |query.trace.row| == nCols && |query.quotient.row| == 1
    && |query.fri| > 0 && |query.fri[0].row| == Exp2(ext - next)
  }

  /** Both rows hash to their roots, and the rebuilt value is the group's member. */
  ghost predicate QueryHolds<T, P>(D: Tower<T>, query: Query<T, P>, evals: seq<T>, xi: T, vf: T, ext: nat, next: nat,
                                   row: nat, traceTree: (nat, Opening<T, P>) -> bool,
                                   quotientTree: (nat, Opening<T, P>) -> bool)
    requires next < ext <= 32 && row < Exp2(ext) && |evals| > 0 && QueryShaped(query, ext, next, |evals| - 1)
  {
    && traceTree(row, query.trace) && quotientTree(row, query.quotient)
    && Rebuilt(D.K, OpenedRow(query, |evals| - 1), evals, vf, Point(D, ext, ext, row), xi) == GroupMember(query, ext, next, row)
  }

  /** The batch's numerator, accumulated column by column and the quotient last. */
  method AccumulateNumerator<T(!new)>(K: Field<T>, trace: seq<T>, quotient: T, evals: seq<T>, vf: T) returns (numer: T)
    requires |evals| == |trace| + 1
    ensures numer == Numerator(K, trace + [quotient], evals, vf)
  {
    var values := trace + [quotient];
    numer := K.zero;
    for m := 0 to |trace|
      invariant numer == Sum(K, m, BatchTerm(K, values, evals, vf))
    {
      numer := K.add(numer, K.mul(Pow(K, vf, m), Sub(K, trace[m], evals[m])));
    }
    numer := K.add(numer, K.mul(Pow(K, vf, |trace|), Sub(K, quotient, evals[|trace|])));
  }

  /** Row `row`'s point of the extended coset. */
  function DomainPoint<T>(D: Tower<T>, ext: nat, row: nat): T
    requires ext <= 32
  {
    D.K.mul(D.shift, Pow(D.K, Pow(D.K, D.root, Exp2(32 - ext)), row))
  }

  lemma TopPoint<T(!new)>(D: Tower<T>, ext: nat, row: nat)
    requires IsTower(D) && ext <= 32
    ensures Point(D, ext, ext, row) == DomainPoint(D, ext, row)
  {
    PowSmall(D.K, D.shift);
  }

  /** The opened group's entry times (x - xi) is the vf-power sum of the opened values less
      the evaluations, the quotient's last. */
  ghost predicate RowEquation<T, P>(D: Tower<T>, query: Query<T, P>, evals: seq<T>, xi: T, vf: T, ext: nat, next: nat, row: nat)
    requires next < ext <= 32 && row < Exp2(ext) && |evals| > 0 && QueryShaped(query, ext, next, |evals| - 1)
  {
    var last := |evals| - 1;
    MemberOfRow(ext, next, row);
    D.K.mul(query.fri[0].row[row / Exp2(next)], Sub(D.K, DomainPoint(D, ext, row), xi))
    == D.K.add(Sum(D.K, last, (m: nat) => if m < last then D.K.mul(Pow(D.K, vf, m), Sub(D.K, query.trace.row[m], evals[m])) else D.K.zero),
               D.K.mul(Pow(D.K, vf, last), Sub(D.K, query.quotient.row[0], evals[last])))
  }

  lemma QueryMeans<T(!new), P>(D: Tower<T>, query: Query<T, P>, evals: seq<T>, xi: T, vf: T, ext: nat, next: nat, row: nat,
                               traceTree: (nat, Opening<T, P>) -> bool, quotientTree: (nat, Opening<T, P>) -> bool)
    requires next < ext <= 32 && row < Exp2(ext) && |evals| > 0 && QueryShaped(query, ext, next, |evals| - 1)
    requires IsTower(D) && DomainPoint(D, ext, row) != xi
    ensures QueryHolds(D, query, evals, xi, vf, ext, next, row, traceTree, quotientTree)
       <==> traceTree(row, query.trace) && quotientTree(row, query.quotient) && RowEquation(D, query, evals, xi, vf, ext, next, row)
  {
    hide IsField, PrimitiveRoot, Exp2, Sum;
    var K, last, all := D.K, |evals| - 1, OpenedRow(query, |evals| - 1);
    var x := DomainPoint(D, ext, row);
    TopPoint(D, ext, row);
    hide DomainPoint;
    MemberOfRow(ext, next, row);
    var f := (m: nat) => if m < last then K.mul(Pow(K, vf, m), Sub(K, query.trace.row[m], evals[m])) else K.zero;
    SumEq(K, last, f, BatchTerm(K, all, evals, vf));
    SumNext(K, last, BatchTerm(K, all, evals, vf));
    SubSelf(K, x, xi);
    DivMul(K, Numerator(K, all, evals, vf), Sub(K, x, xi));
    DivMul(K, query.fri[0].row[row / Exp2(next)], Sub(K, x, xi));
  }

  method CheckQuery<T(!new, ==), P>(D: Tower<T>, query: Query<T, P>, evals: seq<T>, xi: T, vf: T, ext: nat, next: nat, row: nat,
                                    traceTree: (nat, Opening<T, P>) -> bool, quotientTree: (nat, Opening<T, P>) -> bool)
    returns (ok: bool)
    requires next < ext <= 32 && row < Exp2(ext) && |evals| > 0 && QueryShaped(query, ext, next, |evals| - 1)
    ensures ok <==> QueryHolds(D, query, evals, xi, vf, ext, next, row, traceTree, quotientTree)
    ensures ok ==> traceTree(row, query.trace) && quotientTree(row, query.quotient)
    ensures IsTower(D) && D.K.mul(D.shift, Pow(D.K, Pow(D.K, D.root, Exp2(32 - ext)), row)) != xi ==>
      (ok <==>
       (var x := D.K.mul(D.shift, Pow(D.K, Pow(D.K, D.root, Exp2(32 - ext)), row));
        var last := |evals| - 1;
        MemberOfRow(ext, next, row);
        && traceTree(row, query.trace) && quotientTree(row, query.quotient)
        && D.K.mul(query.fri[0].row[row / Exp2(next)], Sub(D.K, x, xi))
           == D.K.add(Sum(D.K, last, (m: nat) => if m < last then D.K.mul(Pow(D.K, vf, m), Sub(D.K, query.trace.row[m], evals[m])) else D.K.zero),
                      D.K.mul(Pow(D.K, vf, last), Sub(D.K, query.quotient.row[0], evals[last])))))
  {
    if IsTower(D) && DomainPoint(D, ext, row) != xi {
      QueryMeans(D, query, evals, xi, vf, ext, next, row, traceTree, quotientTree);
    }
    hide Exp2, IsTower, Sum;
    if !traceTree(row, query.trace) {
      return false;
    }
    if !quotientTree(row, query.quotient) {
      return false;
    }
    var numer := AccumulateNumerator(D.K, query.trace.row, query.quotient.row[0], evals, vf);
    assert query.trace.row + [query.quotient.row[0]] == OpenedRow(query, |evals| - 1);
    var expected := Div(D.K, numer, Sub(D.K, Point(D, ext, ext, row), xi));
    ok := expected == GroupMember(query, ext, next, row);
  }

  method CheckQueries<T(!new, ==), P>(D: Tower<T>, queries: seq<Query<T, P>>, positions: seq<nat>, evals: seq<T>, xi: T, vf: T,
                                      ext: nat, next: nat, traceTree: (nat, Opening<T, P>) -> bool,
                                      quotientTree: (nat, Opening<T, P>) -> bool)
    returns (ok: bool)
    requires next < ext <= 32 && |evals| > 0 && |positions| == |queries|
    requires forall q: nat {:trigger queries[q]} | q < |queries| :: QueryShaped(queries[q], ext, next, |evals| - 1)
    ensures ok <==> forall q: nat {:trigger queries[q]} | q < |queries| ::
              QueryHolds(D, queries[q], evals, xi, vf, ext, next, positions[q] % Exp2(ext), traceTree, quotientTree)
    ensures ok ==> forall q: nat {:trigger queries[q]} | q < |queries| ::
              traceTree(positions[q] % Exp2(ext), queries[q].trace) && quotientTree(positions[q] % Exp2(ext), queries[q].quotient)
    ensures ok && IsTower(D) ==> forall q: nat {:trigger queries[q]} | q < |queries| && DomainPoint(D, ext, positions[q] % Exp2(ext)) != xi ::
              RowEquation(D, queries[q], evals, xi, vf, ext, next, positions[q] % Exp2(ext))
    ensures IsTower(D) && (forall q: nat {:trigger queries[q]} | q < |queries| :: DomainPoint(D, ext, positions[q] % Exp2(ext)) != xi) ==>
      (ok <==> forall q: nat {:trigger queries[q]} | q < |queries| ::
        && traceTree(positions[q] % Exp2(ext), queries[q].trace)
        && quotientTree(positions[q] % Exp2(ext), queries[q].quotient)
        && RowEquation(D, queries[q], evals, xi, vf, ext, next, positions[q] % Exp2(ext)))
  {
    hide Exp2, IsTower, RowEquation, DomainPoint, Rebuilt, GroupMember, Point, QueryShaped;
    forall q: nat {:trigger queries[q]} | q < |queries| && IsTower(D) && DomainPoint(D, ext, positions[q] % Exp2(ext)) != xi
      ensures QueryHolds(D, queries[q], evals, xi, vf, ext, next, positions[q] % Exp2(ext), traceTree, quotientTree) <==>
        && traceTree(positions[q] % Exp2(ext), queries[q].trace)
        && quotientTree(positions[q] % Exp2(ext), queries[q].quotient)
        && RowEquation(D, queries[q], evals, xi, vf, ext, next, positions[q] % Exp2(ext))
    {
      QueryMeans(D, queries[q], evals, xi, vf, ext, next, positions[q] % Exp2(ext), traceTree, quotientTree);
    }
    for q := 0 to |queries|
      invariant forall p: nat {:trigger queries[p]} | p < q ::
        QueryHolds(D, queries[p], evals, xi, vf, ext, next, positions[p] % Exp2(ext), traceTree, quotientTree)
    {
      var holds := CheckQuery(D, queries[q], evals, xi, vf, ext, next, positions[q] % Exp2(ext), traceTree, quotientTree);
      if !holds {
        return false;
      }
    }
    return true;
  }

  // ------------------------------------------------------ honest provers pass

  /** Row `r` of the committed columns. */
  function ColumnsRow<T>(columns: seq<seq<T>>, r: nat): (row: seq<T>)
    requires forall m: nat {:trigger columns[m]} | m < |columns| :: r < |columns[m]|
    ensures |row| == |columns|
  {
    seq(|columns|, (m: nat) requires m < |columns| => columns[m][r])
  }

  /** The composition as one polynomial: powers of vf times exact quotients. */
  function BatchPoly<T>(K: Field<T>, polys: seq<seq<T>>, xi: T, vf: T, m: nat): seq<T>
    requires m <= |polys|
  {
    if m == 0 then []
    else PolyAdd(K, PolyScale(K, Pow(K, vf, m - 1), Quotient(K, polys[m - 1], xi)), BatchPoly(K, polys, xi, vf, m - 1))
  }

  lemma {:induction false} BatchPolyDegree<T(!new)>(K: Field<T>, polys: seq<seq<T>>, xi: T, vf: T, m: nat, n: nat)
    requires IsField(K) && m <= |polys|
    requires forall i: nat {:trigger polys[i]} | i < |polys| :: DegreeBelow(K, polys[i], n)
    ensures DegreeBelow(K, BatchPoly(K, polys, xi, vf, m), n)
    decreases m
  {
    if m > 0 {
      BatchPolyDegree(K, polys, xi, vf, m - 1, n);
      Deep.QuotientDegree(K, polys[m - 1], xi, n);
      Deep.AddDegree(K, Pow(K, vf, m - 1), Quotient(K, polys[m - 1], xi), BatchPoly(K, polys, xi, vf, m - 1), n);
    }
  }

  /** vf^m (p(x) - p(xi)) / (x - xi) is vf^m times the quotient's value. */
  lemma CompositionTermExact<T(!new)>(K: Field<T>, row: seq<T>, evals: seq<T>, vf: T, x: T, xi: T, p: seq<T>, m: nat)
    requires IsField(K) && |row| == |evals| && m < |row| && x != xi
    requires row[m] == Eval(K, p, x) && evals[m] == Eval(K, p, xi)
    ensures CompositionTerm(K, row, evals, vf, x, xi)(m) == Eval(K, PolyScale(K, Pow(K, vf, m), Quotient(K, p, xi)), x)
  {
    var s, q, d := Pow(K, vf, m), Eval(K, Quotient(K, p, xi), x), Sub(K, x, xi);
    QuotientExact(K, p, xi, x);
    EvalPolyScale(K, s, Quotient(K, p, xi), x);
    MulComm(K, d, q);
    MulAssoc(K, s, q, d);
    SubSelf(K, x, xi);
    DivMul(K, K.mul(s, q), d);
    assert BatchTerm(K, row, evals, vf)(m) == K.mul(s, K.mul(d, q));
  }

  lemma CompositionExact<T(!new)>(K: Field<T>, row: seq<T>, evals: seq<T>, vf: T, x: T, xi: T, polys: seq<seq<T>>)
    requires IsField(K) && |row| == |evals| == |polys| && x != xi
    requires forall m: nat {:trigger polys[m]} | m < |polys| :: row[m] == Eval(K, polys[m], x) && evals[m] == Eval(K, polys[m], xi)
    ensures Composition(K, row, evals, vf, x, xi) == Eval(K, BatchPoly(K, polys, xi, vf, |polys|), x)
  {
    var t := CompositionTerm(K, row, evals, vf, x, xi);
    for m := 0 to |polys|
      invariant Sum(K, m, t) == Eval(K, BatchPoly(K, polys, xi, vf, m), x)
    {
      CompositionTermExact(K, row, evals, vf, x, xi, polys[m], m);
      var a, b := PolyScale(K, Pow(K, vf, m), Quotient(K, polys[m], xi)), BatchPoly(K, polys, xi, vf, m);
      EvalPolyAdd(K, a, b, x);
      AddComm(K, Eval(K, a, x), Eval(K, b, x));
    }
  }

  /** The committed columns, their true evaluations at xi, and the FRI polynomial
      composed from them. */
  ghost predicate HonestCommitment<T(!new)>(D: Tower<T>, ext: nat, nBits: nat, polys: seq<seq<T>>, columns: seq<seq<T>>,
                                            evals: seq<T>, xi: T, vf: T, pol: seq<T>)
    requires ext <= 32
  {
    && nBits <= ext && |columns| == |evals| == |polys|
    && (forall m: nat {:trigger columns[m]} | m < |polys| :: IsCodeword(D, ext, ext, polys[m], columns[m]))
    && (forall m: nat {:trigger polys[m]} | m < |polys| ::
          DegreeBelow(D.K, polys[m], Exp2(nBits)) && evals[m] == Eval(D.K, polys[m], xi))
    && (forall r: nat {:trigger Point(D, ext, ext, r)} | r < Exp2(ext) :: Point(D, ext, ext, r) != xi)
    && |pol| == Exp2(ext)
    && (forall r: nat {:trigger pol[r]} | r < |pol| ::
          (forall m: nat {:trigger columns[m]} | m < |columns| :: |columns[m]| == |pol|)
          && pol[r] == Composition(D.K, ColumnsRow(columns, r), evals, vf, Point(D, ext, ext, r), xi))
  }

  /** What FRI is given is the codeword of a polynomial of degree below N. */
  lemma HonestPolIsCodeword<T(!new)>(D: Tower<T>, ext: nat, nBits: nat, polys: seq<seq<T>>, columns: seq<seq<T>>,
                                     evals: seq<T>, xi: T, vf: T, pol: seq<T>)
    requires IsTower(D) && ext <= 32 && HonestCommitment(D, ext, nBits, polys, columns, evals, xi, vf, pol)
    ensures DegreeBelow(D.K, BatchPoly(D.K, polys, xi, vf, |polys|), Exp2(nBits))
    ensures IsCodeword(D, ext, ext, BatchPoly(D.K, polys, xi, vf, |polys|), pol)
  {
    BatchPolyDegree(D.K, polys, xi, vf, |polys|, Exp2(nBits));
    forall r: nat {:trigger pol[r]} | r < |pol|
      ensures pol[r] == Eval(D.K, BatchPoly(D.K, polys, xi, vf, |polys|), Point(D, ext, ext, r))
    {
      var row, x := ColumnsRow(columns, r), Point(D, ext, ext, r);
      forall m: nat {:trigger polys[m]} | m < |polys|
        ensures row[m] == Eval(D.K, polys[m], x) && evals[m] == Eval(D.K, polys[m], xi)
      {
        assert row[m] == columns[m][r];
      }
      CompositionExact(D.K, row, evals, vf, x, xi, polys);
    }
  }

  /** An honest opening proof passes the whole query phase.  From the committed
      polynomials alone: the composed FRI polynomial is low-degree, every fold
      link and the terminal test hold, and every query's rebuilt DEEP value is the
      codeword entry found in its layer-0 group.  Only the hash trees remain. */
  lemma HonestOpeningAccepted<T(!new), P>(D: Tower<T>, steps: seq<int>, nBits: nat, polys: seq<seq<T>>, columns: seq<seq<T>>,
                                          evals: seq<T>, xi: T, vf: T, pol: seq<T>, betas: seq<T>, finalPol: seq<T>,
                                          queries: seq<Query<T, P>>, openings: seq<seq<Opening<T, P>>>, positions: seq<nat>,
                                          traceTree: (nat, Opening<T, P>) -> bool, quotientTree: (nat, Opening<T, P>) -> bool)
    requires IsTower(D) && Schedule(steps) && |steps| > 1 && |betas| + 1 == |steps| && 0 <= steps[0] <= 32
    requires |polys| > 0 && HonestCommitment(D, steps[0], nBits, polys, columns, evals, xi, vf, pol)
    requires steps[0] - nBits <= steps[|steps| - 1]
    requires |positions| == |openings| == |queries| && HonestOpenings(D, steps, pol, betas, openings, positions)
    requires Layer(D, steps, pol, betas, |betas|) == Ok(finalPol)
    requires forall q: nat {:trigger queries[q]} | q < |queries| ::
      var row := positions[q] % Exp2(steps[0]);
      && queries[q].fri == openings[q]
      && |queries[q].trace.row| == |polys| - 1 && |queries[q].quotient.row| == 1
      && OpenedRow(queries[q], |polys| - 1) == ColumnsRow(columns, row)
      && traceTree(row, queries[q].trace) && quotientTree(row, queries[q].quotient)
    ensures Shaped(steps, openings) && |finalPol| == Exp2(LastStep(steps))
    ensures AllLinks(D, steps, openings, finalPol, positions, betas)
    ensures CheckFinal(D, steps, finalPol, nBits) == Ok(true)
    ensures forall q: nat {:trigger queries[q]} | q < |queries| :: HonestQueryHolds(D, queries[q], evals, xi, vf, steps, positions[q], traceTree, quotientTree)
  {
    HonestPolIsCodeword(D, steps[0], nBits, polys, columns, evals, xi, vf, pol);
    HonestProverAccepted(D, steps, BatchPoly(D.K, polys, xi, vf, |polys|), pol, betas, openings, finalPol, positions, nBits);
    MakeCodeAccepts(steps);
    forall q: nat {:trigger queries[q]} | q < |queries|
      ensures HonestQueryHolds(D, queries[q], evals, xi, vf, steps, positions[q], traceTree, quotientTree)
    {
      assert HonestQuery(D, steps, pol, betas, positions[q], openings[q]);
      assert OpeningShaped(steps, openings[q]);
      HonestQueryPasses(D, steps, nBits, polys, columns, evals, xi, vf, pol, betas, queries[q], positions[q], traceTree, quotientTree);
    }
  }

  ghost predicate HonestQueryHolds<T, P>(D: Tower<T>, query: Query<T, P>, evals: seq<T>, xi: T, vf: T, steps: seq<int>, position: nat,
                                         traceTree: (nat, Opening<T, P>) -> bool, quotientTree: (nat, Opening<T, P>) -> bool)
    requires |steps| > 1 && |evals| > 0
  {
    && 0 <= steps[1] < steps[0] <= 32 && QueryShaped(query, steps[0], steps[1], |evals| - 1)
    && QueryHolds(D, query, evals, xi, vf, steps[0], steps[1], position % Exp2(steps[0]), traceTree, quotientTree)
  }

  lemma HonestQueryPasses<T(!new), P>(D: Tower<T>, steps: seq<int>, nBits: nat, polys: seq<seq<T>>, columns: seq<seq<T>>,
                                      evals: seq<T>, xi: T, vf: T, pol: seq<T>, betas: seq<T>, query: Query<T, P>, position: nat,
                                      traceTree: (nat, Opening<T, P>) -> bool, quotientTree: (nat, Opening<T, P>) -> bool)
    requires IsTower(D) && Schedule(steps) && |steps| > 1 && |betas| + 1 == |steps| && 0 <= steps[0] <= 32
    requires |polys| > 0 && HonestCommitment(D, steps[0], nBits, polys, columns, evals, xi, vf, pol)
    requires OpeningShaped(steps, query.fri) && HonestQuery(D, steps, pol, betas, position, query.fri)
    requires |query.trace.row| == |polys| - 1 && |query.quotient.row| == 1
    requires OpenedRow(query, |polys| - 1) == ColumnsRow(columns, position % Exp2(steps[0]))
    requires traceTree(position % Exp2(steps[0]), query.trace) && quotientTree(position % Exp2(steps[0]), query.quotient)
    ensures HonestQueryHolds(D, query, evals, xi, vf, steps, position, traceTree, quotientTree)
  {
    hide Exp2, IsField, Group, Layer, Composition, Rebuilt;
    MakeCodeAccepts(steps);
    var ext: nat := steps[0];
    var row := position % Exp2(ext);
    var x := Point(D, ext, ext, row);
    assert HonestRow(D, steps, pol, betas, position, 0, query.fri[0].row);
    LayerZeroLookup(D, steps, pol, betas, position, query.fri[0].row);
    RebuiltIsComposition(D.K, ColumnsRow(columns, row), evals, vf, x, xi);
    assert pol[row] == Composition(D.K, ColumnsRow(columns, row), evals, vf, x, xi);
  }
}
