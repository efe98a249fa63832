/** The query phase: every opened group hashes to its layer's root, folds onto
    the next layer's opening or the final polynomial, and the final polynomial
    passes the low-degree test. */
module FriVerifier {
  import opened Arith
  import opened Fields
  import opened Sums
  import opened Transforms
  import opened Polynomials
  import opened Cosets
  import opened Folding
  import opened Fri

  /** One query's opening of one layer: the group's cubic values and its path. */
  datatype Opening<+T, +P> = Opening(row: seq<T>, path: P)

  /** What the hash tree answers for a root, a leaf index and an opening. */
  type MerkleCheck<!R, !T, !P> = (R, nat, Opening<T, P>) -> bool

  /** One step of a schedule, and the one after it. */
  lemma StepBounds(steps: seq<int>, i: nat)
    requires Schedule(steps) && i < |steps|
    ensures 0 <= steps[i] <= 32 && (i + 1 < |steps| ==> 0 <= steps[i + 1] < steps[i])
  {
    MakeCodeAccepts(steps);
  }

  /** Layer `layer` opens a query at its position modulo the next layer's size. */
  function LeafIndex(steps: seq<int>, position: nat, layer: nat): (i: nat)
    requires Schedule(steps) && layer + 1 < |steps|
    ensures steps[layer + 1] >= 0 && i < Exp2(steps[layer + 1])
  {
    StepBounds(steps, layer + 1);
    position % Exp2(steps[layer + 1])
  }

  /** The wire gives one opening per layer, each cut to the layer's group width. */
  ghost predicate OpeningShaped<T, P>(steps: seq<int>, o: seq<Opening<T, P>>)
    requires Schedule(steps)
  {
    |o| + 1 == |steps| && forall l: nat {:trigger o[l]} | l < |o| :: |o[l].row| == GroupWidth(steps, l)
  }

  ghost predicate Shaped<T, P>(steps: seq<int>, openings: seq<seq<Opening<T, P>>>)
    requires Schedule(steps)
  {
    forall q: nat {:trigger openings[q]} | q < |openings| :: OpeningShaped(steps, openings[q])
  }

  ghost predicate MerkleHolds<R, T, P>(steps: seq<int>, roots: seq<R>, openings: seq<seq<Opening<T, P>>>,
                                       positions: seq<nat>, merkle: MerkleCheck<R, T, P>, layer: nat, q: nat)
    requires Schedule(steps) && Shaped(steps, openings) && |roots| + 1 == |steps| && |positions| == |openings|
    requires layer < |roots| && q < |openings|
  {
    var o := openings[q][layer];
    merkle(roots[layer], LeafIndex(steps, positions[q], layer), o)
  }

  /** Where a layer's folded value must reappear: in the next layer's leaf at
      member `index >> steps[layer + 2]`, or in the final polynomial. */
  function Target<T, P>(steps: seq<int>, openings: seq<Opening<T, P>>, finalPol: seq<T>, position: nat, layer: nat): (t: T)
    requires Schedule(steps) && layer + 1 < |steps| && OpeningShaped(steps, openings)
    requires |finalPol| == Exp2(LastStep(steps))
  {
    hide LeafIndex, MemberOf, Exp2;
    if layer + 2 < |steps| then openings[layer + 1].row[MemberOf(steps, position, layer)]
    else finalPol[LeafIndex(steps, position, layer)]
  }

  function LastStep(steps: seq<int>): nat
    requires Schedule(steps)
  {
    steps[|steps| - 1]
  }

  function GroupWidth(steps: seq<int>, layer: nat): nat
    requires Schedule(steps) && layer + 1 < |steps|
  {
    StepBounds(steps, layer);
    Exp2(steps[layer] - steps[layer + 1])
  }

  lemma MemberInRow(steps: seq<int>, i: nat, layer: nat)
    requires Schedule(steps) && layer + 2 < |steps| && 0 <= steps[layer + 2] < steps[layer + 1] && i < Exp2(steps[layer + 1])
    ensures 0 <= i / Exp2(steps[layer + 2]) < GroupWidth(steps, layer + 1)
  {
    hide Exp2;
    Exp2Add(steps[layer + 1] - steps[layer + 2], steps[layer + 2]);
    DivBound(i, Exp2(steps[layer + 2]), Exp2(steps[layer + 1] - steps[layer + 2]));
  }

  /** The member of the next layer's group that a query's entry in this layer is. */
  function MemberOf(steps: seq<int>, position: nat, layer: nat): (m: nat)
    requires Schedule(steps) && layer + 2 < |steps|
    ensures m < GroupWidth(steps, layer + 1)
  {
    hide LeafIndex, GroupWidth, Exp2;
    StepBounds(steps, layer + 1);
    StepBounds(steps, layer + 2);
    MemberInRow(steps, LeafIndex(steps, position, layer), layer);
    LeafIndex(steps, position, layer) / Exp2(steps[layer + 2])
  }

  /** A query's group at `layer` folds onto its target. */
  ghost predicate LinkHolds<T, P>(D: Tower<T>, steps: seq<int>, openings: seq<Opening<T, P>>, finalPol: seq<T>,
                                  position: nat, beta: T, layer: nat)
    requires Schedule(steps) && layer + 1 < |steps| && OpeningShaped(steps, openings)
    requires |finalPol| == Exp2(LastStep(steps))
  {
    VerifyFold(D, openings[layer].row, beta, steps[0], steps[layer], steps[layer + 1], LeafIndex(steps, position, layer))
    == Ok(Target(steps, openings, finalPol, position, layer))
  }

  ghost predicate AllMerkle<R, T, P>(steps: seq<int>, roots: seq<R>, openings: seq<seq<Opening<T, P>>>,
                                     positions: seq<nat>, merkle: MerkleCheck<R, T, P>)
    requires Schedule(steps) && Shaped(steps, openings) && |roots| + 1 == |steps| && |positions| == |openings|
  {
    forall l: nat, q: nat | l < |roots| && q < |openings| :: MerkleHolds(steps, roots, openings, positions, merkle, l, q)
  }

  ghost predicate AllLinks<T, P>(D: Tower<T>, steps: seq<int>, openings: seq<seq<Opening<T, P>>>, finalPol: seq<T>,
                                 positions: seq<nat>, betas: seq<T>)
    requires Schedule(steps) && Shaped(steps, openings) && |betas| + 1 == |steps| && |positions| == |openings|
    requires |finalPol| == Exp2(LastStep(steps))
  {
    forall l: nat, q: nat | l < |betas| && q < |openings| ::
      LinkAt(D, steps, openings, finalPol, positions, betas, l, q)
  }

  ghost predicate LinkAt<T, P>(D: Tower<T>, steps: seq<int>, openings: seq<seq<Opening<T, P>>>, finalPol: seq<T>,
                               positions: seq<nat>, betas: seq<T>, l: nat, q: nat)
    requires Schedule(steps) && Shaped(steps, openings) && |betas| + 1 == |steps| && |positions| == |openings|
    requires |finalPol| == Exp2(LastStep(steps)) && l < |betas| && q < |openings|
  {
    assert OpeningShaped(steps, openings[q]);
    LinkHolds(D, steps, openings[q], finalPol, positions[q], betas[l], l)
  }

  /** `c`, with no more coefficients than the group has entries, takes them on the group's
      coset: member `j` of the group opened at layer `l` sits at
      shift^(2^(steps[0] - steps[l])) * W^(i + j 2^steps[l+1]), with W the root of order
      2^steps[l] and i the position modulo 2^steps[l+1]. */
  ghost predicate Interpolates<T(!new)>(D: Tower<T>, steps: seq<int>, position: nat, l: nat, row: seq<T>, c: seq<T>)
    requires Schedule(steps) && l + 1 < |steps|
  {
    LayerBounds(steps, l);
    && |c| <= |row|
    && forall j: nat {:trigger row[j]} | j < |row| ::
         Eval(D.K, c, D.K.mul(Pow(D.K, D.shift, Exp2(steps[0] - steps[l])),
                              Pow(D.K, Pow(D.K, D.root, Exp2(32 - steps[l])),
                                  position % Exp2(steps[l + 1]) + j * Exp2(steps[l + 1]))))
         == row[j]
  }

  lemma LayerBounds(steps: seq<int>, l: nat)
    requires Schedule(steps) && l + 1 < |steps|
    ensures 0 <= steps[l + 1] < steps[l] <= steps[0] <= 32
    ensures l + 2 < |steps| ==> 0 <= steps[l + 2] < steps[l + 1]
  {
    MakeCodeAccepts(steps);
  }

  /** The verifier's fold of an opened group is its interpolant's value, at the challenge. */
  lemma FoldIsInterpolant<T(!new)>(D: Tower<T>, steps: seq<int>, position: nat, l: nat, row: seq<T>, c: seq<T>, beta: T)
    requires IsTower(D) && Schedule(steps) && l + 1 < |steps| && |row| == GroupWidth(steps, l)
    requires Interpolates(D, steps, position, l, row, c)
    ensures VerifyFold(D, row, beta, steps[0], steps[l], steps[l + 1], LeafIndex(steps, position, l)) == Ok(Eval(D.K, c, beta))
  {
    hide IsField, PrimitiveRoot, Pow, Exp2, Eval, Schedule;
    LayerBounds(steps, l);
    var ext: nat, prev: nat, cur: nat, i := steps[0], steps[l], steps[l + 1], LeafIndex(steps, position, l);
    var xs := CosetDomain(D, ext, prev, cur, i);
    CosetDistinct(D, ext, prev, cur, i);
    forall j: nat {:trigger xs[j]} | j < |xs| ensures Eval(D.K, c, xs[j]) == row[j] {
      MemberPoint(D, ext, prev, cur, i, j);
      GroupPoint(D, ext, prev, cur, i, j);
      assert At(j, Exp2(cur), i) == i + j * Exp2(cur);
    }
    LagrangeUnique(D.K, xs, row, c, beta);
  }

  /** Every opened group has an interpolant. */
  lemma GroupHasInterpolant<T(!new)>(D: Tower<T>, steps: seq<int>, position: nat, l: nat, row: seq<T>) returns (c: seq<T>)
    requires IsTower(D) && Schedule(steps) && l + 1 < |steps| && |row| == GroupWidth(steps, l)
    ensures Interpolates(D, steps, position, l, row, c)
  {
    hide IsField, PrimitiveRoot, Pow, Exp2, Eval, Schedule;
    LayerBounds(steps, l);
    var ext: nat, prev: nat, cur: nat, i := steps[0], steps[l], steps[l + 1], LeafIndex(steps, position, l);
    CosetInvIsInverse(D, ext, prev, i);
    StridedRoot(D, prev, cur);
    c := GroupInterpolant(D.K, row, GroupShift(D, ext, prev, i), Pow(D.K, Root(D, prev), Exp2(cur)));
    forall j: nat {:trigger row[j]} | j < |row| ensures Eval(D.K, c, Point(D, ext, prev, i + j * Exp2(cur))) == row[j] {
      MemberPoint(D, ext, prev, cur, i, j);
      assert At(j, Exp2(cur), i) == i + j * Exp2(cur);
    }
  }

  /** Where a layer's fold is looked for, by numbers alone. */
  lemma TargetPlace<T, P>(steps: seq<int>, o: seq<Opening<T, P>>, finalPol: seq<T>, position: nat, l: nat)
    requires Schedule(steps) && l + 1 < |steps| && OpeningShaped(steps, o) && |finalPol| == Exp2(LastStep(steps))
    ensures 0 <= steps[l + 1]
    ensures l + 2 < |steps| ==>
      && 0 <= steps[l + 2] && 0 <= position % Exp2(steps[l + 1]) / Exp2(steps[l + 2]) < |o[l + 1].row|
      && Target(steps, o, finalPol, position, l) == o[l + 1].row[position % Exp2(steps[l + 1]) / Exp2(steps[l + 2])]
    ensures l + 2 == |steps| ==>
      && position % Exp2(steps[l + 1]) < |finalPol|
      && Target(steps, o, finalPol, position, l) == finalPol[position % Exp2(steps[l + 1])]
  {
    hide Exp2;
    StepBounds(steps, l + 1);
    if l + 2 < |steps| {
      StepBounds(steps, l + 2);
      MemberInRow(steps, LeafIndex(steps, position, l), l);
    }
  }

  /** One query's fold at one layer, compared with its target. */
  method CheckLink<T(==), P>(D: Tower<T>, steps: seq<int>, openings: seq<Opening<T, P>>, finalPol: seq<T>,
                             position: nat, beta: T, layer: nat)
    returns (ok: bool)
    requires Schedule(steps) && layer + 1 < |steps| && OpeningShaped(steps, openings)
    requires |finalPol| == Exp2(LastStep(steps))
    ensures ok <==> LinkHolds(D, steps, openings, finalPol, position, beta, layer)
  {
    MakeCodeAccepts(steps);
    var i := LeafIndex(steps, position, layer);
    var folded := VerifyFold(D, openings[layer].row, beta, steps[0], steps[layer], steps[layer + 1], i);
    ok := folded == Ok(Target(steps, openings, finalPol, position, layer));
  }

  /** The fold chain: every layer's opened groups against their targets. */
  method FoldChainHolds<T(==), P>(D: Tower<T>, steps: seq<int>, openings: seq<seq<Opening<T, P>>>, finalPol: seq<T>,
                                  positions: seq<nat>, betas: seq<T>)
    returns (ok: bool)
    requires Schedule(steps) && Shaped(steps, openings) && |betas| + 1 == |steps| && |positions| == |openings|
    requires |finalPol| == Exp2(LastStep(steps))
    ensures ok <==> AllLinks(D, steps, openings, finalPol, positions, betas)
  {
    hide LinkHolds, Schedule, GroupWidth, Exp2;
    ok := true;
    for layer := 0 to |betas|
      invariant ok <==> forall l: nat, q: nat | l < layer && q < |openings| ::
                          LinkAt(D, steps, openings, finalPol, positions, betas, l, q)
    {
      ghost var before := ok;
      for query := 0 to |openings|
        invariant ok <==> before && forall q: nat | q < query :: LinkAt(D, steps, openings, finalPol, positions, betas, layer, q)
      {
        assert OpeningShaped(steps, openings[query]);
        var link := CheckLink(D, steps, openings[query], finalPol, positions[query], betas[layer], layer);
        assert LinkAt(D, steps, openings, finalPol, positions, betas, layer, query) <==> link;
        ok := ok && link;
      }
    }
  }

  /** All paths hold: each opening hashes to its layer's root, at the position modulo the
      next layer's size. */
  lemma MerkleMeans<R, T, P>(steps: seq<int>, roots: seq<R>, openings: seq<seq<Opening<T, P>>>, positions: seq<nat>,
                             merkle: MerkleCheck<R, T, P>)
    requires Schedule(steps) && Shaped(steps, openings) && |roots| + 1 == |steps| && |positions| == |openings|
    ensures AllMerkle(steps, roots, openings, positions, merkle) <==>
      && (forall q: nat, l: nat {:trigger openings[q][l]} | q < |openings| && l < |roots| ::
            LayerBounds(steps, l);
            assert OpeningShaped(steps, openings[q]);
            merkle(roots[l], positions[q] % Exp2(steps[l + 1]), openings[q][l]))
  {
    hide Exp2;
    forall q: nat, l: nat {:trigger openings[q][l]} | q < |openings| && l < |roots|
      ensures 0 <= steps[l + 1] && l < |openings[q]|
      ensures MerkleHolds(steps, roots, openings, positions, merkle, l, q)
         <==> merkle(roots[l], positions[q] % Exp2(steps[l + 1]), openings[q][l])
    {
      LayerBounds(steps, l);
      assert OpeningShaped(steps, openings[q]);
    }
  }

  lemma LinkMeans<T(!new), P>(D: Tower<T>, steps: seq<int>, openings: seq<seq<Opening<T, P>>>, finalPol: seq<T>,
                              positions: seq<nat>, betas: seq<T>, l: nat, q: nat, c: seq<T>)
    requires IsTower(D) && Schedule(steps) && Shaped(steps, openings) && |betas| + 1 == |steps| && |positions| == |openings|
    requires |finalPol| == Exp2(LastStep(steps)) && l < |betas| && q < |openings| && OpeningShaped(steps, openings[q])
    requires Interpolates(D, steps, positions[q], l, openings[q][l].row, c)
    ensures LinkAt(D, steps, openings, finalPol, positions, betas, l, q)
       <==> Eval(D.K, c, betas[l]) == Target(steps, openings[q], finalPol, positions[q], l)
  {
    hide IsField, PrimitiveRoot, Exp2, Eval, Schedule, Target, Interpolates, VerifyFold;
    FoldIsInterpolant(D, steps, positions[q], l, openings[q][l].row, c, betas[l]);
  }

  /** One link, by numbers alone. */
  lemma LinkByNumbers<T(!new), P>(D: Tower<T>, steps: seq<int>, openings: seq<seq<Opening<T, P>>>, finalPol: seq<T>,
                                  positions: seq<nat>, betas: seq<T>, l: nat, q: nat)
    requires IsTower(D) && Schedule(steps) && Shaped(steps, openings) && |betas| + 1 == |steps| && |positions| == |openings|
    requires |finalPol| == Exp2(LastStep(steps)) && l < |betas| && q < |openings|
    ensures LinkAt(D, steps, openings, finalPol, positions, betas, l, q) <==>
      (LayerBounds(steps, l);
       assert OpeningShaped(steps, openings[q]);
       var i := positions[q] % Exp2(steps[l + 1]);
       var (next, m) := if l + 1 < |betas| then (openings[q][l + 1].row, i / Exp2(steps[l + 2])) else (finalPol, i);
       forall c: seq<T> | Interpolates(D, steps, positions[q], l, openings[q][l].row, c) ::
         0 <= m < |next| && next[m] == Eval(D.K, c, betas[l]))
  {
    assert OpeningShaped(steps, openings[q]);
    hide IsField, PrimitiveRoot, Exp2, Eval, Schedule, Target, Interpolates, LinkAt, VerifyFold;
    var row := openings[q][l].row;
    TargetPlace(steps, openings[q], finalPol, positions[q], l);
    var known := GroupHasInterpolant(D, steps, positions[q], l, row);
    forall c: seq<T> | Interpolates(D, steps, positions[q], l, row, c)
      ensures LinkAt(D, steps, openings, finalPol, positions, betas, l, q)
         <==> Eval(D.K, c, betas[l]) == Target(steps, openings[q], finalPol, positions[q], l)
    {
      LinkMeans(D, steps, openings, finalPol, positions, betas, l, q, c);
    }
  }

  /** The links, by numbers alone: whatever interpolates an opened group takes, at the layer's
      challenge, the next opened group's entry at (position mod 2^steps[l+1]) / 2^steps[l+2], or
      at the last layer the final polynomial's entry. */
  lemma LinksMean<T(!new), P>(D: Tower<T>, steps: seq<int>, openings: seq<seq<Opening<T, P>>>, finalPol: seq<T>,
                                  positions: seq<nat>, betas: seq<T>)
    requires IsTower(D) && Schedule(steps) && Shaped(steps, openings) && |betas| + 1 == |steps| && |positions| == |openings|
    requires |finalPol| == Exp2(LastStep(steps))
    ensures AllLinks(D, steps, openings, finalPol, positions, betas) <==>
      (forall q: nat, l: nat, c: seq<T> {:trigger Interpolates(D, steps, positions[q], l, openings[q][l].row, c)}
            | q < |openings| && l < |betas| ::
            LayerBounds(steps, l);
            assert OpeningShaped(steps, openings[q]);
            var i := positions[q] % Exp2(steps[l + 1]);
            var (next, m) := if l + 1 < |betas| then (openings[q][l + 1].row, i / Exp2(steps[l + 2])) else (finalPol, i);
            Interpolates(D, steps, positions[q], l, openings[q][l].row, c) ==> 0 <= m < |next| && next[m] == Eval(D.K, c, betas[l]))
  {
    hide IsTower, Schedule, Interpolates, Exp2, Eval, LinkAt;
    forall q: nat, l: nat {:trigger LinkAt(D, steps, openings, finalPol, positions, betas, l, q)} {:trigger openings[q][l]}
      | q < |openings| && l < |betas|
      ensures LinkAt(D, steps, openings, finalPol, positions, betas, l, q) <==>
        (LayerBounds(steps, l);
         assert OpeningShaped(steps, openings[q]);
         var i := positions[q] % Exp2(steps[l + 1]);
         var (next, m) := if l + 1 < |betas| then (openings[q][l + 1].row, i / Exp2(steps[l + 2])) else (finalPol, i);
         forall c: seq<T> | Interpolates(D, steps, positions[q], l, openings[q][l].row, c) ::
           0 <= m < |next| && next[m] == Eval(D.K, c, betas[l]))
    {
      LinkByNumbers(D, steps, openings, finalPol, positions, betas, l, q);
    }
  }

  /** The query-phase verdict.  A malformed schedule or final polynomial raises. */
  method VerifyQueryLayers<R, T(==, !new), P>(D: Tower<T>, roots: seq<R>, finalPol: seq<T>, openings: seq<seq<Opening<T, P>>>,
                                        positions: seq<nat>, betas: seq<T>, steps: seq<int>, nBits: int,
                                        merkle: MerkleCheck<R, T, P>)
    returns (verdict: Result<bool>)
    requires Schedule(steps) ==> Shaped(steps, openings)
    requires |roots| == |betas| && |betas| + 1 == |steps| && |positions| == |openings|
    ensures !Schedule(steps) ==> verdict == ValueError
    ensures Schedule(steps) && !AllMerkle(steps, roots, openings, positions, merkle) ==> verdict == Ok(false)
    ensures Schedule(steps) && AllMerkle(steps, roots, openings, positions, merkle) ==>
              if CheckFinal(D, steps, finalPol, nBits).ValueError? then verdict == ValueError
              else verdict.Ok? && (verdict.value <==> AllLinks(D, steps, openings, finalPol, positions, betas)
                                                      && CheckFinal(D, steps, finalPol, nBits).value)
    ensures IsTower(D) ==> (verdict == Ok(true) <==>
      && Schedule(steps) && CheckFinal(D, steps, finalPol, nBits) == Ok(true)
      && (forall q: nat, l: nat {:trigger openings[q][l]} | q < |openings| && l < |roots| ::
            LayerBounds(steps, l);
            assert OpeningShaped(steps, openings[q]);
            merkle(roots[l], positions[q] % Exp2(steps[l + 1]), openings[q][l]))
      && (forall q: nat, l: nat, c: seq<T> {:trigger Interpolates(D, steps, positions[q], l, openings[q][l].row, c)}
            | q < |openings| && l < |betas| ::
            LayerBounds(steps, l);
            assert OpeningShaped(steps, openings[q]);
            var i := positions[q] % Exp2(steps[l + 1]);
            var (next, m) := if l + 1 < |betas| then (openings[q][l + 1].row, i / Exp2(steps[l + 2])) else (finalPol, i);
            Interpolates(D, steps, positions[q], l, openings[q][l].row, c) ==> 0 <= m < |next| && next[m] == Eval(D.K, c, betas[l])))
  {
    hide Interpolates, Exp2, Eval, LinkAt, IsTower;
    MakeCodeAccepts(steps);
    if MakeCode(steps).ValueError? {
      return ValueError;
    }
    hide MakeCode;
    MerkleMeans(steps, roots, openings, positions, merkle);
    for layer := 0 to |roots|
      invariant forall l: nat, q: nat | l < layer && q < |openings| :: MerkleHolds(steps, roots, openings, positions, merkle, l, q)
    {
      for query := 0 to |openings|
        invariant forall q: nat | q < query :: MerkleHolds(steps, roots, openings, positions, merkle, layer, q)
      {
        assert OpeningShaped(steps, openings[query]);
        if !merkle(roots[layer], LeafIndex(steps, positions[query], layer), openings[query][layer]) {
          assert !MerkleHolds(steps, roots, openings, positions, merkle, layer, query);
          return Ok(false);
        }
      }
    }
    var final := CheckFinal(D, steps, finalPol, nBits);
    if final.ValueError? {
      return ValueError;
    }
    var links := FoldChainHolds(D, steps, openings, finalPol, positions, betas);
    if IsTower(D) { LinksMean(D, steps, openings, finalPol, positions, betas); }
    hide AllLinks, CheckFinal;
    return Ok(links && final.value);
  }

  // ------------------------------------------------------ honest provers pass

  /** What an honest prover opens: each layer's own group at the leaf index. */
  ghost predicate HonestQuery<T(!new), P>(D: Tower<T>, steps: seq<int>, pol: seq<T>, betas: seq<T>,
                                          position: nat, o: seq<Opening<T, P>>)
    requires Schedule(steps) && |betas| + 1 == |steps|
  {
    |o| == |betas| && forall l: nat {:trigger o[l]} | l < |o| :: HonestRow(D, steps, pol, betas, position, l, o[l].row)
  }

  ghost predicate HonestOpenings<T(!new), P>(D: Tower<T>, steps: seq<int>, pol: seq<T>, betas: seq<T>,
                                             openings: seq<seq<Opening<T, P>>>, positions: seq<nat>)
    requires Schedule(steps) && |betas| + 1 == |steps| && |positions| == |openings|
  {
    forall q: nat {:trigger openings[q]} | q < |openings| :: HonestQuery(D, steps, pol, betas, positions[q], openings[q])
  }

  ghost predicate HonestRow<T(!new)>(D: Tower<T>, steps: seq<int>, pol: seq<T>, betas: seq<T>, position: nat, l: nat, row: seq<T>)
    requires Schedule(steps) && |betas| + 1 == |steps| && l < |betas|
  {
    MakeCodeAccepts(steps);
    Exp2Add(steps[l] - steps[l + 1], steps[l + 1]);
    && Layer(D, steps, pol, betas, l).Ok? && |Layer(D, steps, pol, betas, l).value| == Exp2(steps[l])
    && row == Group(Layer(D, steps, pol, betas, l).value, Exp2(steps[l + 1]), Exp2(steps[l] - steps[l + 1]),
                    LeafIndex(steps, position, l))
  }

  /** A leaf's member at `i / size` is the codeword's own entry `i`. */
  lemma MemberIsEntry<T>(v: seq<T>, cur: nat, nx: nat, i: nat)
    requires cur > 0 && |v| == nx * cur && i < |v|
    ensures i / cur < nx && Group(v, cur, nx, i % cur)[i / cur] == v[i]
  {
    DivBound(i, cur, nx);
    assert InGroup(cur, nx, i % cur, i / cur);
  }

  /** In a layer of `nx` groups' members by `cur` groups: where row `position` is, in its group. */
  lemma NextMember<T>(next: seq<T>, cur: nat, nx: nat, size: nat, position: nat)
    requires cur > 0 && nx > 0 && size == nx * cur && size > 0 && |next| == size
    ensures position % size < size && 0 <= position % size / cur < nx
    ensures Group(next, cur, nx, position % cur)[position % size / cur] == next[position % size]
  {
    hide Group;
    ModMod(position, cur, nx);
    MemberIsEntry(next, cur, nx, position % size);
  }

  /** What layer `l`'s fold is compared with: the next layer's own entry. */
  lemma HonestTarget<T(!new), P>(D: Tower<T>, steps: seq<int>, pol: seq<T>, betas: seq<T>,
                                 openings: seq<Opening<T, P>>, finalPol: seq<T>, position: nat, l: nat)
    requires Schedule(steps) && |betas| + 1 == |steps| && |openings| == |betas| && l < |betas|
    requires HonestQuery(D, steps, pol, betas, position, openings) && OpeningShaped(steps, openings)
    requires Layer(D, steps, pol, betas, |betas|) == Ok(finalPol) && |finalPol| == Exp2(LastStep(steps))
    ensures Layer(D, steps, pol, betas, l + 1).Ok?
    ensures var i, next := LeafIndex(steps, position, l), Layer(D, steps, pol, betas, l + 1).value;
            i < |next| && Target(steps, openings, finalPol, position, l) == next[i]
  {
    hide Group, Layer, Exp2;
    MakeCodeAccepts(steps);
    if l + 2 < |steps| {
      assert HonestRow(D, steps, pol, betas, position, l + 1, openings[l + 1].row);
      Exp2Add(steps[l + 1] - steps[l + 2], steps[l + 2]);
      NextMember(Layer(D, steps, pol, betas, l + 1).value, Exp2(steps[l + 2]), Exp2(steps[l + 1] - steps[l + 2]),
                 Exp2(steps[l + 1]), position);
    }
  }

  /** The two readings of one folded value: as the fold of layer `l`'s leaf, and
      as a member of layer l+1's leaf. */
  lemma HonestLink<T(!new), P>(D: Tower<T>, steps: seq<int>, pol: seq<T>, betas: seq<T>,
                               openings: seq<Opening<T, P>>, finalPol: seq<T>, position: nat, l: nat)
    requires IsTower(D) && Schedule(steps) && |betas| + 1 == |steps| && |openings| == |betas| && l < |betas|
    requires HonestQuery(D, steps, pol, betas, position, openings)
    requires Layer(D, steps, pol, betas, |betas|) == Ok(finalPol) && |finalPol| == Exp2(LastStep(steps))
    ensures OpeningShaped(steps, openings) && LinkHolds(D, steps, openings, finalPol, position, betas[l], l)
  {
    hide IsTower, Group, Target, OpeningShaped;
    MakeCodeAccepts(steps);
    HonestShape(D, steps, pol, betas, position, openings);
    HonestTarget(D, steps, pol, betas, openings, finalPol, position, l);
    assert HonestRow(D, steps, pol, betas, position, l, openings[l].row);
    var v := Layer(D, steps, pol, betas, l).value;
    VerifyFoldIsFold(D, v, betas[l], steps[0], steps[l], steps[l + 1], LeafIndex(steps, position, l));
    FoldGroupLevel(D, steps, v, betas[l], l);
    assert Layer(D, steps, pol, betas, l + 1) == FoldGroup(D, steps, v, betas[l]);
  }

  /** An honest prover passes: for every accepted schedule whose last layer is at
      least as wide as the blowup, every polynomial of degree below 2^n_bits, and
      every set of query positions, the chain of openings links up and the final
      polynomial passes, so only the hash tree is left to decide. */
  lemma HonestProverAccepted<T(!new), P>(D: Tower<T>, steps: seq<int>, p: seq<T>, pol: seq<T>, betas: seq<T>,
                                         openings: seq<seq<Opening<T, P>>>, finalPol: seq<T>, positions: seq<nat>, nBits: nat)
    requires IsTower(D) && Schedule(steps) && |betas| + 1 == |steps| && |positions| == |openings|
    requires nBits <= steps[0] && DegreeBelow(D.K, p, Exp2(nBits))
    requires 0 <= steps[0] <= 32 && IsCodeword(D, steps[0], steps[0], p, pol)
    requires steps[0] - nBits <= steps[|steps| - 1]
    requires HonestOpenings(D, steps, pol, betas, openings, positions)
    requires Layer(D, steps, pol, betas, |betas|) == Ok(finalPol)
    ensures Shaped(steps, openings) && |finalPol| == Exp2(LastStep(steps))
    ensures AllLinks(D, steps, openings, finalPol, positions, betas)
    ensures CheckFinal(D, steps, finalPol, nBits) == Ok(true)
  {
    MakeCodeAccepts(steps);
    HonestFinalAccepted(D, steps, p, pol, betas, nBits);
    HonestLinks(D, steps, pol, betas, openings, finalPol, positions) by {
      ChainKeepsCode(D, steps, p, pol, betas, nBits, |betas|);
    }
  }

  lemma HonestLinks<T(!new), P>(D: Tower<T>, steps: seq<int>, pol: seq<T>, betas: seq<T>,
                                openings: seq<seq<Opening<T, P>>>, finalPol: seq<T>, positions: seq<nat>)
    requires IsTower(D) && Schedule(steps) && |betas| + 1 == |steps| && |positions| == |openings|
    requires HonestOpenings(D, steps, pol, betas, openings, positions)
    requires Layer(D, steps, pol, betas, |betas|) == Ok(finalPol) && |finalPol| == Exp2(LastStep(steps))
    ensures Shaped(steps, openings) && AllLinks(D, steps, openings, finalPol, positions, betas)
  {
    forall q: nat {:trigger openings[q]} | q < |openings| ensures OpeningShaped(steps, openings[q]) {
      HonestShape(D, steps, pol, betas, positions[q], openings[q]);
    }
    forall l: nat, q: nat | l < |betas| && q < |openings|
      ensures LinkAt(D, steps, openings, finalPol, positions, betas, l, q)
    {
      HonestLink(D, steps, pol, betas, openings[q], finalPol, positions[q], l);
    }
  }

  lemma HonestShape<T(!new), P>(D: Tower<T>, steps: seq<int>, pol: seq<T>, betas: seq<T>, position: nat, o: seq<Opening<T, P>>)
    requires Schedule(steps) && |betas| + 1 == |steps| && HonestQuery(D, steps, pol, betas, position, o)
    ensures OpeningShaped(steps, o)
  {
    forall k: nat {:trigger o[k]} | k < |o| ensures |o[k].row| == GroupWidth(steps, k) {
      assert HonestRow(D, steps, pol, betas, position, k, o[k].row);
    }
  }

  /** The layer-0 lookup: the query's own row of the codeword sits in its opened
      group at member `row >> steps[1]`. */
  lemma LayerZeroLookup<T(!new)>(D: Tower<T>, steps: seq<int>, pol: seq<T>, betas: seq<T>, position: nat, group: seq<T>)
    requires Schedule(steps) && |steps| > 1 && |betas| + 1 == |steps| && 0 <= steps[1] < steps[0] && |pol| == Exp2(steps[0])
    requires HonestRow(D, steps, pol, betas, position, 0, group)
    ensures var row := position % Exp2(steps[0]);
            && row < |pol| && 0 <= row / Exp2(steps[1]) < |group|
            && group[row / Exp2(steps[1])] == pol[row]
  {
    hide Exp2, Group;
    var c, n := Exp2(steps[1]), Exp2(steps[0] - steps[1]);
    Exp2Add(steps[0] - steps[1], steps[1]);
    ModMod(position, c, n);
    MemberIsEntry(pol, c, n, position % Exp2(steps[0]));
  }
}
