/** The flat wire proof: how `serialize_proof` writes it, how long the bridge says
    it is, and where `parse_proof` looks for its sections.  Trees have arity 4. */
module Wire {

  type Words = seq<nat>

  datatype Result<+T> = Ok(value: T) | Err

  const DIGEST := 4
  /** A path level's siblings, three digests for arity 4. */
  const PER_LEVEL := 12

  function Pow2(k: nat): (n: nat)
    ensures n > 0
  {
    if k == 0 then 1 else 2 * Pow2(k - 1)
  }

  /** The levels of an arity-4 tree over 2^nBits leaves: ceil(nBits / 2). */
  function Levels(nBits: nat): nat { (nBits + 1) / 2 }

  /** The path levels the wire carries; negative when more is verified than there is. */
  function NSiblings(nBits: nat, llv: nat): int { Levels(nBits) - llv }

  /** 4^llv digests, or nothing when no last level is verified. */
  function LastLevelWords(llv: nat): nat { if llv == 0 then 0 else Pow2(2 * llv) * DIGEST }

  // ------------------------------------------------------------- last level

  function CeilQuarter(n: nat): nat { (n + 3) / 4 }

  /** The walk up from the leaves to the first level of at most `cap` nodes: how
      many levels up it stops, and that level's size. */
  method LastLevelWalk(leaves: nat, cap: nat) returns (level: nat, n: nat)
    requires cap >= 1
    ensures n == Up(leaves, level) && StopsAt(leaves, cap, level)
  {
    n := leaves;
    level := 0;
    while n > cap
      invariant n == Up(leaves, level)
      invariant forall l: nat :: l < level ==> Up(leaves, l) > cap
      decreases n
    {
      n := (n + 3) / 4;
      level := level + 1;
    }
  }

  /** The nodes `level` levels up. */
  function Up(leaves: nat, level: nat): nat {
    if level == 0 then leaves else CeilQuarter(Up(leaves, level - 1))
  }

  /** The level the walk stops at. */
  ghost predicate StopsAt(leaves: nat, cap: nat, level: nat) {
    Up(leaves, level) <= cap && forall l: nat :: l < level ==> Up(leaves, l) > cap
  }

  ghost predicate AreDigests(nodes: seq<Words>) {
    forall i: nat {:trigger nodes[i]} | i < |nodes| :: |nodes[i]| == DIGEST
  }

  /** The words of the first `n` of `nodes`, with zero digests after them up to `cap`. */
  ghost predicate PaddedTo(nodes: seq<Words>, n: nat, cap: nat, out: Words) {
    && AreDigests(nodes) && |out| == 4 * cap
    && (forall i: nat, w: nat {:trigger nodes[i][w]} | i < n && i < |nodes| && i < cap && w < 4 :: out[4 * i + w] == nodes[i][w])
    && (forall k: nat {:trigger out[k]} | 4 * n <= k < |out| || 4 * |nodes| <= k < |out| :: out[k] == 0)
  }

  lemma {:induction false} FlattenAt(nodes: seq<Words>)
    requires AreDigests(nodes)
    ensures |Flatten(nodes)| == 4 * |nodes|
    ensures forall i: nat, w: nat {:trigger nodes[i][w]} | i < |nodes| && w < 4 :: Flatten(nodes)[4 * i + w] == nodes[i][w]
    decreases |nodes|
  {
    if nodes != [] {
      var init := nodes[..|nodes| - 1];
      FlattenAt(init);
      forall i: nat, w: nat {:trigger nodes[i][w]} | i < |nodes| && w < 4 ensures Flatten(nodes)[4 * i + w] == nodes[i][w] {
        if i < |init| { assert init[i][w] == nodes[i][w]; }
      }
    }
  }

  lemma ZeroPlace(k: nat, n: nat, m: nat)
    requires 4 * n <= k || 4 * m <= k
    ensures k == 4 * (k / 4) + k % 4 && (n <= k / 4 || m <= k / 4)
  {
  }

  lemma Pads(nodes: seq<Words>, n: nat, cap: nat, padded: seq<Words>)
    requires AreDigests(nodes) && n <= cap == |padded|
    requires forall i: nat {:trigger padded[i]} | i < cap :: padded[i] == if i < n && i < |nodes| then nodes[i] else [0, 0, 0, 0]
    ensures PaddedTo(nodes, n, cap, Flatten(padded))
  {
    hide Flatten;
    FlattenAt(padded);
    var out := Flatten(padded);
    forall i: nat, w: nat {:trigger nodes[i][w]} | i < n && i < |nodes| && i < cap && w < 4 ensures out[4 * i + w] == nodes[i][w] {
      assert padded[i][w] == nodes[i][w];
    }
    forall k: nat {:trigger out[k]} | 4 * n <= k < |out| || 4 * |nodes| <= k < |out| ensures out[k] == 0 {
      ZeroPlace(k, n, |nodes|);
      assert padded[k / 4] == [0, 0, 0, 0];
      assert out[4 * (k / 4) + k % 4] == padded[k / 4][k % 4];
    }
  }

  /** `_last_level`: the nodes of the level the walk stops at, zero-padded to exactly
      4^llv; nothing when no last level is verified, and an index error when the tree has
      no layer there. */
  method LastLevel(layers: seq<seq<Words>>, llv: nat) returns (level: nat, out: Result<Words>)
    requires forall l: nat {:trigger layers[l]} | l < |layers| :: AreDigests(layers[l])
    ensures llv == 0 ==> out == Ok([])
    ensures llv > 0 && layers == [] ==> out.Err?
    ensures llv > 0 && layers != [] ==> StopsAt(|layers[0]|, Pow2(2 * llv), level) && (out.Ok? <==> level < |layers|)
    ensures llv > 0 && out.Ok? ==>
              PaddedTo(layers[level], Up(|layers[0]|, level), Pow2(2 * llv), out.value) && |out.value| == LastLevelWords(llv)
  {
    level := 0;
    if llv == 0 {
      return level, Ok([]);
    }
    if |layers| == 0 {
      return level, Err;
    }
    var cap, n := Pow2(2 * llv), 0;
    level, n := LastLevelWalk(|layers[0]|, cap);
    if level >= |layers| {
      return level, Err;
    }
    var nodes := layers[level][..if n < |layers[level]| then n else |layers[level]|];
    var padded := nodes + seq(cap - |nodes|, (i: nat) => [0, 0, 0, 0]);
    Pads(layers[level], n, cap, padded);
    out := Ok(Flatten(padded));
  }

  lemma {:induction false} UpPowerOfTwo(nBits: nat, level: nat)
    ensures Up(Pow2(nBits), level) == if 2 * level <= nBits then Pow2(nBits - 2 * level) else 1
  {
    if level > 0 {
      UpPowerOfTwo(nBits, level - 1);
      if 2 * level <= nBits {
        assert Pow2(nBits - 2 * (level - 1)) == 4 * Pow2(nBits - 2 * level);
      } else if 2 * (level - 1) <= nBits {
        assert Pow2(nBits - 2 * (level - 1)) <= 2 by {
          assert nBits - 2 * (level - 1) <= 1;
        }
      }
    }
  }

  lemma {:induction false} Pow2Mono(a: nat, b: nat)
    ensures a < b ==> Pow2(a) < Pow2(b)
    ensures a <= b ==> Pow2(a) <= Pow2(b)
    decreases b
  {
    if a < b { Pow2Mono(a, b - 1); }
  }

  /** When a last level is verified, the walk stops exactly as many levels up as the
      truncated paths reach. */
  lemma WalkStopsAtTruncation(nBits: nat, llv: nat, level: nat)
    requires 1 <= llv <= Levels(nBits)
    requires StopsAt(Pow2(nBits), Pow2(2 * llv), level)
    ensures level == NSiblings(nBits, llv)
  {
    var k: nat := Levels(nBits) - llv;
    UpPowerOfTwo(nBits, level);
    UpPowerOfTwo(nBits, k);
    if 2 * k <= nBits { Pow2Mono(nBits - 2 * k, 2 * llv); }
    Pow2Mono(0, 2 * llv);
    if level < k {
      Pow2Mono(2 * llv, nBits - 2 * level);
    }
  }

  // ---------------------------------------------------------- packed value sections

  /** A first-stage value packs as one word, any later one as three. */
  function Width(stage: nat): nat { if stage == 1 then 1 else 3 }

  function PackedWidth(stages: seq<nat>): nat {
    if stages == [] then 0 else PackedWidth(stages[..|stages| - 1]) + Width(stages[|stages| - 1])
  }

  method ValueOffsets(stages: seq<nat>) returns (out: seq<(nat, nat)>)
    ensures |out| == |stages|
    ensures forall i: nat {:trigger out[i]} | i < |out| :: out[i] == (PackedWidth(stages[..i]), Width(stages[i]))
  {
    out := [];
    var off := 0;
    for i := 0 to |stages|
      invariant |out| == i && off == PackedWidth(stages[..i])
      invariant forall j: nat {:trigger out[j]} | j < i :: out[j] == (PackedWidth(stages[..j]), Width(stages[j]))
    {
      out := out + [(off, Width(stages[i]))];
      assert stages[..i + 1][..i] == stages[..i];
      off := off + Width(stages[i]);
    }
  }

  lemma {:induction false} PackedMono(stages: seq<nat>, i: nat)
    requires i < |stages|
    ensures PackedWidth(stages[..i]) + Width(stages[i]) <= PackedWidth(stages)
    decreases |stages|
  {
    var n := |stages| - 1;
    if i < n {
      PackedMono(stages[..n], i);
      assert stages[..n][..i] == stages[..i];
    }
  }

  /** Three wire words for the value packed at `off`: its words, then zeros. */
  function Triple(words: Words, off: nat, width: nat): (t: Words)
    ensures |t| == 3
  {
    seq(3, (k: nat) => if k < width && off + k < |words| then words[off + k] else 0)
  }

  function TriplesUpTo(words: Words, stages: seq<nat>, n: nat): (w: Words)
    requires n <= |stages|
    ensures |w| == 3 * n
  {
    if n == 0 then []
    else TriplesUpTo(words, stages, n - 1) + Triple(words, PackedWidth(stages[..n - 1]), Width(stages[n - 1]))
  }

  /** The dumped packing expanded to three words per entry. */
  function Triples(words: Words, stages: seq<nat>): (w: Words)
    ensures |w| == 3 * |stages|
  {
    TriplesUpTo(words, stages, |stages|)
  }

  /** Word by word: value `i`'s first word is at the summed width of those before it, a
      first-stage value has that one, any other three, and zeros fill up. */
  lemma {:induction false} TriplesAre(words: Words, stages: seq<nat>, n: nat, i: nat, k: nat)
    requires PackedWidth(stages) <= |words| && i < n <= |stages| && k < 3
    ensures PackedWidth(stages[..i]) + (if stages[i] == 1 then 1 else 3) <= |words|
    ensures TriplesUpTo(words, stages, n)[3 * i + k]
         == if k == 0 || stages[i] != 1 then words[PackedWidth(stages[..i]) + k] else 0
    decreases n
  {
    PackedMono(stages, i);
    if i < n - 1 { TriplesAre(words, stages, n - 1, i, k); }
  }

  /** `_values3`: the expansion, and an assertion that the section is as long as its map. */
  method Values3(words: Words, stages: seq<nat>) returns (r: Result<Words>)
    ensures r == if |words| == PackedWidth(stages) then Ok(Triples(words, stages)) else Err
  {
    var out: Words := [];
    var off, width := 0, 0;
    var offsets := ValueOffsets(stages);
    for i := 0 to |stages|
      invariant out == TriplesUpTo(words, stages, i)
      invariant off + width == PackedWidth(stages[..i])
    {
      off, width := offsets[i].0, offsets[i].1;
      out := out + Triple(words, off, width);
      assert stages[..i + 1][..i] == stages[..i];
    }
    assert stages[..|stages|] == stages;
    r := if off + width == |words| then Ok(out) else Err;
  }

  /** `push_values3`: the same expansion, without the assertion. */
  lemma TriplesStart(words: Words, stages: seq<nat>)
    requires PackedWidth(stages) <= |words|
    ensures TriplesUpTo(words, stages, 0) == []
  {
  }

  lemma TriplesNext(out: Words, words: Words, stages: seq<nat>, i: nat)
    requires i < |stages| && PackedWidth(stages) <= |words|
    ensures PackedWidth(stages[..i]) + Width(stages[i]) <= |words|
    ensures out + TriplesUpTo(words, stages, i) + Triple(words, PackedWidth(stages[..i]), Width(stages[i]))
         == out + TriplesUpTo(words, stages, i + 1)
  {
    PackedMono(stages, i);
  }

  method PushValues3(out: Words, words: Words, stages: seq<nat>) returns (r: Words)
    requires PackedWidth(stages) <= |words|
    ensures r == out + Triples(words, stages)
  {
    hide TriplesUpTo, PackedWidth;
    TriplesStart(words, stages);
    r := out;
    var offsets := ValueOffsets(stages);
    for i := 0 to |stages|
      invariant r == out + TriplesUpTo(words, stages, i)
    {
      var (off, width) := offsets[i];
      PackedMono(stages, i);
      var triple: Words := [];
      for k := 0 to 3
        invariant triple == Triple(words, off, width)[..k]
      {
        triple := triple + [if k < width then words[off + k] else 0];
      }
      assert triple == Triple(words, off, width);
      r := r + triple;
      TriplesNext(out, words, stages, i);
    }
  }

  /** Every entry of a three-word section comes out as it went in. */
  lemma {:induction false} TriplesOfCubics(words: Words, stages: seq<nat>, n: nat)
    requires n <= |stages| && 3 * n <= |words| && forall i: nat {:trigger stages[i]} | i < n :: stages[i] != 1
    ensures PackedWidth(stages[..n]) == 3 * n && TriplesUpTo(words, stages, n) == words[..3 * n]
  {
    if n > 0 {
      TriplesOfCubics(words, stages, n - 1);
      assert stages[..n][..n - 1] == stages[..n - 1];
      assert Triple(words, 3 * (n - 1), 3) == words[3 * (n - 1)..3 * n];
    } else {
      assert stages[..0] == [];
    }
  }

  lemma {:induction false} PackedAtMost(stages: seq<nat>)
    ensures PackedWidth(stages) <= 3 * |stages|
    ensures PackedWidth(stages) == 3 * |stages| <==> forall i: nat {:trigger stages[i]} | i < |stages| :: stages[i] != 1
  {
    if stages != [] {
      var init := stages[..|stages| - 1];
      PackedAtMost(init);
      if forall i: nat {:trigger stages[i]} | i < |stages| :: stages[i] != 1 {
        assert forall i: nat {:trigger init[i]} | i < |init| :: init[i] == stages[i];
      } else {
        var i: nat :| i < |stages| && stages[i] == 1;
        if i < |init| { assert init[i] == 1; }
      }
    }
  }

  // ------------------------------------------------------------------ tree openings

  function Flatten(parts: seq<Words>): Words {
    if parts == [] then [] else Flatten(parts[..|parts| - 1]) + parts[|parts| - 1]
  }

  lemma {:induction false} FlattenAppend(a: seq<Words>, b: seq<Words>)
    ensures Flatten(a + b) == Flatten(a) + Flatten(b)
    decreases |b|
  {
    if b == [] {
      assert a + b == a;
    } else {
      var n := |b| - 1;
      assert (a + b)[..|a| + n] == a + b[..n];
      FlattenAppend(a, b[..n]);
    }
  }

  lemma {:induction false} FlattenLength(parts: seq<Words>, n: nat)
    requires forall i: nat {:trigger parts[i]} | i < |parts| :: |parts[i]| == n
    ensures |Flatten(parts)| == |parts| * n
  {
    if parts != [] {
      FlattenLength(parts[..|parts| - 1], n);
      assert |parts| * n == (|parts| - 1) * n + n;
    }
  }

  /** One committed tree's wire data: each query's leaf row and truncated path, and
      the last-verified level. */
  datatype TreeOpening = TreeOpening(rows: seq<Words>, paths: seq<Words>, lastLevel: Words)

  /** A tree's query block. */
  function Block(o: TreeOpening): Words { Flatten(o.rows) + Flatten(o.paths) + o.lastLevel }

  /** `open_tree_convert`'s cut of the batched group proofs: leaf values first, then
      the path cut to the levels on the wire. */
  function Convert(flat: seq<Words>, lastLevel: Words, width: nat, siblings: nat): (o: TreeOpening)
    requires forall q: nat {:trigger flat[q]} | q < |flat| :: width + siblings * PER_LEVEL <= |flat[q]|
  {
    TreeOpening(seq(|flat|, (q: nat) requires q < |flat| => flat[q][..width]),
                seq(|flat|, (q: nat) requires q < |flat| => flat[q][width..width + siblings * PER_LEVEL]),
                lastLevel)
  }

  /** A block of the sizes a tree of `width` columns and 2^nBits leaves has on the wire. */
  ghost predicate Fits(o: TreeOpening, nQueries: nat, width: nat, nBits: nat, llv: nat) {
    && llv <= Levels(nBits)
    && |o.rows| == nQueries && |o.paths| == nQueries && |o.lastLevel| == LastLevelWords(llv)
    && (forall q: nat {:trigger o.rows[q]} | q < nQueries :: |o.rows[q]| == width)
    && (forall q: nat {:trigger o.paths[q]} | q < nQueries :: |o.paths[q]| == (Levels(nBits) - llv) * PER_LEVEL)
  }

  /** `tree(width, n_bits)`: a block's length. */
  function TreeWords(nQueries: nat, width: nat, nBits: nat, llv: nat): nat
    requires llv <= Levels(nBits)
  {
    nQueries * width + nQueries * ((Levels(nBits) - llv) * PER_LEVEL) + LastLevelWords(llv)
  }

  lemma BlockLength(o: TreeOpening, nQueries: nat, width: nat, nBits: nat, llv: nat)
    requires Fits(o, nQueries, width, nBits, llv)
    ensures |Block(o)| == TreeWords(nQueries, width, nBits, llv)
  {
    FlattenLength(o.rows, width);
    FlattenLength(o.paths, (Levels(nBits) - llv) * PER_LEVEL);
  }

  // ------------------------------------------------------------------- whole proofs

  /** What fixes a proof's layout: the value maps' stages, the column counts, the
      folding schedule and the queries.  Two committed stages and the quotient. */
  datatype Shape = Shape(airgroup: seq<nat>, airvalues: seq<nat>, evMap: nat, nConstants: nat, customs: seq<nat>,
                         cm1: nat, cm2: nat, qsec: nat, steps: seq<nat>, nQueries: nat, llv: nat)

  ghost predicate ValidShape(s: Shape) {
    && |s.steps| >= 1 && (forall i: nat {:trigger s.steps[i]} | i + 1 < |s.steps| :: s.steps[i] >= s.steps[i + 1])
    && (forall i: nat {:trigger s.steps[i]} | i < |s.steps| :: s.llv <= Levels(s.steps[i]))
  }

  datatype Proof = Proof(airgroupValues: Words, airValues: Words, roots: seq<Words>, evals: Words, const_: TreeOpening,
                         customs: seq<TreeOpening>, stages: seq<TreeOpening>, friRoots: seq<Words>, fri: seq<TreeOpening>,
                         finalPol: Words, nonce: nat)

  function Blocks(os: seq<TreeOpening>): seq<Words> {
    seq(|os|, (i: nat) requires i < |os| => Block(os[i]))
  }

  /** Everything behind the value sections. */
  function Tail(p: Proof): Words {
    Flatten(p.roots) + p.evals + Block(p.const_) + Flatten(Blocks(p.customs)) + Flatten(Blocks(p.stages))
    + Flatten(p.friRoots) + Flatten(Blocks(p.fri)) + p.finalPol + [p.nonce]
  }

  /** `_tree_block` */
  function TreeParts(o: TreeOpening): (parts: seq<Words>)
    ensures Flatten(parts) == Block(o)
  {
    var parts := [Flatten(o.rows), Flatten(o.paths), o.lastLevel];
    FlattenThree(parts);
    parts
  }

  method ExtendBlocks(parts: seq<Words>, os: seq<TreeOpening>) returns (r: seq<Words>)
    ensures Flatten(r) == Flatten(parts) + Flatten(Blocks(os))
  {
    r := parts;
    for i := 0 to |os|
      invariant Flatten(r) == Flatten(parts) + Flatten(Blocks(os)[..i])
    {
      FlattenNext(Blocks(os), i);
      FlattenAppend(r, TreeParts(os[i]));
      r := r + TreeParts(os[i]);
    }
    assert Blocks(os)[..|os|] == Blocks(os);
  }

  /** `serialize_proof`: the parts in wire order, or the assertion's failure. */
  method Serialize(s: Shape, p: Proof) returns (r: Result<Words>)
    ensures r == Serialized(s, p)
  {
    var agv := Values3(p.airgroupValues, s.airgroup);
    var av := Values3(p.airValues, s.airvalues);
    if agv.Err? || av.Err? {
      return Err;
    }
    var parts := [agv.value, av.value] + p.roots + ([p.evals] + TreeParts(p.const_));
    HeadParts(agv.value, av.value, p);
    parts := ExtendBlocks(parts, p.customs);
    parts := ExtendBlocks(parts, p.stages);
    FlattenAppend(parts, p.friRoots);
    parts := parts + p.friRoots;
    parts := ExtendBlocks(parts, p.fri);
    FlattenTwo(p.finalPol, [p.nonce]);
    FlattenAppend(parts, [p.finalPol, [p.nonce]]);
    parts := parts + [p.finalPol, [p.nonce]];
    Regroup(agv.value + av.value, Flatten(p.roots), p.evals, Block(p.const_), Flatten(Blocks(p.customs)),
            Flatten(Blocks(p.stages)), Flatten(p.friRoots), Flatten(Blocks(p.fri)), p.finalPol, [p.nonce]);
    return Ok(Flatten(parts));
  }

  lemma Assoc(u: Words, v: Words, w: Words)
    ensures (u + v) + w == u + (v + w)
  {
  }

  lemma Regroup(h: Words, a: Words, b: Words, c: Words, d: Words, e: Words, f: Words, g: Words, x: Words, y: Words)
    ensures h + a + b + c + d + e + f + g + (x + y) == h + (a + b + c + d + e + f + g + x + y)
  {
    Assoc(h, a, b);
    Assoc(h, a + b, c);
    Assoc(h, a + b + c, d);
    Assoc(h, a + b + c + d, e);
    Assoc(h, a + b + c + d + e, f);
    Assoc(h, a + b + c + d + e + f, g);
    Assoc(h, a + b + c + d + e + f + g, x + y);
    Assoc(a + b + c + d + e + f + g, x, y);
  }

  lemma FlattenTwo(a: Words, b: Words)
    ensures Flatten([a, b]) == a + b
  {
    assert [a, b][..1] == [a] && [a][..0] == [];
    assert Flatten([a]) == Flatten([]) + a == a;
  }

  lemma HeadParts(agv: Words, av: Words, p: Proof)
    ensures Flatten([agv, av] + p.roots + ([p.evals] + TreeParts(p.const_)))
         == agv + av + Flatten(p.roots) + p.evals + Block(p.const_)
  {
    FlattenTwo(agv, av);
    FlattenAppend([agv, av], p.roots);
    FlattenAppend([agv, av] + p.roots, [p.evals] + TreeParts(p.const_));
    FlattenAppend([p.evals], TreeParts(p.const_));
    assert [p.evals][..0] == [];
    assert Flatten([p.evals]) == Flatten([]) + p.evals == p.evals;
  }

  lemma FlattenNext(parts: seq<Words>, i: nat)
    requires i < |parts|
    ensures Flatten(parts[..i + 1]) == Flatten(parts[..i]) + parts[i]
  {
    assert parts[..i + 1][..i] == parts[..i];
  }

  function Serialized(s: Shape, p: Proof): Result<Words> {
    if |p.airgroupValues| == PackedWidth(s.airgroup) && |p.airValues| == PackedWidth(s.airvalues)
    then Ok(Triples(p.airgroupValues, s.airgroup) + Triples(p.airValues, s.airvalues) + Tail(p))
    else Err
  }

  /** The value sections are as long as their maps, and the rest fits. */
  ghost predicate Matches(s: Shape, p: Proof)
    requires ValidShape(s)
  {
    |p.airgroupValues| == PackedWidth(s.airgroup) && |p.airValues| == PackedWidth(s.airvalues) && TailFits(s, p)
  }

  /** Everything behind the value sections has the size the shape gives it. */
  ghost predicate TailFits(s: Shape, p: Proof)
    requires ValidShape(s)
  {
    HostFits(s, p) && TreesFit(s, p) && CustomsFit(s, p) && RoundsFit(s, p)
  }

  ghost predicate HostFits(s: Shape, p: Proof)
    requires ValidShape(s)
  {
    && |p.roots| == 3 && |p.roots[0]| == DIGEST && |p.roots[1]| == DIGEST && |p.roots[2]| == DIGEST
    && |p.evals| == 3 * s.evMap
    && |p.friRoots| == |s.steps| - 1
    && (forall i: nat {:trigger p.friRoots[i]} | i < |p.friRoots| :: |p.friRoots[i]| == DIGEST)
    && |p.finalPol| == Pow2(s.steps[|s.steps| - 1]) * 3
  }

  ghost predicate TreesFit(s: Shape, p: Proof)
    requires ValidShape(s)
  {
    && Fits(p.const_, s.nQueries, s.nConstants, s.steps[0], s.llv)
    && |p.stages| == 3
    && Fits(p.stages[0], s.nQueries, s.cm1, s.steps[0], s.llv)
    && Fits(p.stages[1], s.nQueries, s.cm2, s.steps[0], s.llv)
    && Fits(p.stages[2], s.nQueries, s.qsec, s.steps[0], s.llv)
  }

  ghost predicate CustomsFit(s: Shape, p: Proof)
    requires ValidShape(s)
  {
    && |p.customs| == |s.customs|
    && (forall i: nat {:trigger p.customs[i]} | i < |s.customs| :: Fits(p.customs[i], s.nQueries, s.customs[i], s.steps[0], s.llv))
  }

  ghost predicate RoundsFit(s: Shape, p: Proof)
    requires ValidShape(s)
  {
    && |p.fri| == |s.steps| - 1
    && (forall i: nat {:trigger p.fri[i]} | i < |p.fri| :: RoundFits(s, p.fri[i], i))
  }

  ghost predicate RoundFits(s: Shape, o: TreeOpening, i: nat)
    requires ValidShape(s) && i + 1 < |s.steps|
  {
    Fits(o, s.nQueries, Pow2(s.steps[i] - s.steps[i + 1]) * 3, s.steps[i + 1], s.llv)
  }

  function CustomWords(s: Shape, n: nat): nat
    requires ValidShape(s) && n <= |s.customs|
  {
    if n == 0 then 0 else CustomWords(s, n - 1) + TreeWords(s.nQueries, s.customs[n - 1], s.steps[0], s.llv)
  }

  function FriWords(s: Shape, n: nat): nat
    requires ValidShape(s) && n < |s.steps|
  {
    if n == 0 then 0
    else FriWords(s, n - 1) + TreeWords(s.nQueries, Pow2(s.steps[n - 1] - s.steps[n]) * 3, s.steps[n], s.llv)
  }

  function HeadWords(s: Shape): nat { 3 * |s.airgroup| + 3 * |s.airvalues| }

  function StageWords(s: Shape): nat
    requires ValidShape(s)
  {
    TreeWords(s.nQueries, s.cm1, s.steps[0], s.llv) + TreeWords(s.nQueries, s.cm2, s.steps[0], s.llv)
    + TreeWords(s.nQueries, s.qsec, s.steps[0], s.llv)
  }

  function LayoutWords(s: Shape): nat
    requires ValidShape(s)
  {
    HeadWords(s) + 3 * DIGEST + 3 * s.evMap + TreeWords(s.nQueries, s.nConstants, s.steps[0], s.llv)
    + CustomWords(s, |s.customs|) + StageWords(s) + (|s.steps| - 1) * DIGEST + FriWords(s, |s.steps| - 1)
    + Pow2(s.steps[|s.steps| - 1]) * 3 + 1
  }

  /** `tree_block(width, n_bits)`, as the bridge groups the products. */
  function TreeBlock(nQueries: nat, width: nat, nBits: nat, llv: nat): (n: nat)
    requires llv <= Levels(nBits)
    ensures n == TreeWords(nQueries, width, nBits, llv)
  {
    var sib := (Levels(nBits) - llv) * PER_LEVEL;
    assert nQueries * (width + sib) == nQueries * width + nQueries * sib;
    nQueries * (width + sib) + LastLevelWords(llv)
  }

  method AddCustoms(s: Shape, base: nat) returns (n: nat)
    requires ValidShape(s)
    ensures n == base + CustomWords(s, |s.customs|)
  {
    n := base;
    for i := 0 to |s.customs|
      invariant n == base + CustomWords(s, i)
    {
      n := n + TreeBlock(s.nQueries, s.customs[i], s.steps[0], s.llv);
    }
  }

  method AddRounds(s: Shape, base: nat) returns (n: nat)
    requires ValidShape(s)
    ensures n == base + FriWords(s, |s.steps| - 1)
  {
    n := base;
    for i := 0 to |s.steps| - 1
      invariant n == base + FriWords(s, i)
    {
      n := n + TreeBlock(s.nQueries, Pow2(s.steps[i] - s.steps[i + 1]) * 3, s.steps[i + 1], s.llv);
    }
  }

  /** `proof_words_of`, counted the bridge's way. */
  method ProofWordsOf(s: Shape) returns (n: nat)
    requires ValidShape(s)
    ensures n == LayoutWords(s)
  {
    n := |s.airgroup| * 3;
    n := n + |s.airvalues| * 3;
    n := n + 3 * DIGEST;
    n := n + s.evMap * 3;
    n := n + TreeBlock(s.nQueries, s.nConstants, s.steps[0], s.llv);
    n := AddCustoms(s, n);
    n := n + TreeBlock(s.nQueries, s.cm1, s.steps[0], s.llv);
    n := n + TreeBlock(s.nQueries, s.cm2, s.steps[0], s.llv);
    n := n + TreeBlock(s.nQueries, s.qsec, s.steps[0], s.llv);
    var rounds := |s.steps| - 1;
    n := n + rounds * DIGEST;
    n := AddRounds(s, n);
    n := n + Pow2(s.steps[rounds]) * 3;
    n := n + 1;
  }

  // ------------------------------------------------------------------------ parsing

  /** A slice that stops at the buffer's end. */
  function Slice(buf: Words, a: nat, b: nat): Words {
    if a <= b <= |buf| then buf[a..b] else if a <= |buf| && a <= b then buf[a..] else []
  }

  datatype Parsed = Parsed(airgroupValues: Words, roots: seq<Words>, evals: Words, consumed: nat)

  method SkipCustoms(s: Shape, p: nat) returns (q: nat)
    requires ValidShape(s)
    ensures q == p + CustomWords(s, |s.customs|)
  {
    q := p;
    for i := 0 to |s.customs|
      invariant q == p + CustomWords(s, i)
    {
      q := q + TreeWords(s.nQueries, s.customs[i], s.steps[0], s.llv);
    }
  }

  lemma NextRound(s: Shape, i: nat, width: nat)
    requires ValidShape(s) && 1 <= i < |s.steps| && width == 3 * Pow2(s.steps[i - 1] - s.steps[i])
    ensures FriWords(s, i) == FriWords(s, i - 1) + TreeWords(s.nQueries, width, s.steps[i], s.llv)
  {
    hide TreeWords, Pow2;
    assert width == Pow2(s.steps[i - 1] - s.steps[i]) * 3;
  }

  method SkipRounds(s: Shape, p: nat) returns (q: nat)
    requires ValidShape(s)
    ensures q == p + FriWords(s, |s.steps| - 1)
  {
    hide TreeWords, Pow2;
    q := p;
    for i := 1 to |s.steps|
      invariant q == p + FriWords(s, i - 1)
    {
      var width := 3 * Pow2(s.steps[i - 1] - s.steps[i]);
      q := q + TreeWords(s.nQueries, width, s.steps[i], s.llv);
      NextRound(s, i, width);
    }
  }

  function RootSlices(buf: Words, p: nat): seq<Words> {
    [Slice(buf, p, p + DIGEST), Slice(buf, p + DIGEST, p + 2 * DIGEST), Slice(buf, p + 2 * DIGEST, p + 3 * DIGEST)]
  }

  /** `parse_proof`: the cursor over the sections, keeping the three it returns. */
  method ParseProof(s: Shape, buf: Words) returns (out: Parsed)
    requires ValidShape(s)
    ensures out.consumed == LayoutWords(s)
    ensures out.airgroupValues == Slice(buf, 0, 3 * |s.airgroup|)
    ensures out.roots == RootSlices(buf, HeadWords(s))
    ensures out.evals == Slice(buf, HeadWords(s) + 3 * DIGEST, HeadWords(s) + 3 * DIGEST + 3 * s.evMap)
  {
    var p := 0;
    var airgroupValues := Slice(buf, p, p + 3 * |s.airgroup|);
    p := p + 3 * |s.airgroup|;
    p := p + 3 * |s.airvalues|;
    var roots := RootSlices(buf, p);
    p := p + 3 * DIGEST;
    var evals := Slice(buf, p, p + 3 * s.evMap);
    p := p + 3 * s.evMap;
    p := p + TreeWords(s.nQueries, s.nConstants, s.steps[0], s.llv);
    p := SkipCustoms(s, p);
    p := p + TreeWords(s.nQueries, s.cm1, s.steps[0], s.llv);
    p := p + TreeWords(s.nQueries, s.cm2, s.steps[0], s.llv);
    p := p + TreeWords(s.nQueries, s.qsec, s.steps[0], s.llv);
    p := p + (|s.steps| - 1) * DIGEST;
    p := SkipRounds(s, p);
    p := p + 3 * Pow2(s.steps[|s.steps| - 1]);
    p := p + 1;
    out := Parsed(airgroupValues, roots, evals, p);
  }

  // ---------------------------------------------------------------------- one layout

  lemma {:induction false} CustomBlocks(s: Shape, p: Proof, n: nat)
    requires ValidShape(s) && TailFits(s, p) && n <= |s.customs|
    ensures |Flatten(Blocks(p.customs)[..n])| == CustomWords(s, n)
  {
    if n > 0 {
      CustomBlocks(s, p, n - 1);
      FlattenNext(Blocks(p.customs), n - 1);
      BlockLength(p.customs[n - 1], s.nQueries, s.customs[n - 1], s.steps[0], s.llv);
    }
  }

  lemma {:induction false} FriBlocks(s: Shape, p: Proof, n: nat)
    requires ValidShape(s) && TailFits(s, p) && n < |s.steps|
    ensures |Flatten(Blocks(p.fri)[..n])| == FriWords(s, n)
  {
    if n > 0 {
      FriBlocks(s, p, n - 1);
      FlattenNext(Blocks(p.fri), n - 1);
      assert RoundFits(s, p.fri[n - 1], n - 1);
      BlockLength(p.fri[n - 1], s.nQueries, Pow2(s.steps[n - 1] - s.steps[n]) * 3, s.steps[n], s.llv);
    }
  }

  lemma FlattenThree(parts: seq<Words>)
    requires |parts| == 3
    ensures Flatten(parts) == parts[0] + parts[1] + parts[2]
  {
    FlattenNext(parts, 0);
    FlattenNext(parts, 1);
    FlattenNext(parts, 2);
    assert parts[..3] == parts && parts[..0] == [];
    assert Flatten(parts[..0]) == [];
    assert [] + parts[0] == parts[0];
  }

  lemma StageBlocks(s: Shape, p: Proof)
    requires ValidShape(s) && TailFits(s, p)
    ensures |Flatten(Blocks(p.stages))| == StageWords(s)
  {
    FlattenThree(Blocks(p.stages));
    BlockLength(p.stages[0], s.nQueries, s.cm1, s.steps[0], s.llv);
    BlockLength(p.stages[1], s.nQueries, s.cm2, s.steps[0], s.llv);
    BlockLength(p.stages[2], s.nQueries, s.qsec, s.steps[0], s.llv);
  }

  /** Behind the value sections, what is written is as long as the layout says. */
  lemma TailLength(s: Shape, p: Proof)
    requires ValidShape(s) && TailFits(s, p)
    ensures HeadWords(s) + |Tail(p)| == LayoutWords(s)
  {
    FlattenLength(p.friRoots, DIGEST);
    FlattenThree(p.roots);
    BlockLength(p.const_, s.nQueries, s.nConstants, s.steps[0], s.llv);
    CustomBlocks(s, p, |s.customs|);
    StageBlocks(s, p);
    FriBlocks(s, p, |s.steps| - 1);
    assert Blocks(p.customs)[..|s.customs|] == Blocks(p.customs);
    assert Blocks(p.fri)[..|s.steps| - 1] == Blocks(p.fri);
  }

  /** What the writer writes is as long as the bridge's count, which is what the
      parser consumes. */
  lemma SerializedLength(s: Shape, p: Proof)
    requires ValidShape(s) && Matches(s, p)
    ensures Serialized(s, p).Ok? && |Serialized(s, p).value| == LayoutWords(s)
  {
    TailLength(s, p);
  }

  lemma SliceAt(pre: Words, mid: Words, post: Words)
    ensures Slice(pre + mid + post, |pre|, |pre| + |mid|) == mid
  {
  }

  lemma SliceShift(head: Words, x: Words, a: nat, b: nat)
    requires a <= b <= |x|
    ensures Slice(head + x, |head| + a, |head| + b) == Slice(x, a, b)
  {
    assert (head + x)[|head| + a..|head| + b] == x[a..b];
  }

  lemma FrontSlices(a: Words, b: Words, c: Words, d: Words, rest: Words)
    requires |a| == |b| == |c| == DIGEST
    ensures var x := a + b + c + d + rest;
            && Slice(x, 0, DIGEST) == a && Slice(x, DIGEST, 2 * DIGEST) == b && Slice(x, 2 * DIGEST, 3 * DIGEST) == c
            && Slice(x, 3 * DIGEST, 3 * DIGEST + |d|) == d
  {
    SliceAt([], a, b + c + d + rest);
    assert a + b + c + d + rest == [] + a + (b + c + d + rest);
    SliceAt(a, b, c + d + rest);
    assert a + b + c + d + rest == a + b + (c + d + rest);
    SliceAt(a + b, c, d + rest);
    assert a + b + c + d + rest == a + b + c + (d + rest);
    SliceAt(a + b + c, d, rest);
  }

  lemma FourSlices(head: Words, a: Words, b: Words, c: Words, d: Words, rest: Words, h: nat)
    requires |a| == |b| == |c| == DIGEST && h == |head|
    ensures var w := head + (a + b + c + d + rest);
            RootSlices(w, h) == [a, b, c] && Slice(w, h + 3 * DIGEST, h + 3 * DIGEST + |d|) == d
  {
    var x := a + b + c + d + rest;
    FrontSlices(a, b, c, d, rest);
    SliceShift(head, x, 0, DIGEST);
    SliceShift(head, x, DIGEST, 2 * DIGEST);
    SliceShift(head, x, 2 * DIGEST, 3 * DIGEST);
    SliceShift(head, x, 3 * DIGEST, 3 * DIGEST + |d|);
  }

  lemma FirstSlice(a: Words, b: Words, tail: Words, n: nat)
    requires n == |a|
    ensures Slice(a + b + tail, 0, n) == a
  {
    SliceAt([], a, b + tail);
    assert a + b + tail == [] + a + (b + tail);
  }

  /** The parser's sections of a written proof are the ones written. */
  lemma ParsesBack(s: Shape, p: Proof)
    requires ValidShape(s) && Matches(s, p) && Serialized(s, p).Ok?
    ensures Slice(Serialized(s, p).value, 0, 3 * |s.airgroup|) == Triples(p.airgroupValues, s.airgroup)
    ensures RootSlices(Serialized(s, p).value, HeadWords(s)) == p.roots
    ensures Slice(Serialized(s, p).value, HeadWords(s) + 3 * DIGEST, HeadWords(s) + 3 * DIGEST + 3 * s.evMap) == p.evals
  {
    var agv, av := Triples(p.airgroupValues, s.airgroup), Triples(p.airValues, s.airvalues);
    FirstSlice(agv, av, Tail(p), 3 * |s.airgroup|);
    RootsAndEvals(agv + av, p, HeadWords(s));
    assert p.roots == [p.roots[0], p.roots[1], p.roots[2]];
  }

  lemma RootsAndEvals(head: Words, p: Proof, h: nat)
    requires |p.roots| == 3 && |p.roots[0]| == |p.roots[1]| == |p.roots[2]| == DIGEST && h == |head|
    ensures RootSlices(head + Tail(p), h) == [p.roots[0], p.roots[1], p.roots[2]]
    ensures Slice(head + Tail(p), h + 3 * DIGEST, h + 3 * DIGEST + |p.evals|) == p.evals
  {
    TailFront(p);
    FourSlices(head, p.roots[0], p.roots[1], p.roots[2], p.evals, Tail(p)[3 * DIGEST + |p.evals|..], h);
  }

  lemma TailFront(p: Proof)
    requires |p.roots| == 3 && |p.roots[0]| == |p.roots[1]| == |p.roots[2]| == DIGEST
    ensures |Tail(p)| >= 3 * DIGEST + |p.evals|
    ensures Tail(p) == p.roots[0] + p.roots[1] + p.roots[2] + p.evals + Tail(p)[3 * DIGEST + |p.evals|..]
  {
    FlattenThree(p.roots);
    assert Tail(p)[..3 * DIGEST + |p.evals|] == Flatten(p.roots) + p.evals;
  }

  // ------------------------------------------------------------- where each section is

  /** Part `k` of a concatenation, found by the length of the parts before it. */
  lemma FlattenSlice(parts: seq<Words>, k: nat, a: nat, b: nat)
    requires k < |parts| && a <= b <= |parts[k]|
    ensures |Flatten(parts[..k])| + |parts[k]| == |Flatten(parts[..k + 1])| <= |Flatten(parts)|
    ensures Slice(Flatten(parts), |Flatten(parts[..k])| + a, |Flatten(parts[..k])| + b) == Slice(parts[k], a, b)
  {
    var pre, mid, post := Flatten(parts[..k]), parts[k], Flatten(parts[k + 1..]);
    FlattenNext(parts, k);
    FlattenAppend(parts[..k + 1], parts[k + 1..]);
    assert parts[..k + 1] + parts[k + 1..] == parts;
    assert Flatten(parts) == pre + (mid + post);
    SliceShift(pre, mid + post, a, b);
    assert (mid + post)[a..b] == mid[a..b];
  }

  /** The sections behind the value sections, in wire order. */
  function TailSections(p: Proof): (parts: seq<Words>)
    ensures |parts| == 9
  {
    [Flatten(p.roots), p.evals, Block(p.const_), Flatten(Blocks(p.customs)), Flatten(Blocks(p.stages)), Flatten(p.friRoots),
     Flatten(Blocks(p.fri)), p.finalPol, [p.nonce]]
  }

  lemma TailIsSections(p: Proof)
    ensures Tail(p) == Flatten(TailSections(p))
  {
    hide Flatten, Block, Blocks;
    var parts := TailSections(p);
    FlattenNone();
    assert parts[..0] == [] && parts[..9] == parts;
    FlattenNext(parts, 0);
    FlattenNext(parts, 1);
    FlattenNext(parts, 2);
    FlattenNext(parts, 3);
    FlattenNext(parts, 4);
    FlattenNext(parts, 5);
    FlattenNext(parts, 6);
    FlattenNext(parts, 7);
    FlattenNext(parts, 8);
    assert [] + parts[0] == parts[0];
  }

  lemma FlattenNone()
    ensures Flatten([]) == []
  {
  }

  /** Where section `k` starts, as the manifest's sizes give it. */
  function SectionStart(s: Shape, k: nat): nat
    requires ValidShape(s) && k < 9
  {
    if k == 0 then HeadWords(s)
    else SectionStart(s, k - 1) + SectionWords(s, k - 1)
  }

  function SectionWords(s: Shape, k: nat): nat
    requires ValidShape(s) && k < 9
  {
    match k
    case 0 => 3 * DIGEST
    case 1 => 3 * s.evMap
    case 2 => TreeWords(s.nQueries, s.nConstants, s.steps[0], s.llv)
    case 3 => CustomWords(s, |s.customs|)
    case 4 => StageWords(s)
    case 5 => (|s.steps| - 1) * DIGEST
    case 6 => FriWords(s, |s.steps| - 1)
    case 7 => Pow2(s.steps[|s.steps| - 1]) * 3
    case _ => 1
  }

  lemma SectionLengths(s: Shape, p: Proof, k: nat)
    requires ValidShape(s) && TailFits(s, p) && k < 9
    ensures |TailSections(p)[k]| == SectionWords(s, k)
  {
    hide TreeWords, Pow2, Fits, Block;
    if k == 0 { FlattenThree(p.roots); }
    else if k == 2 { BlockLength(p.const_, s.nQueries, s.nConstants, s.steps[0], s.llv); }
    else if k == 3 {
      CustomBlocks(s, p, |s.customs|);
      assert Blocks(p.customs)[..|s.customs|] == Blocks(p.customs);
    }
    else if k == 4 { StageBlocks(s, p); }
    else if k == 5 { FlattenLength(p.friRoots, DIGEST); }
    else if k == 6 {
      FriBlocks(s, p, |s.steps| - 1);
      assert Blocks(p.fri)[..|s.steps| - 1] == Blocks(p.fri);
    }
  }

  lemma {:induction false} SectionStarts(s: Shape, p: Proof, k: nat)
    requires ValidShape(s) && TailFits(s, p) && k < 9
    ensures HeadWords(s) + |Flatten(TailSections(p)[..k])| == SectionStart(s, k)
  {
    hide SectionWords, TailFits, HeadWords, TailSections;
    if k == 0 {
      FlattenNone();
      assert TailSections(p)[..0] == [];
    } else {
      SectionStarts(s, p, k - 1);
      SectionLengths(s, p, k - 1);
      FlattenNext(TailSections(p), k - 1);
    }
  }

  /** A written proof's section `k`, read at the place the sizes give. */
  lemma SectionAt(s: Shape, p: Proof, k: nat, a: nat, b: nat)
    requires ValidShape(s) && Matches(s, p) && Serialized(s, p).Ok? && k < 9 && a <= b <= |TailSections(p)[k]|
    ensures Slice(Serialized(s, p).value, SectionStart(s, k) + a, SectionStart(s, k) + b) == Slice(TailSections(p)[k], a, b)
  {
    hide TailSections, Slice, SectionStart, Tail, TailFits, Flatten;
    var head := Triples(p.airgroupValues, s.airgroup) + Triples(p.airValues, s.airvalues);
    TailIsSections(p);
    SectionStarts(s, p, k);
    FlattenSlice(TailSections(p), k, a, b);
    SliceShift(head, Tail(p), |Flatten(TailSections(p)[..k])| + a, |Flatten(TailSections(p)[..k])| + b);
  }

  /** Where the sections start, by the sizes alone; the last word ends the layout. */
  lemma StartsAre(s: Shape)
    requires ValidShape(s)
    ensures SectionStart(s, 2) == 3 * |s.airgroup| + 3 * |s.airvalues| + 3 * DIGEST + 3 * s.evMap
    ensures SectionStart(s, 3) == SectionStart(s, 2) + TreeWords(s.nQueries, s.nConstants, s.steps[0], s.llv)
    ensures SectionStart(s, 4) == SectionStart(s, 3) + CustomWords(s, |s.customs|)
    ensures SectionStart(s, 5) == SectionStart(s, 4) + TreeWords(s.nQueries, s.cm1, s.steps[0], s.llv)
                                  + TreeWords(s.nQueries, s.cm2, s.steps[0], s.llv) + TreeWords(s.nQueries, s.qsec, s.steps[0], s.llv)
    ensures SectionStart(s, 6) == SectionStart(s, 5) + (|s.steps| - 1) * DIGEST
    ensures SectionStart(s, 7) == SectionStart(s, 6) + FriWords(s, |s.steps| - 1)
    ensures SectionStart(s, 8) == SectionStart(s, 7) + Pow2(s.steps[|s.steps| - 1]) * 3
    ensures SectionStart(s, 8) + 1 == LayoutWords(s)
  {
    hide TreeWords, CustomWords, FriWords, Pow2;
    assert SectionStart(s, 1) == SectionStart(s, 0) + 3 * DIGEST;
    assert SectionStart(s, 2) == SectionStart(s, 1) + 3 * s.evMap;
  }

  /** The constants' block behind the evaluations. */
  lemma ConstWhere(s: Shape, p: Proof)
    requires ValidShape(s) && Matches(s, p) && Serialized(s, p).Ok?
    ensures Slice(Serialized(s, p).value, SectionStart(s, 2), SectionStart(s, 2) + TreeWords(s.nQueries, s.nConstants, s.steps[0], s.llv))
         == Block(p.const_)
  {
    hide TreeWords, Tail, Slice, Block, Flatten, SectionStart, Serialized;
    BlockLength(p.const_, s.nQueries, s.nConstants, s.steps[0], s.llv);
    SectionAt(s, p, 2, 0, |Block(p.const_)|);
    WholeSlice(Block(p.const_));
  }

  /** Each custom's block behind it, in map order. */
  lemma CustomsWhere(s: Shape, p: Proof)
    requires ValidShape(s) && Matches(s, p) && Serialized(s, p).Ok?
    ensures forall i: nat {:trigger p.customs[i]} | i < |p.customs| ::
              i < |s.customs| && Slice(Serialized(s, p).value, SectionStart(s, 3) + CustomWords(s, i), SectionStart(s, 3) + CustomWords(s, i + 1))
                                 == Block(p.customs[i])
  {
    hide TreeWords, Tail, Slice, Block, Flatten, CustomWords, SectionStart, Serialized;
    forall i: nat {:trigger p.customs[i]} | i < |p.customs|
      ensures i < |s.customs|
      ensures Slice(Serialized(s, p).value, SectionStart(s, 3) + CustomWords(s, i), SectionStart(s, 3) + CustomWords(s, i + 1))
           == Block(p.customs[i])
    {
      CustomBlocks(s, p, i);
      CustomBlocks(s, p, i + 1);
      FlattenSlice(Blocks(p.customs), i, 0, |Block(p.customs[i])|);
      WholeSlice(Block(p.customs[i]));
      SectionAt(s, p, 3, CustomWords(s, i), CustomWords(s, i + 1));
    }
  }

  lemma WholeSlice(x: Words)
    ensures Slice(x, 0, |x|) == x
  {
  }

  /** Then the two stages' and the quotient's. */
  lemma StagesWhere(s: Shape, p: Proof)
    requires ValidShape(s) && Matches(s, p) && Serialized(s, p).Ok?
    ensures var w, u := Serialized(s, p).value, SectionStart(s, 4);
            var u1 := u + TreeWords(s.nQueries, s.cm1, s.steps[0], s.llv);
            var u2 := u1 + TreeWords(s.nQueries, s.cm2, s.steps[0], s.llv);
            && Slice(w, u, u1) == Block(p.stages[0]) && Slice(w, u1, u2) == Block(p.stages[1])
            && Slice(w, u2, u2 + TreeWords(s.nQueries, s.qsec, s.steps[0], s.llv)) == Block(p.stages[2])
  {
    hide TreeWords, Tail, Slice, Block, SectionStart;
    var blocks := Blocks(p.stages);
    BlockLength(p.stages[0], s.nQueries, s.cm1, s.steps[0], s.llv);
    BlockLength(p.stages[1], s.nQueries, s.cm2, s.steps[0], s.llv);
    BlockLength(p.stages[2], s.nQueries, s.qsec, s.steps[0], s.llv);
    var a, b, c := |blocks[0]|, |blocks[1]|, |blocks[2]|;
    FlattenNone();
    assert blocks[..0] == [];
    FlattenSlice(blocks, 0, 0, a);
    FlattenSlice(blocks, 1, 0, b);
    FlattenSlice(blocks, 2, 0, c);
    WholeSlice(blocks[0]);
    WholeSlice(blocks[1]);
    WholeSlice(blocks[2]);
    assert blocks[..3] == blocks;
    SectionAt(s, p, 4, 0, a);
    SectionAt(s, p, 4, a, a + b);
    SectionAt(s, p, 4, a + b, a + b + c);
  }

  /** FRI in a written proof: the roots behind the stages' trees, in round order. */
  lemma RootsWhere(s: Shape, p: Proof)
    requires ValidShape(s) && Matches(s, p) && Serialized(s, p).Ok?
    ensures forall i: nat {:trigger p.friRoots[i]} | i < |p.friRoots| ::
              Slice(Serialized(s, p).value, SectionStart(s, 5) + i * DIGEST, SectionStart(s, 5) + i * DIGEST + DIGEST) == p.friRoots[i]
  {
    hide Tail, Slice, Block, Flatten, SectionStart, Serialized;
    forall i: nat {:trigger p.friRoots[i]} | i < |p.friRoots|
      ensures Slice(Serialized(s, p).value, SectionStart(s, 5) + i * DIGEST, SectionStart(s, 5) + i * DIGEST + DIGEST) == p.friRoots[i]
    {
      FlattenLength(p.friRoots[..i], DIGEST);
      FlattenSlice(p.friRoots, i, 0, DIGEST);
      WholeSlice(p.friRoots[i]);
      FlattenLength(p.friRoots, DIGEST);
      SectionAt(s, p, 5, i * DIGEST, i * DIGEST + DIGEST);
    }
  }

  /** Each round's block behind the roots, in round order. */
  lemma FriWhere(s: Shape, p: Proof)
    requires ValidShape(s) && Matches(s, p) && Serialized(s, p).Ok?
    ensures forall i: nat {:trigger p.fri[i]} | i < |p.fri| ::
              i + 1 < |s.steps| && Slice(Serialized(s, p).value, SectionStart(s, 6) + FriWords(s, i), SectionStart(s, 6) + FriWords(s, i + 1))
                                   == Block(p.fri[i])
  {
    hide TreeWords, Tail, Slice, Block, Flatten, FriWords, SectionStart, Serialized;
    forall i: nat {:trigger p.fri[i]} | i < |p.fri|
      ensures i + 1 < |s.steps|
      ensures Slice(Serialized(s, p).value, SectionStart(s, 6) + FriWords(s, i), SectionStart(s, 6) + FriWords(s, i + 1)) == Block(p.fri[i])
    {
      FriBlocks(s, p, i);
      FriBlocks(s, p, i + 1);
      FlattenSlice(Blocks(p.fri), i, 0, |Block(p.fri[i])|);
      WholeSlice(Block(p.fri[i]));
      SectionAt(s, p, 6, FriWords(s, i), FriWords(s, i + 1));
    }
  }

  /** The final polynomial behind the rounds, and the nonce last. */
  lemma EndWhere(s: Shape, p: Proof)
    requires ValidShape(s) && Matches(s, p) && Serialized(s, p).Ok?
    ensures var w := Serialized(s, p).value;
            && |w| == SectionStart(s, 8) + 1 && Slice(w, SectionStart(s, 7), |w| - 1) == p.finalPol && w[|w| - 1] == p.nonce
  {
    hide TreeWords, Tail, Slice, Block, Flatten, CustomWords, FriWords, Pow2, SectionStart, Serialized, LayoutWords;
    StartsAre(s);
    SerializedLength(s, p);
    SectionAt(s, p, 7, 0, |p.finalPol|);
    WholeSlice(p.finalPol);
    SectionAt(s, p, 8, 0, 1);
    LastWord(Serialized(s, p).value, p.nonce);
  }

  lemma LastWord(w: Words, n: nat)
    requires |w| > 0 && Slice(w, |w| - 1, |w|) == Slice([n], 0, 1)
    ensures w[|w| - 1] == n
  {
    assert w[|w| - 1..|w|][0] == w[|w| - 1];
    assert [n][0..1][0] == n;
  }

  /** One tree's block: the queries' rows, then their paths, then the last level; `path` is
      the words of a path, `rowAt` and `pathAt` the places of query `q`'s two parts. */
  lemma BlockWhere(o: TreeOpening, nQueries: nat, width: nat, nBits: nat, llv: nat, q: nat,
                   path: nat, rowAt: nat, rows: nat, pathAt: nat, paths: nat)
    requires Fits(o, nQueries, width, nBits, llv) && q < nQueries && path == (Levels(nBits) - llv) * PER_LEVEL
    requires rowAt == q * width && rows == nQueries * width && pathAt == q * path && paths == nQueries * path
    ensures Slice(Block(o), rowAt, rowAt + width) == o.rows[q]
    ensures Slice(Block(o), rows + pathAt, rows + pathAt + path) == o.paths[q]
    ensures Slice(Block(o), rows + paths, |Block(o)|) == o.lastLevel
  {
    hide Slice, Flatten, Levels;
    FlattenLength(o.rows, width);
    FlattenLength(o.paths, path);
    FlattenLength(o.rows[..q], width);
    FlattenLength(o.paths[..q], path);
    FlattenSlice(o.rows, q, 0, width);
    FlattenSlice(o.paths, q, 0, path);
    WholeSlice(o.rows[q]);
    WholeSlice(o.paths[q]);
    BlockParts(Flatten(o.rows), Flatten(o.paths), o.lastLevel, rowAt, rowAt + width, pathAt, pathAt + path);
  }

  lemma BlockParts(rows: Words, paths: Words, last: Words, a: nat, b: nat, c: nat, d: nat)
    requires a <= b <= |rows| && c <= d <= |paths|
    ensures var w := rows + paths + last;
            && Slice(w, a, b) == Slice(rows, a, b) && Slice(w, |rows| + c, |rows| + d) == Slice(paths, c, d)
            && Slice(w, |rows| + |paths|, |w|) == last
  {
    var w := rows + paths + last;
    assert w[a..b] == rows[a..b];
    assert w[|rows| + c..|rows| + d] == paths[c..d];
    assert w[|rows| + |paths|..] == last;
  }
}
