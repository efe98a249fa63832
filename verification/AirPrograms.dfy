/** An exported AIR: its device programs with the inputs and outputs the manifest
    declares for each, programs being pure functions of their input buffers. */
module AirPrograms {

  type Words = seq<nat>

  datatype Option<+T> = None | Some(value: T)

  /** The committed trees: the key's, the two stages' and the quotient's, and FRI's layers. */
  datatype Tree = Const | Custom(id: nat) | Cm1 | Cm2 | QSec | Fri(round: nat)

  /** Buffer names.  Per tree: the base section, the extended section (or FRI leaves)
      the tree is built over, its digest layers, the layers as a setup program names
      them, and the root. */
  datatype Name =
    | Base(tree: Tree) | Matrix(tree: Tree) | Layer(tree: Tree, k: nat) | SetupLayer(tree: Tree, k: nat) | Root(tree: Tree)
    | Zi | Domain | Rows | RowsOf(k: nat)
    | Publics | AirValues | ProofValues | ChallengesName | AirgroupValue | AirgroupValues
    | Trace | Cm2Base
    | Q | QOf(k: nat) | Xi | LevName | Start | Evals | EvalsOf(k: nat) | Vf1 | Vf2 | FriPol | FriPolOf(k: nat)
    | Codeword | Beta | FinalPol | ChallengeName | Nonce | Positions | Openings(tree: Tree) | LastLevel(tree: Tree)

  datatype Program =
    | Constants | ConstSetup | CustomSetup(id: nat) | WitnessCalc | Commit1 | Logup | Commit2
    | Quotient | QuotientRows(size: nat) | QuotientCommit | Lev | EvalsRows(size: nat) | EvalsSum
    | DeepRows(size: nat) | DeepConcat | FriCommit(round: nat) | FriFold(round: nat) | FriFinal | Grind | Open(tree: Tree)

  datatype Challenge = Challenge(id: nat, name: string, stage: nat)

  /** The manifest's schedule facts.  Stages are 1 and 2, then the quotient's, the
      evaluations' and DEEP's boundaries. */
  datatype Air = Air(customs: seq<nat>, customWidths: nat -> nat, witnessCalc: bool, airgroupIndex: int,
                     quotientChunks: seq<nat>, evalsChunks: seq<nat>, deepChunks: seq<nat>,
                     depth: Tree -> nat, challenges: seq<Challenge>, airvalues: seq<nat>, airgroupvalues: seq<nat>,
                     nConstants: nat, cm1: nat, cm2: nat, qsec: nat, steps: seq<nat>, nQueries: nat, llv: nat,
                     evMap: nat, hashCommits: bool)

  const NSTAGES := 2

  /** A buffer's program: input buffers in declared order to output buffers in
      declared order. */
  datatype Machine = Machine(air: Air, exec: (Program, seq<Words>) -> seq<Words>)

  function Distinct<T(==)>(s: seq<T>): bool {
    forall i: nat, j: nat {:trigger s[i], s[j]} | i < j < |s| :: s[i] != s[j]
  }

  // ------------------------------------------------------- declared inputs, outputs

  function Each(ids: seq<nat>, f: nat -> Name): (r: seq<Name>)
    ensures |r| == |ids|
  {
    seq(|ids|, (i: nat) requires i < |ids| => f(ids[i]))
  }

  function UpTo(n: nat, f: nat -> Name): (r: seq<Name>)
    ensures |r| == n && forall k: nat {:trigger r[k]} | k < n :: r[k] == f(k)
  {
    seq(n, (k: nat) => f(k))
  }

  function QNames(n: nat): seq<Name> { UpTo(n, (k: nat) => QOf(k)) }

  function EvalsNames(n: nat): seq<Name> { UpTo(n, (k: nat) => EvalsOf(k)) }

  function FriPolNames(n: nat): seq<Name> { UpTo(n, (k: nat) => FriPolOf(k)) }

  function CustomBases(air: Air): seq<Name> { Each(air.customs, (ci: nat) => Base(Custom(ci))) }

  function CustomExts(air: Air): seq<Name> { Each(air.customs, (ci: nat) => Matrix(Custom(ci))) }

  function Layers(air: Air, t: Tree): seq<Name> { UpTo(air.depth(t), (k: nat) => Layer(t, k)) }

  function SetupLayers(air: Air, t: Tree): seq<Name> { UpTo(air.depth(t), (k: nat) => SetupLayer(t, k)) }

  /** The committed and fixed extended sections the openings read. */
  function Sections(air: Air): seq<Name> {
    [Matrix(Cm1), Matrix(Cm2), Matrix(QSec), Matrix(Const)] + CustomExts(air)
  }

  function QuotientInputs(air: Air): seq<Name> {
    [Matrix(Cm1), Matrix(Cm2), Matrix(Const)] + CustomExts(air)
    + [Publics, AirValues, ProofValues, ChallengesName, AirgroupValues, Zi]
  }

  function Inputs(air: Air, p: Program): seq<Name> {
    match p
    case Constants => []
    case ConstSetup => [Base(Const)]
    case CustomSetup(ci) => [Base(Custom(ci))]
    case WitnessCalc => [Trace, Base(Const)] + CustomBases(air) + [Publics, AirValues, ProofValues]
    case Commit1 => [Trace]
    case Logup => [Trace, Base(Const)] + CustomBases(air) + [Publics, AirValues, ProofValues, ChallengesName]
    case Commit2 => [Cm2Base]
    case Quotient => QuotientInputs(air)
    case QuotientRows(_) => QuotientInputs(air) + [Rows]
    case QuotientCommit => QNames(|air.quotientChunks|)
    case Lev => [Xi]
    case EvalsRows(_) => Sections(air) + [LevName, Start]
    case EvalsSum => EvalsNames(|air.evalsChunks|)
    case DeepRows(_) => Sections(air) + [Evals, Domain, Xi, Vf1, Vf2, Start]
    case DeepConcat => FriPolNames(|air.deepChunks|)
    case FriCommit(_) => [Codeword]
    case FriFold(_) => [Codeword, Beta]
    case FriFinal => [Codeword]
    case Grind => [ChallengeName]
    case Open(t) => [Matrix(t)] + Layers(air, t) + [Positions]
  }

  function Outputs(air: Air, p: Program): seq<Name> {
    match p
    case Constants => [Zi, Domain]
    case ConstSetup => [Root(Const), Matrix(Const)] + SetupLayers(air, Const)
    case CustomSetup(ci) => [Root(Custom(ci)), Matrix(Custom(ci))] + SetupLayers(air, Custom(ci))
    case WitnessCalc => [Trace]
    case Commit1 => [Root(Cm1), Matrix(Cm1)] + Layers(air, Cm1)
    case Logup => [Cm2Base] + (if air.airgroupIndex >= 0 then [AirgroupValue] else []) + [AirValues]
    case Commit2 => [Root(Cm2), Matrix(Cm2)] + Layers(air, Cm2)
    case Quotient => [Q]
    case QuotientRows(_) => [Q]
    case QuotientCommit => [Matrix(QSec), Root(QSec)] + Layers(air, QSec)
    case Lev => [LevName]
    case EvalsRows(_) => [Evals]
    case EvalsSum => [Evals]
    case DeepRows(_) => [FriPol]
    case DeepConcat => [FriPol]
    case FriCommit(i) => [Matrix(Fri(i)), Root(Fri(i))] + Layers(air, Fri(i))
    case FriFold(_) => [Codeword]
    case FriFinal => [FinalPol]
    case Grind => [Nonce]
    case Open(t) => [Openings(t), LastLevel(t)]
  }

  // ----------------------------------------------------------- buffers bound by name

  type Env = map<Name, Words>

  ghost predicate Bound(names: seq<Name>, env: Env) {
    forall i: nat {:trigger names[i]} | i < |names| :: names[i] in env
  }

  /** The argument list for these inputs. */
  ghost function Args(names: seq<Name>, env: Env): (args: seq<Words>)
    requires Bound(names, env)
    ensures |args| == |names|
  {
    seq(|names|, (i: nat) requires i < |names| => env[names[i]])
  }

  /** Names to values, a later entry replacing an earlier one. */
  function Zip(names: seq<Name>, vals: seq<Words>): (m: Env)
    requires |names| == |vals|
    ensures forall n: Name :: n in m <==> n in names
  {
    if names == [] then map[]
    else
      var k := |names| - 1;
      assert names == names[..k] + [names[k]];
      Zip(names[..k], vals[..k])[names[k] := vals[k]]
  }

  lemma {:induction false} ZipAt(names: seq<Name>, vals: seq<Words>, i: nat)
    requires |names| == |vals| && Distinct(names) && i < |names|
    ensures names[i] in Zip(names, vals) && Zip(names, vals)[names[i]] == vals[i]
    decreases |names|
  {
    var k := |names| - 1;
    if i < k {
      assert Distinct(names[..k]) by {
        forall a: nat, b: nat {:trigger names[..k][a], names[..k][b]} | a < b < k ensures names[..k][a] != names[..k][b] {
          assert names[a] != names[b];
        }
      }
      ZipAt(names[..k], vals[..k], i);
      assert names[i] != names[k];
    }
  }

  /** Everything `small` binds, `env` binds to the same buffer. */
  ghost predicate Sub(small: Env, env: Env) {
    forall n: Name {:trigger n in small} {:trigger small[n]} | n in small :: n in env && env[n] == small[n]
  }

  /** A program's arguments depend only on the names it declares. */
  lemma ArgsAgree(names: seq<Name>, kw: Env, env: Env)
    requires Bound(names, kw) && Sub(kw, env)
    ensures Bound(names, env) && Args(names, env) == Args(names, kw)
  {
    forall i: nat {:trigger names[i]} | i < |names| ensures names[i] in env && env[names[i]] == kw[names[i]] {
      assert names[i] in kw;
    }
  }

  /** Each program returns what it declares. */
  ghost predicate ValidMachine(m: Machine) {
    forall p: Program, args: seq<Words> {:trigger m.exec(p, args)} :: |m.exec(p, args)| == |Outputs(m.air, p)|
  }

  /** `Artifact.run`: keyword inputs, exactly the declared ones, to outputs by name. */
  ghost function Call(m: Machine, p: Program, kw: Env): (out: Env)
    requires ValidMachine(m) && Bound(Inputs(m.air, p), kw)
    ensures forall n: Name :: n in out <==> n in Outputs(m.air, p)
  {
    Zip(Outputs(m.air, p), m.exec(p, Args(Inputs(m.air, p), kw)))
  }

  /** No keyword is missing, and none is unknown. */
  ghost predicate ExactOn(names: seq<Name>, kw: Env) {
    Bound(names, kw) && forall n: Name :: n in kw ==> n in names
  }

  ghost predicate Exact(m: Machine, p: Program, kw: Env) { ExactOn(Inputs(m.air, p), kw) }

  lemma JoinExact(a: seq<Name>, b: seq<Name>, kwa: Env, kwb: Env)
    requires ExactOn(a, kwa) && ExactOn(b, kwb)
    ensures ExactOn(a + b, kwa + kwb)
  {
    var names := a + b;
    forall i: nat {:trigger names[i]} | i < |names| ensures names[i] in kwa + kwb {
      if i < |a| { assert names[i] == a[i]; } else { assert names[i] == b[i - |a|]; }
    }
  }

  lemma OutputsDistinct(air: Air, p: Program)
    ensures Distinct(Outputs(air, p))
  {
  }

  /** Output `i` of a run, by its name. */
  lemma OutputAt(m: Machine, p: Program, kw: Env, i: nat)
    requires ValidMachine(m) && Bound(Inputs(m.air, p), kw) && i < |Outputs(m.air, p)|
    ensures |m.exec(p, Args(Inputs(m.air, p), kw))| == |Outputs(m.air, p)|
    ensures Outputs(m.air, p)[i] in Call(m, p, kw)
    ensures Call(m, p, kw)[Outputs(m.air, p)[i]] == m.exec(p, Args(Inputs(m.air, p), kw))[i]
  {
    OutputsDistinct(m.air, p);
    ZipAt(Outputs(m.air, p), m.exec(p, Args(Inputs(m.air, p), kw)), i);
  }

  /** The parts a windowed stage collects, under their numbered names. */
  function Numbered(names: seq<Name>, parts: seq<Words>): (kw: Env)
    requires |names| == |parts|
    ensures ExactOn(names, kw)
  {
    assert forall i: nat {:trigger names[i]} | i < |names| :: names[i] in Zip(names, parts);
    Zip(names, parts)
  }

  lemma NumberedNext(names: seq<Name>, parts: seq<Words>, n: Name, v: Words)
    requires |names| == |parts|
    ensures Numbered(names + [n], parts + [v]) == Numbered(names, parts)[n := v]
  {
    assert (names + [n])[..|names|] == names && (parts + [v])[..|names|] == parts;
  }

  lemma NamesNext(k: nat)
    ensures QNames(k + 1) == QNames(k) + [QOf(k)]
    ensures EvalsNames(k + 1) == EvalsNames(k) + [EvalsOf(k)]
    ensures FriPolNames(k + 1) == FriPolNames(k) + [FriPolOf(k)]
  {
  }
}
