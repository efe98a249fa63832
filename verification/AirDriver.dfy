/** One AIR's driver: its artifact, and the key's fixed set while it is resident.
    A prove writes exactly the replay's words, keeping the fixed set or spending it. */
module AirDriver {
  import opened AirPrograms
  import opened Replay
  import opened Driver
  import opened DriverProve
  import Wire

  ghost predicate Exported(m: Machine) { ValidMachine(m) && SizedMachine(m) && ValidAir(m.air) && |m.air.steps| > 0 }

  /** No airgroup value of the first stage: each packs as three words. */
  predicate AllCubic(stages: seq<nat>) { forall i: nat {:trigger stages[i]} | i < |stages| :: stages[i] != 1 }

  /** The serializer's assertion on the airgroup section holds exactly when no value
      of it is a first-stage one; otherwise the replay stops where the driver writes. */
  lemma ReplayWords<S>(m: Machine, h: Host<S>, key: Key, inst: Instance)
    requires Exported(m)
    ensures ValidRun(m, RunOf(m, h, key, inst))
    ensures var r := RunOf(m, h, key, inst);
            Replay.Prove(m, h, key, inst)
            == if AllCubic(m.air.airgroupvalues) then Wire.Ok((DriverWords(m, key, r), Flatten(r.s.airgroup), r.s.airvalues)) else Wire.Err
    ensures var r := RunOf(m, h, key, inst);
            |DriverWords(m, key, r)| == Wire.LayoutWords(ShapeOf(m.air))
  {
    RunValid(m, h, key, inst);
    RunSized(m, h, key, inst);
    var r := RunOf(m, h, key, inst);
    RunFits(m, key, r);
    AirgroupRows(m, h, key, inst);
    Wire.PackedAtMost(m.air.airgroupvalues);
    Wire.TailLength(ShapeOf(m.air), WireProof(m, key, r));
  }

  lemma DriverLength<S>(m: Machine, h: Host<S>, key: Key, inst: Instance)
    requires Exported(m)
    ensures var r := RunOf(m, h, key, inst);
            ValidRun(m, r) && |DriverWords(m, key, r)| == Wire.LayoutWords(ShapeOf(m.air))
  {
    hide Exported, RunOf, ValidRun, DriverWords, Wire.LayoutWords, ShapeOf, Replay.Prove;
    ReplayWords(m, h, key, inst);
  }

  lemma AirgroupLength<S>(m: Machine, h: Host<S>, key: Key, inst: Instance)
    requires Exported(m)
    ensures |Flatten(RunOf(m, h, key, inst).s.airgroup)| == 3 * |m.air.airgroupvalues|
  {
    hide ValidMachine, SizedMachine, ValidAir, Stages, Divide, OpenAtXi, Composition, Fold, Close;
    AirgroupRows(m, h, key, inst);
  }

  lemma TriplesLead(words: Words, stages: seq<nat>, rest: Words)
    requires |words| == 3 * |stages| && AllCubic(stages)
    ensures Wire.Triples(words, stages) == words && (Wire.Triples(words, stages) + rest)[..|words|] == words
  {
    Wire.TriplesOfCubics(words, stages, |stages|);
    assert words[..|words|] == words;
  }

  /** Without a first-stage value the proof opens with the airgroup values as the prove
      hands them back. */
  lemma AirgroupGoesAsItIs<S>(m: Machine, h: Host<S>, key: Key, inst: Instance)
    requires Exported(m) && AllCubic(m.air.airgroupvalues)
    ensures var r, n := RunOf(m, h, key, inst), 3 * |m.air.airgroupvalues|;
            && ValidRun(m, r) && n <= |DriverWords(m, key, r)| && DriverWords(m, key, r)[..n] == Flatten(r.s.airgroup)
  {
    hide ValidMachine, SizedMachine, ValidAir, WireProof, Wire.Tail, Wire.Triples, RunOf, ValidRun, AllCubic;
    RunValid(m, h, key, inst);
    AirgroupLength(m, h, key, inst);
    var r := RunOf(m, h, key, inst);
    var rest := Wire.Triples(r.s.airvalues, m.air.airvalues) + Wire.Tail(WireProof(m, key, r));
    TriplesLead(Flatten(r.s.airgroup), m.air.airgroupvalues, rest);
    assert DriverWords(m, key, r) == Wire.Triples(Flatten(r.s.airgroup), m.air.airgroupvalues) + rest;
  }

  /** `proof` is the driver's words of the replay's run, and `values` what the prove hands
      back beside them. */
  ghost predicate IsProofOf<S>(m: Machine, h: Host<S>, key: Key, inst: Instance, proof: Words, values: (Words, Words))
    requires Exported(m)
  {
    var r := RunOf(m, h, key, inst);
    ValidRun(m, r) && proof == DriverWords(m, key, r) && values == (Flatten(r.s.airgroup), r.s.airvalues)
  }

  /** How many words a program's output `i` has. */
  function SizeOf(air: Air, p: Program, i: nat): nat {
    match p
    case Commit1 | Commit2 | FriCommit(_) => Wire.DIGEST
    case Logup => if i + 1 == |Outputs(air, p)| then Wire.PackedWidth(air.airvalues) else 3
    case QuotientCommit => Wire.DIGEST
    case EvalsSum => 3 * air.evMap
    case FriFinal => if |air.steps| > 0 then Wire.Pow2(air.steps[|air.steps| - 1]) * 3 else 0
    case Grind => 1
    case Open(t) => if i == 0 then Times(air.nQueries, RowWords(air, t)) else Wire.LastLevelWords(air.llv)
    case _ => 0
  }

  function ZeroOuts(air: Air, p: Program): (outs: seq<Words>)
    ensures |outs| == |Outputs(air, p)|
  {
    seq(|Outputs(air, p)|, (i: nat) requires i < |Outputs(air, p)| => Zeros(SizeOf(air, p, i)))
  }

  /** The AIR's programs, all of whose outputs are zero. */
  function ZeroMachine(air: Air): Machine {
    Machine(air, (p: Program, args: seq<Words>) => ZeroOuts(air, p))
  }

  lemma ZeroOutsSized(air: Air, p: Program)
    ensures Replay.Sized(air, p, ZeroOuts(air, p))
  {
  }

  /** Every schedule has programs of the declared sizes. */
  lemma ZeroMachineExported(air: Air)
    requires ValidAir(air)
    ensures Exported(ZeroMachine(air))
  {
    var m := ZeroMachine(air);
    forall p: Program, args: seq<Words> {:trigger m.exec(p, args)} ensures Replay.Sized(air, p, m.exec(p, args)) { ZeroOutsSized(air, p); }
  }

  /** A schedule whose one airgroup value is a first-stage one. */
  const FIRST_STAGE: Air :=
    Air([], (ci: nat) => 0, false, 0, [1], [1], [1], (t: Tree) => 0, [], [], [1], 1, 1, 1, 3, [1, 0], 1, 0, 1, false)

  /** The asserting case is real: on that schedule the replay's serializer stops, for every
      transcript, key and instance, where the driver writes a whole proof. */
  lemma FirstStageAsserts<S>(h: Host<S>, key: Key, inst: Instance)
    ensures var m := ZeroMachine(FIRST_STAGE);
            && Exported(m) && Replay.Prove(m, h, key, inst) == Wire.Err && ValidRun(m, RunOf(m, h, key, inst))
            && |DriverWords(m, key, RunOf(m, h, key, inst))| == Wire.LayoutWords(ShapeOf(m.air))
  {
    assert FIRST_STAGE.airgroupvalues[0] == 1;
    ZeroMachineExported(FIRST_STAGE);
    ReplayWords(ZeroMachine(FIRST_STAGE), h, key, inst);
  }

  class AirDriver {
    const artifact: Machine
    var fixed: Option<Env>

    constructor (artifact: Machine)
      ensures this.artifact == artifact && fixed == None
    {
      this.artifact := artifact;
      fixed := None;
    }

    /** The resident set, if any, is this key's. */
    ghost predicate Holds(key: Key)
      reads this
      requires Exported(artifact)
    {
      fixed.Some? ==> FixedSet(artifact, key, fixed.value)
    }

    method HasFixed() returns (b: bool)
      ensures b == fixed.Some?
    {
      b := fixed.Some?;
    }

    method DropFixed()
      modifies this`fixed
      ensures fixed == None
    {
      fixed := None;
    }

    method SetFixed(key: Key)
      requires Exported(artifact)
      modifies this`fixed
      ensures fixed.Some? && FixedSet(artifact, key, fixed.value)
    {
      var env := BuildFixed(artifact, key);
      fixed := Some(env);
    }

    /** Prove one instance into `proofOut`.  With a fixed set and room for the proof,
        the words are the run's, whether the set stays (`keep`) or goes with the prove. */
    method Prove<S>(h: Host<S>, ghost key: Key, inst: Instance, keep: bool, proofOut: array<nat>)
      returns (r: Wire.Result<(Words, Words)>)
      requires Exported(artifact) && Holds(key)
      modifies this`fixed, proofOut
      ensures fixed == if keep then old(fixed) else None
      ensures r.Ok? <==> old(fixed).Some? && proofOut.Length >= Wire.LayoutWords(ShapeOf(artifact.air))
      ensures r.Err? ==> proofOut[..] == old(proofOut[..])
      ensures r.Ok? ==>
        var n := Wire.LayoutWords(ShapeOf(artifact.air));
        IsProofOf(artifact, h, key, inst, proofOut[..n], r.value) && proofOut[n..] == old(proofOut[n..])
    {
      hide Exported, IsProofOf, FixedSet, Wire.LayoutWords, ShapeOf;
      var resident := fixed;
      fixed := None;
      if resident == None {
        return Wire.Err;
      }
      if keep {
        fixed := resident;
      }
      var proof, values := ProveWords(h, key, inst, keep, resident.value);
      if proofOut.Length < |proof| {
        return Wire.Err;
      }
      CopyOut(proof, proofOut);
      r := Wire.Ok(values);
    }

    method ProveWords<S>(h: Host<S>, ghost key: Key, inst: Instance, keep: bool, resident: Env) returns (proof: Words, values: (Words, Words))
      requires Exported(artifact) && FixedSet(artifact, key, resident)
      ensures IsProofOf(artifact, h, key, inst, proof, values) && |proof| == Wire.LayoutWords(ShapeOf(artifact.air))
    {
      var m := artifact;
      ghost var run := RunOf(m, h, key, inst);
      RunValid(m, h, key, inst);
      var env, host := RunStages(m, h, key, inst, resident, keep);
      var t, challenges, rootq;
      env, t, challenges, rootq := RunQuotient(m, h, key, inst, run.s, env, host);
      var evals;
      env, evals, t, challenges := RunEvals(m, h, key, run.s, run.d, env, t, challenges);
      var codeword;
      env, codeword := RunDeep(m, key, run.s, run.d, run.o, env, challenges);
      var layers, roots;
      layers, roots, codeword, t := RunFri(m, h, codeword, t, |m.air.steps| - 1);
      var closed := RunClose(m, h, Folded(layers, roots, codeword, t));
      var w := Drawn(Flatten(host.airgroup), host.airvalues, host.root2, rootq, evals, roots, layers, closed);
      HostReady(m, h, key, inst);
      proof := WriteProof(m, key, run, env, w, keep);
      DriverLength(m, h, key, inst);
      values := (w.airgroup, w.airvalues);
    }
  }

  /** A prove that kept its fixed set leaves the driver as good as a fresh one: the next
      prove writes what a fresh driver of the same key writes. */
  method NextProveIsFresh<S>(used: AirDriver, anew: AirDriver, h: Host<S>, key: Key, first: Instance, next: Instance, keep: bool,
                             scratch: array<nat>, out: array<nat>, want: array<nat>)
    requires used != anew && scratch != out && out != want && scratch != want
    requires Exported(used.artifact) && anew.artifact == used.artifact
    requires scratch.Length >= out.Length == want.Length == Wire.LayoutWords(ShapeOf(used.artifact.air))
    modifies used`fixed, anew`fixed, scratch, out, want
    ensures out[..] == want[..]
  {
    hide Exported, RunOf, ValidRun, DriverWords, Wire.LayoutWords, ShapeOf, FixedSet;
    ghost var n := out.Length;
    used.SetFixed(key);
    var r := used.Prove(h, key, first, true, scratch);
    r := used.Prove(h, key, next, keep, out);
    anew.SetFixed(key);
    r := anew.Prove(h, key, next, keep, want);
    assert out[..n] == out[..] && want[..n] == want[..];
  }

  lemma HostReady<S>(m: Machine, h: Host<S>, key: Key, inst: Instance)
    requires Exported(m)
    ensures var run := RunOf(m, h, key, inst);
            && |run.c.nonce| > 0 && Wire.PackedWidth(m.air.airgroupvalues) <= |Flatten(run.s.airgroup)|
            && Wire.PackedWidth(m.air.airvalues) <= |run.s.airvalues|
  {
    AirgroupRows(m, h, key, inst);
    Wire.PackedAtMost(m.air.airgroupvalues);
    FinalSized(m, h, RunOf(m, h, key, inst).f);
  }

  method CopyOut(proof: Words, out: array<nat>)
    requires |proof| <= out.Length
    modifies out
    ensures out[..] == proof + old(out[|proof|..])
  {
    for i := 0 to |proof|
      invariant out[..i] == proof[..i]
      invariant out[|proof|..] == old(out[|proof|..])
    {
      out[i] := proof[i];
    }
    assert proof[..|proof|] == proof && out[..] == out[..|proof|] + out[|proof|..];
  }
}
