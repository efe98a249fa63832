/** What a prove absorbs and squeezes, in order: the schedule on a host that keeps the list
    of events, each drawn element being a function of all that came before it. */
module Transcript {
  import opened AirPrograms
  import opened Replay
  import Wire

  datatype Event = Put(words: Words) | Field | Section(words: Words, hashed: bool)

  type Log = seq<Event>

  /** The host that records: `draw` is what a squeeze gives after a log. */
  function Recorder(draw: Log -> Words, positions: (Words, Words) -> Words): Host<Log> {
    Host([], (t: Log, w: Words) => t + [Put(w)], (t: Log) => (t + [Field], draw(t)),
         (t: Log, w: Words, hashed: bool) => t + [Section(w, hashed)], positions)
  }

  function Fields(n: nat): (log: Log)
    ensures |log| == n && forall i: nat {:trigger log[i]} | i < n :: log[i] == Field
  {
    seq(n, (i: nat) => Field)
  }

  // ------------------------------------------------------------ who belongs to a stage

  /** The places of `k` in `stages`, in order. */
  function Where(stages: seq<nat>, k: nat): (at: seq<nat>)
    ensures forall j: nat {:trigger at[j]} | j < |at| :: at[j] < |stages| && stages[at[j]] == k
    ensures forall i: nat, j: nat {:trigger at[i], at[j]} | i < j < |at| :: at[i] < at[j]
    ensures forall i: nat {:trigger stages[i]} | i < |stages| && stages[i] == k :: i in at
  {
    if stages == [] then []
    else
      var n := |stages| - 1;
      Where(stages[..n], k) + if stages[n] == k then [n] else []
  }

  function StagesOf(challenges: seq<Challenge>): (stages: seq<nat>)
    ensures |stages| == |challenges|
    ensures forall i: nat {:trigger stages[i]} | i < |stages| :: stages[i] == challenges[i].stage
  {
    seq(|challenges|, (i: nat) requires i < |challenges| => challenges[i].stage)
  }

  /** A stage's challenge ids are those of its challenges, in map order. */
  lemma {:induction false} StageIdsAre(challenges: seq<Challenge>, k: nat)
    ensures var at := Where(StagesOf(challenges), k);
            && |StageIds(challenges, k)| == |at|
            && forall j: nat {:trigger at[j]} | j < |at| :: StageIds(challenges, k)[j] == challenges[at[j]].id
    decreases |challenges|
  {
    if challenges != [] {
      var n := |challenges| - 1;
      StageIdsAre(challenges[..n], k);
      assert StagesOf(challenges)[..n] == StagesOf(challenges[..n]);
    }
  }

  predicate NoRepeat(ids: seq<nat>) {
    forall i: nat, j: nat {:trigger ids[i], ids[j]} | i < j < |ids| :: ids[i] != ids[j]
  }

  // --------------------------------------------------------------- the helpers' events

  /** Squeezing into `ids` records one draw each; the j-th id gets what the log gives after
      j draws, and nobody else changes. */
  lemma {:induction false} SqueezeLogs(draw: Log -> Words, positions: (Words, Words) -> Words, t: Log, c: seq<Words>, ids: seq<nat>)
    ensures var (t', c') := Squeeze(Recorder(draw, positions), t, c, ids);
            && t' == t + Fields(|ids|) && |c'| == |c|
            && (forall i: nat {:trigger c'[i]} | i < |c| && i !in ids :: c'[i] == c[i])
            && (NoRepeat(ids) ==> forall j: nat {:trigger ids[j]} | j < |ids| && ids[j] < |c| :: c'[ids[j]] == draw(t + Fields(j)))
    decreases |ids|
  {
    hide Squeeze, Recorder;
    SqueezeNext(draw, positions, t, c, ids);
    if ids == [] {
      assert t + Fields(0) == t;
    } else {
      var n := |ids| - 1;
      var init := ids[..n];
      SqueezeLogs(draw, positions, t, c, init);
      assert t + Fields(n) + [Field] == t + Fields(n + 1);
      assert forall j: nat {:trigger init[j]} | j < n :: init[j] == ids[j];
    }
  }

  lemma SqueezeNext(draw: Log -> Words, positions: (Words, Words) -> Words, t: Log, c: seq<Words>, ids: seq<nat>)
    ensures ids == [] ==> Squeeze(Recorder(draw, positions), t, c, ids) == (t, c)
    ensures ids != [] ==>
              var (t', c') := Squeeze(Recorder(draw, positions), t, c, ids[..|ids| - 1]);
              Squeeze(Recorder(draw, positions), t, c, ids) == (t' + [Field], SetAt(c', ids[|ids| - 1], draw(t')))
  {
  }

  /** One put for each stage-2 air value, in map order: its three words off their packed
      section. */
  function Stage2Puts(airvalues: Words, stages: seq<nat>): (log: Log)
    ensures |log| == |Where(stages, 2)|
    ensures forall j: nat {:trigger log[j]} | j < |log| ::
              var off := Wire.PackedWidth(stages[..Where(stages, 2)[j]]);
              log[j] == Put(Wire.Slice(airvalues, off, off + 3))
  {
    var at := Where(stages, 2);
    seq(|at|, (j: nat) requires j < |at| =>
      Put(Wire.Slice(airvalues, Wire.PackedWidth(stages[..at[j]]), Wire.PackedWidth(stages[..at[j]]) + 3)))
  }

  lemma PutsNext(airvalues: Words, stages: seq<nat>)
    requires stages != []
    ensures var n := |stages| - 1;
            var off := Wire.PackedWidth(stages[..n]);
            Stage2Puts(airvalues, stages)
            == Stage2Puts(airvalues, stages[..n]) + if stages[n] == 2 then [Put(Wire.Slice(airvalues, off, off + 3))] else []
  {
    hide Wire.PackedWidth, Wire.Slice;
    var n := |stages| - 1;
    var init, was, at := stages[..n], Where(stages[..n], 2), Where(stages, 2);
    assert at == was + if stages[n] == 2 then [n] else [];
    hide Where;
    var log, now := Stage2Puts(airvalues, init), Stage2Puts(airvalues, stages);
    forall j: nat {:trigger log[j]} | j < |log| ensures now[j] == log[j] {
      assert at[j] == was[j] && init[..was[j]] == stages[..was[j]];
    }
    if stages[n] == 2 { assert at[|was|] == n; }
  }

  lemma {:induction false} AbsorbLogs(draw: Log -> Words, positions: (Words, Words) -> Words, t: Log, airvalues: Words, stages: seq<nat>)
    ensures AbsorbStage2(Recorder(draw, positions), t, airvalues, stages) == t + Stage2Puts(airvalues, stages)
    decreases |stages|
  {
    hide Stage2Puts, Wire.Slice, Wire.PackedWidth, Where;
    if stages == [] {
      assert Stage2Puts(airvalues, stages) == [] by { NoPuts(airvalues); }
    } else {
      AbsorbLogs(draw, positions, t, airvalues, stages[..|stages| - 1]);
      PutsNext(airvalues, stages);
    }
  }

  lemma NoPuts(airvalues: Words)
    ensures Stage2Puts(airvalues, []) == []
  {
  }

  // ------------------------------------------------------------------- the whole run

  /** How many challenges a stage squeezes. */
  function Draws(m: Machine, stage: nat): nat { |Where(StagesOf(m.air.challenges), stage)| }

  lemma StageLogs(m: Machine, draw: Log -> Words, positions: (Words, Words) -> Words, t: Log, c: seq<Words>, stage: nat)
    ensures Squeeze(Recorder(draw, positions), t, c, StageIds(m.air.challenges, stage)).0 == t + Fields(Draws(m, stage))
  {
    StageIdsAre(m.air.challenges, stage);
    SqueezeLogs(draw, positions, t, c, StageIds(m.air.challenges, stage));
  }

  lemma StagesLog(m: Machine, draw: Log -> Words, positions: (Words, Words) -> Words, key: Key, inst: Instance)
    requires ValidMachine(m)
    ensures var s := Stages(m, Recorder(draw, positions), key, inst);
            && Root(Cm2) in s.c2
            && s.t == [Put(inst.globalChallenge)] + Fields(Draws(m, 2))
                      + [Put(s.c2[Root(Cm2)])] + Stage2Puts(s.airvalues, m.air.airvalues) + Fields(Draws(m, 3))
  {
    hide ValidMachine, LogupOut, Commit1Out, Commit2Out, Draws, Squeeze, StageIds, AbsorbStage2, Stage2Puts, Fields;
    var h := Recorder(draw, positions);
    var zero := seq(|m.air.challenges|, (i: nat) => Zeros(3));
    StageLogs(m, draw, positions, [] + [Put(inst.globalChallenge)], zero, 2);
    var (t, challenges) := Seeded(m, h, inst);
    var lg := LogupOut(m, key, inst, challenges);
    var root2 := Commit2Out(m, lg)[Root(Cm2)];
    AbsorbLogs(draw, positions, t + [Put(root2)], lg[AirValues], m.air.airvalues);
    StageLogs(m, draw, positions, t + [Put(root2)] + Stage2Puts(lg[AirValues], m.air.airvalues), challenges, 3);
    assert [] + [Put(inst.globalChallenge)] == [Put(inst.globalChallenge)];
  }

  lemma DivideLog(m: Machine, draw: Log -> Words, positions: (Words, Words) -> Words, key: Key, inst: Instance, s: Staged<Log>)
    requires ValidMachine(m) && Committed(s)
    ensures var d := Divide(m, Recorder(draw, positions), key, inst, s);
            Root(QSec) in d.qc && d.t == s.t + [Put(d.qc[Root(QSec)])] + Fields(Draws(m, 4))
  {
    hide ValidMachine, QuotientCommitOut, QuotientParts, Draws, Squeeze, StageIds, Fields;
    var qc := QuotientCommitOut(m, QuotientParts(m, key, inst, s, |m.air.quotientChunks|));
    StageLogs(m, draw, positions, s.t + [Put(qc[Root(QSec)])], s.challenges, 4);
  }

  lemma OpenLog(m: Machine, draw: Log -> Words, positions: (Words, Words) -> Words, key: Key, s: Staged<Log>, d: Divided<Log>)
    requires ValidMachine(m) && Committed(s) && Matrix(QSec) in d.qc
    ensures var o := OpenAtXi(m, Recorder(draw, positions), key, s, d);
            o.t == d.t + [Section(o.evals, m.air.hashCommits)] + Fields(Draws(m, 5))
  {
    hide ValidMachine, EvalsSumOut, EvalsParts, Draws, Squeeze, StageIds, Fields;
    var evals := EvalsSumOut(m, EvalsParts(m, key, s, d, |m.air.evalsChunks|));
    StageLogs(m, draw, positions, d.t + [Section(evals, m.air.hashCommits)], d.challenges, 5);
  }

  lemma RoundBound(m: Machine, i: nat, codeword: Words, beta: Words)
    ensures Bound(Inputs(m.air, FriCommit(i)), map[Codeword := codeword])
    ensures Bound(Inputs(m.air, FriFold(i)), map[Codeword := codeword, Beta := beta])
  {
  }

  /** One round: the layer commits the codeword, its root is absorbed, the next draw is
      beta, and the fold at that beta is the next codeword. */
  ghost predicate IsRound(m: Machine, draw: Log -> Words, i: nat, codeword: Words, layer: Env, root: Words, next: Words, before: Log, after: Log)
    requires ValidMachine(m)
  {
    var beta := draw(before + [Put(root)]);
    RoundBound(m, i, codeword, beta);
    && layer == Call(m, FriCommit(i), map[Codeword := codeword]) && Root(Fri(i)) in layer && root == layer[Root(Fri(i))]
    && after == before + [Put(root), Field]
    && var folded := Call(m, FriFold(i), map[Codeword := codeword, Beta := beta]);
       Codeword in folded && next == folded[Codeword]
  }

  /** The rounds, from the log `t` to the log `out`, two events each. */
  ghost predicate AreRounds(m: Machine, draw: Log -> Words, t: Log, codewords: seq<Words>, layers: seq<Env>, roots: seq<Words>, out: Log)
    requires ValidMachine(m)
  {
    && |roots| == |layers| && |codewords| == |layers| + 1 && |out| == |t| + 2 * |layers| && out[..|t|] == t
    && forall i: nat {:trigger layers[i]} | i < |layers| ::
         IsRound(m, draw, i, codewords[i], layers[i], roots[i], codewords[i + 1], out[..|t| + 2 * i], out[..|t| + 2 * i + 2])
  }

  lemma RoundsNext(m: Machine, draw: Log -> Words, t: Log, codewords: seq<Words>, layers: seq<Env>, roots: seq<Words>, out: Log,
                   layer: Env, root: Words, next: Words)
    requires ValidMachine(m) && AreRounds(m, draw, t, codewords, layers, roots, out)
    requires IsRound(m, draw, |layers|, codewords[|layers|], layer, root, next, out, out + [Put(root), Field])
    ensures AreRounds(m, draw, t, codewords + [next], layers + [layer], roots + [root], out + [Put(root), Field])
  {
    hide ValidMachine, IsRound;
    var n, out' := |layers|, out + [Put(root), Field];
    var c', l', r' := codewords + [next], layers + [layer], roots + [root];
    assert out'[..|t|] == out[..|t|];
    forall i: nat {:trigger l'[i]} | i < n + 1
      ensures IsRound(m, draw, i, c'[i], l'[i], r'[i], c'[i + 1], out'[..|t| + 2 * i], out'[..|t| + 2 * i + 2])
    {
      if i < n {
        assert l'[i] == layers[i];
        assert out'[..|t| + 2 * i] == out[..|t| + 2 * i] && out'[..|t| + 2 * i + 2] == out[..|t| + 2 * i + 2];
      } else {
        assert out'[..|t| + 2 * n] == out && out'[..|t| + 2 * n + 2] == out';
      }
    }
  }

  lemma NoRounds(m: Machine, draw: Log -> Words, t: Log, codeword: Words)
    requires ValidMachine(m)
    ensures AreRounds(m, draw, t, [codeword], [], [], t)
  {
  }

  lemma RoundsCount(m: Machine, draw: Log -> Words, t: Log, codewords: seq<Words>, layers: seq<Env>, roots: seq<Words>, out: Log)
    requires ValidMachine(m) && AreRounds(m, draw, t, codewords, layers, roots, out)
    ensures |codewords| == |layers| + 1
  {
    hide ValidMachine, IsRound;
  }

  lemma RoundLog(m: Machine, draw: Log -> Words, positions: (Words, Words) -> Words, f: Folded<Log>, i: nat)
      returns (layer: Env, root: Words)
    requires ValidMachine(m)
    ensures var g := FoldRound(m, Recorder(draw, positions), f, i);
            && g.layers == f.layers + [layer] && g.roots == f.roots + [root] && g.t == f.t + [Put(root), Field]
            && IsRound(m, draw, i, f.codeword, layer, root, g.codeword, f.t, f.t + [Put(root), Field])
  {
    hide ValidMachine, Call, Outputs;
    RoundOutputs(m, i);
    layer := Call(m, FriCommit(i), map[Codeword := f.codeword]);
    root := layer[Root(Fri(i))];
    assert f.t + [Put(root)] + [Field] == f.t + [Put(root), Field];
  }

  lemma {:induction false} FoldLog(m: Machine, draw: Log -> Words, positions: (Words, Words) -> Words, codeword: Words, t: Log, n: nat)
      returns (codewords: seq<Words>)
    requires ValidMachine(m)
    ensures var f := Fold(m, Recorder(draw, positions), codeword, t, n);
            && AreRounds(m, draw, t, codewords, f.layers, f.roots, f.t) && |f.layers| == n
            && codewords[0] == codeword && codewords[n] == f.codeword
    decreases n
  {
    hide ValidMachine, AreRounds, IsRound, FoldRound, Recorder;
    if n == 0 {
      NoRounds(m, draw, t, codeword);
      codewords := [codeword];
    } else {
      var before := FoldLog(m, draw, positions, codeword, t, n - 1);
      var f := Fold(m, Recorder(draw, positions), codeword, t, n - 1);
      RoundsCount(m, draw, t, before, f.layers, f.roots, f.t);
      var layer, root := RoundLog(m, draw, positions, f, n - 1);
      var next := FoldRound(m, Recorder(draw, positions), f, n - 1).codeword;
      RoundsNext(m, draw, t, before, f.layers, f.roots, f.t, layer, root, next);
      codewords := before + [next];
    }
  }

  lemma RoundOutputs(m: Machine, i: nat)
    ensures Root(Fri(i)) in Outputs(m.air, FriCommit(i)) && Codeword in Outputs(m.air, FriFold(i))
  {
    assert Outputs(m.air, FriCommit(i))[1] == Root(Fri(i)) && Outputs(m.air, FriFold(i))[0] == Codeword;
  }

  /** Any rounds, written out: whatever codeword round `i` starts from, its layer commits it,
      the layer's root and one draw are recorded, and the next codeword is the fold at the
      element drawn straight after that root. */
  lemma RoundsAre(m: Machine, draw: Log -> Words, t: Log, codewords: seq<Words>, layers: seq<Env>, roots: seq<Words>, out: Log, i: nat)
    requires ValidMachine(m) && AreRounds(m, draw, t, codewords, layers, roots, out) && i < |layers|
    ensures |roots| == |layers| && |codewords| == |layers| + 1 && |out| == |t| + 2 * |layers| && out[..|t|] == t
    ensures layers[i] == Call(m, FriCommit(i), map[Codeword := codewords[i]])
    ensures Root(Fri(i)) in layers[i] && roots[i] == layers[i][Root(Fri(i))]
    ensures out[|t| + 2 * i] == Put(roots[i]) && out[|t| + 2 * i + 1] == Field
    ensures var folded := Call(m, FriFold(i), map[Codeword := codewords[i], Beta := draw(out[..|t| + 2 * i + 1])]);
            Codeword in folded && codewords[i + 1] == folded[Codeword]
  {
    hide ValidMachine, Call;
    var a := out[..|t| + 2 * i];
    assert IsRound(m, draw, i, codewords[i], layers[i], roots[i], codewords[i + 1], a, out[..|t| + 2 * i + 2]);
    assert out[|t| + 2 * i] == out[..|t| + 2 * i + 2][|a|] == Put(roots[i]);
    assert out[|t| + 2 * i + 1] == out[..|t| + 2 * i + 2][|a| + 1] == Field;
    assert out[..|t| + 2 * i + 1] == a + [Put(roots[i])];
  }

  lemma RoundsLog(m: Machine, draw: Log -> Words, t: Log, codewords: seq<Words>, layers: seq<Env>, roots: seq<Words>, out: Log)
    requires ValidMachine(m) && AreRounds(m, draw, t, codewords, layers, roots, out)
    ensures |roots| == |layers| && |out| == |t| + 2 * |roots| && out[..|t|] == t
    ensures forall i: nat {:trigger roots[i]} | i < |roots| :: out[|t| + 2 * i] == Put(roots[i]) && out[|t| + 2 * i + 1] == Field
  {
    hide ValidMachine, IsRound;
    forall i: nat {:trigger roots[i]} | i < |roots| ensures out[|t| + 2 * i] == Put(roots[i]) && out[|t| + 2 * i + 1] == Field {
      RoundsAre(m, draw, t, codewords, layers, roots, out, i);
    }
  }

  /** The end of a prove, written out: the final polynomial is the last codeword's, it is
      absorbed, the next draw is what the nonce is ground on, and the two draw the positions. */
  lemma CloseLog(m: Machine, draw: Log -> Words, positions: (Words, Words) -> Words, f: Folded<Log>)
    requires ValidMachine(m)
    ensures var c := Close(m, Recorder(draw, positions), f);
            var last, challenge := Call(m, FriFinal, map[Codeword := f.codeword]), draw(f.t + [Section(c.finalPol, m.air.hashCommits)]);
            var ground := Call(m, Grind, map[ChallengeName := challenge]);
            && FinalPol in last && c.finalPol == last[FinalPol]
            && Nonce in ground && c.nonce == ground[Nonce] && c.positions == positions(challenge, c.nonce)
  {
    hide ValidMachine, Call;
    assert Outputs(m.air, FriFinal)[0] == FinalPol && Outputs(m.air, Grind)[0] == Nonce;
  }

  /** The whole log of a run, written out from the proof's own sections: the global
      challenge and the stage-2 draws, root2, the stage-2 air values and the next draws,
      rootq and its draws, the evaluations and theirs, then each round's root and its draw. */
  lemma RunLog(m: Machine, draw: Log -> Words, positions: (Words, Words) -> Words, key: Key, inst: Instance)
    requires ValidMachine(m) && |m.air.steps| > 0
    ensures var r := RunOf(m, Recorder(draw, positions), key, inst);
            && Root(Cm2) in r.s.c2 && Root(QSec) in r.d.qc
            && r.s.t == [Put(inst.globalChallenge)] + Fields(Draws(m, 2))
                        + [Put(r.s.c2[Root(Cm2)])] + Stage2Puts(r.s.airvalues, m.air.airvalues) + Fields(Draws(m, 3))
            && r.d.t == r.s.t + [Put(r.d.qc[Root(QSec)])] + Fields(Draws(m, 4))
            && r.o.t == r.d.t + [Section(r.o.evals, m.air.hashCommits)] + Fields(Draws(m, 5))
            && |r.f.roots| == |m.air.steps| - 1 && |r.f.t| == |r.o.t| + 2 * |r.f.roots| && r.f.t[..|r.o.t|] == r.o.t
            && forall i: nat {:trigger r.f.roots[i]} | i < |r.f.roots| ::
                 r.f.t[|r.o.t| + 2 * i] == Put(r.f.roots[i]) && r.f.t[|r.o.t| + 2 * i + 1] == Field
  {
    hide ValidMachine, Stages, Divide, OpenAtXi, Fold, Close, Composition, Fields, Stage2Puts, Draws, AreRounds, Call, Committed;
    var h := Recorder(draw, positions);
    StagesCommitted(m, h, key, inst);
    var r := RunOf(m, h, key, inst);
    StagesLog(m, draw, positions, key, inst);
    DivideLog(m, draw, positions, key, inst, r.s);
    DivideCommits(m, h, key, inst, r.s);
    OpenLog(m, draw, positions, key, r.s, r.d);
    var codewords := RunRounds(m, draw, positions, key, inst);
    RoundsLog(m, draw, r.o.t, codewords, r.f.layers, r.f.roots, r.f.t);
  }

  /** The rounds of a run start from the DEEP composition and the log after its challenges,
      and end at the codeword the final polynomial is made of. */
  lemma RunRounds(m: Machine, draw: Log -> Words, positions: (Words, Words) -> Words, key: Key, inst: Instance)
      returns (codewords: seq<Words>)
    requires ValidMachine(m) && |m.air.steps| > 0
    ensures var r := RunOf(m, Recorder(draw, positions), key, inst);
            && AreRounds(m, draw, r.o.t, codewords, r.f.layers, r.f.roots, r.f.t) && |r.f.layers| == |m.air.steps| - 1
            && Committed(r.s) && Matrix(QSec) in r.d.qc && codewords[0] == Composition(m, key, r.s, r.d, r.o)
            && codewords[|r.f.layers|] == r.f.codeword && r.c == Close(m, Recorder(draw, positions), r.f)
  {
    hide ValidMachine, Stages, Divide, OpenAtXi, Fold, Close, Composition, IsRound;
    var h := Recorder(draw, positions);
    StagesCommitted(m, h, key, inst);
    var r := RunOf(m, h, key, inst);
    DivideCommits(m, h, key, inst, r.s);
    codewords := FoldLog(m, draw, positions, Composition(m, key, r.s, r.d, r.o), r.o.t, |m.air.steps| - 1);
  }

  // ------------------------------------------------------------- who gets which draw

  /** A manifest's challenges: ids in range, no two alike. */
  ghost predicate OwnIds(challenges: seq<Challenge>) {
    && (forall i: nat {:trigger challenges[i]} | i < |challenges| :: challenges[i].id < |challenges|)
    && (forall i: nat, j: nat {:trigger challenges[i], challenges[j]} | i < j < |challenges| :: challenges[i].id != challenges[j].id)
  }

  /** A stage's boundary: its j-th challenge gets what the log gives after j draws there,
      and the challenges of every other stage stay. */
  lemma StageDraws(challenges: seq<Challenge>, draw: Log -> Words, positions: (Words, Words) -> Words, t: Log, c: seq<Words>, stage: nat)
    requires OwnIds(challenges) && |c| == |challenges|
    ensures var c', at := Squeeze(Recorder(draw, positions), t, c, StageIds(challenges, stage)).1, Where(StagesOf(challenges), stage);
            && (forall j: nat {:trigger at[j]} | j < |at| :: c'[challenges[at[j]].id] == draw(t + Fields(j)))
            && (forall i: nat {:trigger challenges[i]} | i < |challenges| && challenges[i].stage != stage ::
                  c'[challenges[i].id] == c[challenges[i].id])
  {
    hide Fields, Squeeze, StageIds, Where, StagesOf;
    var ids, at := StageIds(challenges, stage), Where(StagesOf(challenges), stage);
    StageIdsAre(challenges, stage);
    SqueezeLogs(draw, positions, t, c, ids);
    forall i: nat, j: nat {:trigger ids[i], ids[j]} | i < j < |ids| ensures ids[i] != ids[j] {
      assert at[i] < at[j] && ids[i] == challenges[at[i]].id && ids[j] == challenges[at[j]].id;
    }
    var c' := Squeeze(Recorder(draw, positions), t, c, ids).1;
    forall j: nat {:trigger at[j]} | j < |at| ensures c'[challenges[at[j]].id] == draw(t + Fields(j)) {
      assert ids[j] == challenges[at[j]].id;
    }
    forall i: nat {:trigger challenges[i]} | i < |challenges| && challenges[i].stage != stage
      ensures c'[challenges[i].id] == c[challenges[i].id]
    {
      forall j: nat {:trigger ids[j]} | j < |ids| ensures ids[j] != challenges[i].id {
        assert StagesOf(challenges)[at[j]] == stage && ids[j] == challenges[at[j]].id;
      }
    }
  }

  /** The challenges a run ends with: each was drawn at its own stage's boundary, the j-th of
      the stage after j draws there, and no later stage touches it. */
  lemma RunDraws(m: Machine, draw: Log -> Words, positions: (Words, Words) -> Words, key: Key, inst: Instance, i: nat, j: nat)
    requires ValidMachine(m) && |m.air.steps| > 0 && OwnIds(m.air.challenges) && i < |m.air.challenges|
    requires var at := Where(StagesOf(m.air.challenges), m.air.challenges[i].stage);
             j < |at| && at[j] == i
    ensures var r, c := RunOf(m, Recorder(draw, positions), key, inst), m.air.challenges[i];
            && |r.o.challenges| == |r.d.challenges| == |r.s.challenges| == |m.air.challenges|
            && Root(Cm2) in r.s.c2 && Root(QSec) in r.d.qc
            && (c.stage == 2 ==> r.s.challenges[c.id] == r.d.challenges[c.id] == r.o.challenges[c.id]
                                 == draw([Put(inst.globalChallenge)] + Fields(j)))
            && (c.stage == 3 ==> r.s.challenges[c.id] == r.d.challenges[c.id] == r.o.challenges[c.id]
                                 == draw([Put(inst.globalChallenge)] + Fields(Draws(m, 2)) + [Put(r.s.c2[Root(Cm2)])]
                                         + Stage2Puts(r.s.airvalues, m.air.airvalues) + Fields(j)))
            && (c.stage == 4 ==> r.d.challenges[c.id] == r.o.challenges[c.id] == draw(r.s.t + [Put(r.d.qc[Root(QSec)])] + Fields(j)))
            && (c.stage == 5 ==> r.o.challenges[c.id] == draw(r.d.t + [Section(r.o.evals, m.air.hashCommits)] + Fields(j)))
  {
    hide ValidMachine, Fold, Close, Composition, Fields, Stage2Puts, Draws, Call, Where, StagesOf, Squeeze, StageIds, AbsorbStage2,
         LogupOut, Commit1Out, Commit2Out, QuotientCommitOut, QuotientParts, EvalsSumOut, EvalsParts;
    var h, chs := Recorder(draw, positions), m.air.challenges;
    StagesCommitted(m, h, key, inst);
    var r := RunOf(m, h, key, inst);
    RunLog(m, draw, positions, key, inst);
    DivideCommits(m, h, key, inst, r.s);
    var zero := seq(|chs|, (k: nat) => Zeros(3));
    assert h.put(h.start, inst.globalChallenge) == [Put(inst.globalChallenge)];
    StageDraws(chs, draw, positions, [Put(inst.globalChallenge)], zero, 2);
    StageLogs(m, draw, positions, [Put(inst.globalChallenge)], zero, 2);
    var (t, challenges) := Seeded(m, h, inst);
    AbsorbLogs(draw, positions, t + [Put(r.s.c2[Root(Cm2)])], r.s.airvalues, m.air.airvalues);
    StageDraws(chs, draw, positions, t + [Put(r.s.c2[Root(Cm2)])] + Stage2Puts(r.s.airvalues, m.air.airvalues), challenges, 3);
    StageDraws(chs, draw, positions, r.s.t + [Put(r.d.qc[Root(QSec)])], r.s.challenges, 4);
    StageDraws(chs, draw, positions, r.d.t + [Section(r.o.evals, m.air.hashCommits)], r.d.challenges, 5);
  }

  // ------------------------------------------------------------------- any other host

  /** A host's transcript after a log. */
  function After<S>(h: Host<S>, log: Log): S {
    if log == [] then h.start
    else
      var t := After(h, log[..|log| - 1]);
      match log[|log| - 1]
      case Put(w) => h.put(t, w)
      case Field => h.field(t).0
      case Section(w, hashed) => h.section(t, w, hashed)
  }

  lemma AfterEvent<S>(h: Host<S>, log: Log, e: Event)
    ensures After(h, log + [e]) ==
            match e
            case Put(w) => h.put(After(h, log), w)
            case Field => h.field(After(h, log)).0
            case Section(w, hashed) => h.section(After(h, log), w, hashed)
  {
    assert (log + [e])[..|log|] == log;
  }

  /** The recorder whose draws are the host's own. */
  function RecorderOf<S>(h: Host<S>): Host<Log> { Recorder((log: Log) => h.field(After(h, log)).1, h.positions) }

  function StagedAfter<S>(h: Host<S>, s: Staged<Log>): Staged<S> {
    Staged(s.c1, s.c2, s.airvalues, s.airgroup, After(h, s.t), s.challenges)
  }

  function DividedAfter<S>(h: Host<S>, d: Divided<Log>): Divided<S> { Divided(d.qc, After(h, d.t), d.challenges) }

  function OpenedAfter<S>(h: Host<S>, o: Opened<Log>): Opened<S> { Opened(o.evals, After(h, o.t), o.challenges) }

  function FoldedAfter<S>(h: Host<S>, f: Folded<Log>): Folded<S> { Folded(f.layers, f.roots, f.codeword, After(h, f.t)) }

  lemma {:induction false} SqueezeAfter<S>(h: Host<S>, t: Log, c: seq<Words>, ids: seq<nat>)
    ensures var (t', c') := Squeeze(RecorderOf(h), t, c, ids); Squeeze(h, After(h, t), c, ids) == (After(h, t'), c')
    decreases |ids|
  {
    if ids != [] {
      var init := ids[..|ids| - 1];
      SqueezeAfter(h, t, c, init);
      AfterEvent(h, Squeeze(RecorderOf(h), t, c, init).0, Field);
    }
  }

  lemma {:induction false} AbsorbAfter<S>(h: Host<S>, t: Log, airvalues: Words, stages: seq<nat>)
    ensures AbsorbStage2(h, After(h, t), airvalues, stages) == After(h, AbsorbStage2(RecorderOf(h), t, airvalues, stages))
    decreases |stages|
  {
    hide Wire.Slice, Wire.PackedWidth;
    if stages != [] {
      var init := stages[..|stages| - 1];
      AbsorbAfter(h, t, airvalues, init);
      AfterEvent(h, AbsorbStage2(RecorderOf(h), t, airvalues, init), Put(Wire.Slice(airvalues, Wire.PackedWidth(init), Wire.PackedWidth(init) + 3)));
    }
  }

  lemma StagesAfter<S>(m: Machine, h: Host<S>, key: Key, inst: Instance)
    requires ValidMachine(m)
    ensures Stages(m, h, key, inst) == StagedAfter(h, Stages(m, RecorderOf(h), key, inst))
  {
    hide ValidMachine, LogupOut, Commit1Out, Commit2Out, Squeeze, StageIds, AbsorbStage2;
    var rec := RecorderOf(h);
    var zero := seq(|m.air.challenges|, (i: nat) => Zeros(3));
    var t0 := rec.put(rec.start, inst.globalChallenge);
    AfterEvent(h, [], Put(inst.globalChallenge));
    SqueezeAfter(h, t0, zero, StageIds(m.air.challenges, 2));
    var (t, challenges) := Seeded(m, rec, inst);
    var lg := LogupOut(m, key, inst, challenges);
    var root2 := Commit2Out(m, lg)[Root(Cm2)];
    AfterEvent(h, t, Put(root2));
    AbsorbAfter(h, rec.put(t, root2), lg[AirValues], m.air.airvalues);
    SqueezeAfter(h, AbsorbStage2(rec, rec.put(t, root2), lg[AirValues], m.air.airvalues), challenges, StageIds(m.air.challenges, 3));
  }

  lemma DivideAfter<S>(m: Machine, h: Host<S>, key: Key, inst: Instance, s: Staged<Log>)
    requires ValidMachine(m) && Committed(s)
    ensures Divide(m, h, key, inst, StagedAfter(h, s)) == DividedAfter(h, Divide(m, RecorderOf(h), key, inst, s))
  {
    hide ValidMachine, QuotientCommitOut, QuotientParts, Squeeze, StageIds;
    PartsAfter(m, h, key, inst, s, |m.air.quotientChunks|);
    var qc := QuotientCommitOut(m, QuotientParts(m, key, inst, s, |m.air.quotientChunks|));
    AfterEvent(h, s.t, Put(qc[Root(QSec)]));
    SqueezeAfter(h, s.t + [Put(qc[Root(QSec)])], s.challenges, StageIds(m.air.challenges, 4));
  }

  lemma {:induction false} PartsAfter<S>(m: Machine, h: Host<S>, key: Key, inst: Instance, s: Staged<Log>, n: nat)
    requires ValidMachine(m) && Committed(s) && n <= |m.air.quotientChunks|
    ensures QuotientParts(m, key, inst, StagedAfter(h, s), n) == QuotientParts(m, key, inst, s, n)
  {
    hide ValidMachine, Call;
    if n > 0 { PartsAfter(m, h, key, inst, s, n - 1); }
  }

  lemma {:induction false} EvalsAfter<S>(m: Machine, h: Host<S>, key: Key, s: Staged<Log>, d: Divided<Log>, n: nat)
    requires ValidMachine(m) && Committed(s) && Matrix(QSec) in d.qc && n <= |m.air.evalsChunks|
    ensures EvalsParts(m, key, StagedAfter(h, s), DividedAfter(h, d), n) == EvalsParts(m, key, s, d, n)
  {
    hide ValidMachine, Call;
    if n > 0 { EvalsAfter(m, h, key, s, d, n - 1); }
  }

  lemma OpenAfter<S>(m: Machine, h: Host<S>, key: Key, s: Staged<Log>, d: Divided<Log>)
    requires ValidMachine(m) && Committed(s) && Matrix(QSec) in d.qc
    ensures OpenAtXi(m, h, key, StagedAfter(h, s), DividedAfter(h, d)) == OpenedAfter(h, OpenAtXi(m, RecorderOf(h), key, s, d))
  {
    hide ValidMachine, EvalsSumOut, EvalsParts, Squeeze, StageIds;
    EvalsAfter(m, h, key, s, d, |m.air.evalsChunks|);
    var evals := EvalsSumOut(m, EvalsParts(m, key, s, d, |m.air.evalsChunks|));
    AfterEvent(h, d.t, Section(evals, m.air.hashCommits));
    SqueezeAfter(h, d.t + [Section(evals, m.air.hashCommits)], d.challenges, StageIds(m.air.challenges, 5));
  }

  lemma {:induction false} DeepAfter<S>(m: Machine, h: Host<S>, key: Key, s: Staged<Log>, d: Divided<Log>, o: Opened<Log>, n: nat)
    requires ValidMachine(m) && Committed(s) && Matrix(QSec) in d.qc && n <= |m.air.deepChunks|
    ensures DeepParts(m, key, StagedAfter(h, s), DividedAfter(h, d), OpenedAfter(h, o), n) == DeepParts(m, key, s, d, o, n)
  {
    hide ValidMachine, Call;
    if n > 0 { DeepAfter(m, h, key, s, d, o, n - 1); }
  }

  lemma {:induction false} FoldAfter<S>(m: Machine, h: Host<S>, codeword: Words, t: Log, n: nat)
    requires ValidMachine(m)
    ensures Fold(m, h, codeword, After(h, t), n) == FoldedAfter(h, Fold(m, RecorderOf(h), codeword, t, n))
  {
    hide ValidMachine, Call, Outputs;
    if n > 0 {
      FoldAfter(m, h, codeword, t, n - 1);
      var f := Fold(m, RecorderOf(h), codeword, t, n - 1);
      var root := FoldRound(m, RecorderOf(h), f, n - 1).roots[n - 1];
      AfterEvent(h, f.t, Put(root));
      AfterEvent(h, f.t + [Put(root)], Field);
    }
  }

  lemma CloseAfter<S>(m: Machine, h: Host<S>, f: Folded<Log>)
    requires ValidMachine(m)
    ensures Close(m, h, FoldedAfter(h, f)) == Close(m, RecorderOf(h), f)
  {
    hide ValidMachine, Call, Outputs;
    AfterEvent(h, f.t, Section(Close(m, RecorderOf(h), f).finalPol, m.air.hashCommits));
  }

  /** A run on any host is the recorder's run, its transcripts those of the recorded logs: so
      what the log says of a run, it says of every host's. */
  lemma RunAfter<S>(m: Machine, h: Host<S>, key: Key, inst: Instance)
    requires ValidMachine(m) && |m.air.steps| > 0
    ensures var r := RunOf(m, RecorderOf(h), key, inst);
            RunOf(m, h, key, inst) == Run(StagedAfter(h, r.s), DividedAfter(h, r.d), OpenedAfter(h, r.o), FoldedAfter(h, r.f), r.c)
  {
    hide ValidMachine, Stages, Divide, OpenAtXi, Fold, Close, DeepParts, DeepConcatOut;
    var rec := RecorderOf(h);
    StagesCommitted(m, rec, key, inst);
    var r := RunOf(m, rec, key, inst);
    DivideCommits(m, rec, key, inst, r.s);
    StagesAfter(m, h, key, inst);
    DivideAfter(m, h, key, inst, r.s);
    OpenAfter(m, h, key, r.s, r.d);
    DeepAfter(m, h, key, r.s, r.d, r.o, |m.air.deepChunks|);
    FoldAfter(m, h, Composition(m, key, r.s, r.d, r.o), r.o.t, |m.air.steps| - 1);
    CloseAfter(m, h, r.f);
  }
}
