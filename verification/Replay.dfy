/** genProof's schedule as a pure function of the key and the instance: every
    program is handed exactly its declared inputs, by keyword. */
module Replay {
  import opened AirPrograms
  import Wire

  datatype Key = Key(constBase: Words, customBase: nat -> Words)

  datatype Instance = Instance(trace: Words, publics: Words, airvalues: Words, proofvalues: Words, globalChallenge: Words)

  /** The transcript, whatever its sponge: its start, what absorbing and squeezing do
      to it, and the query positions a challenge and a nonce draw. */
  datatype Host<!S> = Host(start: S, put: (S, Words) -> S, field: S -> (S, Words), section: (S, Words, bool) -> S,
                           positions: (Words, Words) -> Words)

  // ------------------------------------------------------------------ host helpers

  function Flatten(rows: seq<Words>): Words { Wire.Flatten(rows) }

  /** The challenge ids squeezed at `stage`'s boundary, in map order. */
  function StageIds(challenges: seq<Challenge>, stage: nat): seq<nat> {
    if challenges == [] then []
    else
      var c := challenges[|challenges| - 1];
      StageIds(challenges[..|challenges| - 1], stage) + if c.stage == stage then [c.id] else []
  }

  function SetAt(rows: seq<Words>, i: nat, w: Words): (r: seq<Words>)
    ensures |r| == |rows|
  {
    if i < |rows| then rows[i := w] else rows
  }

  /** Squeeze a field element into each of these challenges, in order. */
  function Squeeze<S>(h: Host<S>, t: S, challenges: seq<Words>, ids: seq<nat>): (r: (S, seq<Words>))
    ensures |r.1| == |challenges|
  {
    if ids == [] then (t, challenges)
    else
      var (t', c) := Squeeze(h, t, challenges, ids[..|ids| - 1]);
      var (t'', f) := h.field(t');
      (t'', SetAt(c, ids[|ids| - 1], f))
  }

  function NamedAt(challenges: seq<Challenge>, values: seq<Words>, name: string): Words {
    if challenges == [] then []
    else if challenges[0].name == name then (if challenges[0].id < |values| then values[challenges[0].id] else [])
    else NamedAt(challenges[1..], values, name)
  }

  /** Absorb the stage-2 air values off their section. */
  function AbsorbStage2<S>(h: Host<S>, t: S, airvalues: Words, stages: seq<nat>): S {
    if stages == [] then t
    else
      var init := stages[..|stages| - 1];
      var t' := AbsorbStage2(h, t, airvalues, init);
      if stages[|stages| - 1] == 2 then
        h.put(t', Wire.Slice(airvalues, Wire.PackedWidth(init), Wire.PackedWidth(init) + 3))
      else t'
  }

  function Zeros(n: nat): Words { seq(n, (i: nat) => 0) }

  /** A window's first row, as a program takes it. */
  function StartOf(row: nat): Words { [row] }

  function Range(start: nat, size: nat): Words { seq(size, (i: nat) => start + i) }

  /** Rows before window `k`. */
  function WindowStart(sizes: seq<nat>, k: nat): nat
    requires k <= |sizes|
  {
    if k == 0 then 0 else WindowStart(sizes, k - 1) + sizes[k - 1]
  }

  // ------------------------------------------------------------------- the key

  ghost function ConstsOut(m: Machine): Env
    requires ValidMachine(m)
  {
    Call(m, Constants, map[])
  }

  ghost function ConstOut(m: Machine, key: Key): Env
    requires ValidMachine(m)
  {
    Call(m, ConstSetup, map[Base(Const) := key.constBase])
  }

  ghost function CustomOut(m: Machine, key: Key, ci: nat): Env
    requires ValidMachine(m)
  {
    Call(m, CustomSetup(ci), map[Base(Custom(ci)) := key.customBase(ci)])
  }

  /** A setup program's digest layers, under the names the opening program reads. */
  ghost function LayersOf(out: Env, t: Tree, depth: nat): Env {
    map k: nat | 0 <= k < depth && SetupLayer(t, k) in out :: Layer(t, k) := out[SetupLayer(t, k)]
  }

  /** A commit program's own digest layers. */
  ghost function OwnLayers(out: Env, t: Tree, depth: nat): Env {
    map k: nat | 0 <= k < depth && Layer(t, k) in out :: Layer(t, k) := out[Layer(t, k)]
  }

  function CustomBaseKw(m: Machine, key: Key): Env {
    map ci: nat | ci in m.air.customs :: Base(Custom(ci)) := key.customBase(ci)
  }

  ghost function CustomExtKw(m: Machine, key: Key): Env
    requires ValidMachine(m)
  {
    map ci: nat | ci in m.air.customs :: Matrix(Custom(ci)) := CustomOut(m, key, ci)[Matrix(Custom(ci))]
  }

  function ScalarKw(inst: Instance, airvalues: Words): Env {
    map[Publics := inst.publics, AirValues := airvalues, ProofValues := inst.proofvalues]
  }

  // ------------------------------------------------------------------- stages 1, 2

  function WitnessKw(m: Machine, key: Key, inst: Instance): Env {
    ScalarKw(inst, inst.airvalues) + CustomBaseKw(m, key) + map[Trace := inst.trace, Base(Const) := key.constBase]
  }

  lemma WitnessExact(m: Machine, key: Key, inst: Instance)
    ensures Exact(m, WitnessCalc, WitnessKw(m, key, inst))
  {
    var names := Inputs(m.air, WitnessCalc);
    var cs := m.air.customs;
    forall i: nat {:trigger names[i]} | i < |names| ensures names[i] in WitnessKw(m, key, inst) {
      if 2 <= i < 2 + |cs| { assert names[i] == Base(Custom(cs[i - 2])) && cs[i - 2] in cs; }
    }
    forall n: Name | n in WitnessKw(m, key, inst) ensures n in names { BasesListed(m.air, n, names, 2); }
  }

  /** A custom base's name appears in any list that splices them in at `at`. */
  lemma BasesListed(air: Air, n: Name, names: seq<Name>, at: nat)
    requires at + |air.customs| <= |names| && names[at..at + |air.customs|] == CustomBases(air)
    ensures n.Base? && n.tree.Custom? && n.tree.id in air.customs ==> n in names
  {
    if n.Base? && n.tree.Custom? && n.tree.id in air.customs {
      var i: nat :| i < |air.customs| && air.customs[i] == n.tree.id;
      assert names[at..at + |air.customs|][i] == n == names[at + i];
    }
  }

  ghost function TraceOf(m: Machine, key: Key, inst: Instance): Words
    requires ValidMachine(m)
  {
    WitnessExact(m, key, inst);
    if m.air.witnessCalc then Call(m, WitnessCalc, WitnessKw(m, key, inst))[Trace] else inst.trace
  }

  ghost function Commit1Out(m: Machine, key: Key, inst: Instance): Env
    requires ValidMachine(m)
  {
    Call(m, Commit1, map[Trace := TraceOf(m, key, inst)])
  }

  /** The transcript and challenges before `logup`. */
  function Seeded<S>(m: Machine, h: Host<S>, inst: Instance): (S, seq<Words>) {
    Squeeze(h, h.put(h.start, inst.globalChallenge), seq(|m.air.challenges|, (i: nat) => Zeros(3)),
            StageIds(m.air.challenges, 2))
  }

  ghost function LogupKw(m: Machine, key: Key, inst: Instance, challenges: seq<Words>): Env
    requires ValidMachine(m)
  {
    ScalarKw(inst, inst.airvalues) + CustomBaseKw(m, key)
    + map[Trace := TraceOf(m, key, inst), Base(Const) := key.constBase, ChallengesName := Flatten(challenges)]
  }

  lemma LogupExact(m: Machine, key: Key, inst: Instance, challenges: seq<Words>)
    requires ValidMachine(m)
    ensures Exact(m, Logup, LogupKw(m, key, inst, challenges))
  {
    var names, cs := Inputs(m.air, Logup), m.air.customs;
    forall i: nat {:trigger names[i]} | i < |names| ensures names[i] in LogupKw(m, key, inst, challenges) {
      if 2 <= i < 2 + |cs| { assert names[i] == Base(Custom(cs[i - 2])) && cs[i - 2] in cs; }
    }
    forall n: Name | n in LogupKw(m, key, inst, challenges) ensures n in names { BasesListed(m.air, n, names, 2); }
  }

  ghost function LogupOut(m: Machine, key: Key, inst: Instance, challenges: seq<Words>): (lg: Env)
    requires ValidMachine(m)
    ensures AirValues in lg && Cm2Base in lg
  {
    LogupExact(m, key, inst, challenges);
    assert AirValues == Outputs(m.air, Logup)[|Outputs(m.air, Logup)| - 1];
    assert Cm2Base == Outputs(m.air, Logup)[0];
    Call(m, Logup, LogupKw(m, key, inst, challenges))
  }

  ghost function Commit2Out(m: Machine, lg: Env): (c2: Env)
    requires ValidMachine(m) && Cm2Base in lg
    ensures Root(Cm2) in c2
  {
    assert Root(Cm2) == Outputs(m.air, Commit2)[0];
    Call(m, Commit2, map[Cm2Base := lg[Cm2Base]])
  }

  /** What the first two stages leave: the commitments, the host's values, the
      transcript and the challenges. */
  datatype Staged<+S> = Staged(c1: Env, c2: Env, airvalues: Words, airgroup: seq<Words>, t: S, challenges: seq<Words>)

  ghost function Stages<S>(m: Machine, h: Host<S>, key: Key, inst: Instance): Staged<S>
    requires ValidMachine(m)
  {
    var (t, challenges) := Seeded(m, h, inst);
    var lg := LogupOut(m, key, inst, challenges);
    var c2 := Commit2Out(m, lg);
    var absorbed := AbsorbStage2(h, h.put(t, c2[Root(Cm2)]), lg[AirValues], m.air.airvalues);
    var zeros := seq(|m.air.airgroupvalues|, (i: nat) => Zeros(3));
    var airgroup := if AirgroupValue in lg then SetAt(zeros, m.air.airgroupIndex, lg[AirgroupValue]) else zeros;
    var (t', challenges') := Squeeze(h, absorbed, challenges, StageIds(m.air.challenges, NSTAGES + 1));
    Staged(Commit1Out(m, key, inst), c2, lg[AirValues], airgroup, t', challenges')
  }

  // ------------------------------------------------------------------- the quotient

  lemma ExtsListed(air: Air, n: Name, names: seq<Name>, at: nat)
    requires at + |air.customs| <= |names| && names[at..at + |air.customs|] == CustomExts(air)
    ensures n.Matrix? && n.tree.Custom? && n.tree.id in air.customs ==> n in names
  {
    if n.Matrix? && n.tree.Custom? && n.tree.id in air.customs {
      var i: nat :| i < |air.customs| && air.customs[i] == n.tree.id;
      assert names[at..at + |air.customs|][i] == n == names[at + i];
    }
  }

  ghost function ConstExt(m: Machine, key: Key): Words
    requires ValidMachine(m)
  {
    assert Outputs(m.air, ConstSetup)[1] == Matrix(Const);
    ConstOut(m, key)[Matrix(Const)]
  }

  lemma CustomExtsExact(m: Machine, key: Key)
    requires ValidMachine(m)
    ensures ExactOn(CustomExts(m.air), CustomExtKw(m, key))
  {
    var names, cs := CustomExts(m.air), m.air.customs;
    forall i: nat {:trigger names[i]} | i < |names| ensures names[i] in CustomExtKw(m, key) {
      assert names[i] == Matrix(Custom(cs[i])) && cs[i] in cs;
    }
    forall n: Name | n in CustomExtKw(m, key) ensures n in names { ExtsListed(m.air, n, names, 0); }
  }

  ghost predicate Committed<S>(s: Staged<S>) {
    Matrix(Cm1) in s.c1 && Matrix(Cm2) in s.c2 && Root(Cm1) in s.c1 && Root(Cm2) in s.c2
  }

  lemma Commit1Committed(m: Machine, key: Key, inst: Instance)
    requires ValidMachine(m)
    ensures Matrix(Cm1) in Commit1Out(m, key, inst) && Root(Cm1) in Commit1Out(m, key, inst)
  {
    hide ValidMachine, TraceOf;
    assert Outputs(m.air, Commit1)[1] == Matrix(Cm1) && Outputs(m.air, Commit1)[0] == Root(Cm1);
  }

  lemma Commit2Committed(m: Machine, lg: Env)
    requires ValidMachine(m) && Cm2Base in lg
    ensures Matrix(Cm2) in Commit2Out(m, lg) && Root(Cm2) in Commit2Out(m, lg)
  {
    hide ValidMachine;
    assert Outputs(m.air, Commit2)[1] == Matrix(Cm2) && Outputs(m.air, Commit2)[0] == Root(Cm2);
  }

  lemma StagesCommitted<S>(m: Machine, h: Host<S>, key: Key, inst: Instance)
    requires ValidMachine(m)
    ensures Committed(Stages(m, h, key, inst))
  {
    hide ValidMachine, Outputs, Call, Seeded, LogupOut, AbsorbStage2, Squeeze, StageIds, Commit1Out, Commit2Out;
    Commit1Committed(m, key, inst);
    var (_, challenges) := Seeded(m, h, inst);
    Commit2Committed(m, LogupOut(m, key, inst, challenges));
  }

  ghost function ZiOf(m: Machine): Words
    requires ValidMachine(m)
  {
    assert Outputs(m.air, Constants)[0] == Zi;
    ConstsOut(m)[Zi]
  }

  ghost function DomainOf(m: Machine): Words
    requires ValidMachine(m)
  {
    assert Outputs(m.air, Constants)[1] == Domain;
    ConstsOut(m)[Domain]
  }

  /** The sections before the quotient's: the two stages' and the key's. */
  ghost function QuotientSections<S>(m: Machine, key: Key, s: Staged<S>): Env
    requires ValidMachine(m) && Committed(s)
  {
    map[Matrix(Cm1) := s.c1[Matrix(Cm1)], Matrix(Cm2) := s.c2[Matrix(Cm2)], Matrix(Const) := ConstExt(m, key)]
    + CustomExtKw(m, key)
  }

  ghost function QuotientScalars<S>(m: Machine, inst: Instance, s: Staged<S>): Env
    requires ValidMachine(m)
  {
    ScalarKw(inst, s.airvalues)
    + map[ChallengesName := Flatten(s.challenges), AirgroupValues := Flatten(s.airgroup), Zi := ZiOf(m)]
  }

  ghost function QuotientKw<S>(m: Machine, key: Key, inst: Instance, s: Staged<S>): Env
    requires ValidMachine(m) && Committed(s)
  {
    QuotientSections(m, key, s) + QuotientScalars(m, inst, s)
  }

  lemma QuotientSectionsExact<S>(m: Machine, key: Key, s: Staged<S>)
    requires ValidMachine(m) && Committed(s)
    ensures ExactOn([Matrix(Cm1), Matrix(Cm2), Matrix(Const)] + CustomExts(m.air), QuotientSections(m, key, s))
  {
    hide ValidMachine, ConstExt;
    var names := [Matrix(Cm1), Matrix(Cm2), Matrix(Const)];
    var kw := map[Matrix(Cm1) := s.c1[Matrix(Cm1)], Matrix(Cm2) := s.c2[Matrix(Cm2)], Matrix(Const) := ConstExt(m, key)];
    assert names[0] in kw && names[1] in kw && names[2] in kw;
    assert ExactOn(names, kw);
    CustomExtsExact(m, key);
    JoinExact(names, CustomExts(m.air), kw, CustomExtKw(m, key));
  }

  lemma QuotientScalarsExact<S>(m: Machine, inst: Instance, s: Staged<S>)
    requires ValidMachine(m)
    ensures ExactOn([Publics, AirValues, ProofValues, ChallengesName, AirgroupValues, Zi], QuotientScalars(m, inst, s))
  {
    hide ValidMachine, ZiOf;
    var names := [Publics, AirValues, ProofValues, ChallengesName, AirgroupValues, Zi];
    assert names[0] == Publics && names[1] == AirValues && names[2] == ProofValues;
    assert names[3] == ChallengesName && names[4] == AirgroupValues && names[5] == Zi;
  }

  lemma QuotientExact<S>(m: Machine, key: Key, inst: Instance, s: Staged<S>)
    requires ValidMachine(m) && Committed(s)
    ensures Exact(m, Quotient, QuotientKw(m, key, inst, s))
  {
    hide ValidMachine, QuotientSections, QuotientScalars;
    QuotientSectionsExact(m, key, s);
    QuotientScalarsExact(m, inst, s);
    JoinExact([Matrix(Cm1), Matrix(Cm2), Matrix(Const)] + CustomExts(m.air),
              [Publics, AirValues, ProofValues, ChallengesName, AirgroupValues, Zi],
              QuotientSections(m, key, s), QuotientScalars(m, inst, s));
  }

  lemma RowsExact<S>(m: Machine, key: Key, inst: Instance, s: Staged<S>, size: nat, rows: Words)
    requires ValidMachine(m) && Committed(s)
    ensures Exact(m, QuotientRows(size), QuotientKw(m, key, inst, s)[Rows := rows])
  {
    hide ValidMachine, QuotientKw;
    QuotientExact(m, key, inst, s);
    assert [Rows][0] == Rows;
    JoinExact(Inputs(m.air, Quotient), [Rows], QuotientKw(m, key, inst, s), map[Rows := rows]);
    assert QuotientKw(m, key, inst, s)[Rows := rows] == QuotientKw(m, key, inst, s) + map[Rows := rows];
  }

  /** The quotient's window `k`: the whole domain when there is one window. */
  ghost function QuotientPart<S>(m: Machine, key: Key, inst: Instance, s: Staged<S>, k: nat): Words
    requires ValidMachine(m) && Committed(s) && k < |m.air.quotientChunks|
  {
    var chunks := m.air.quotientChunks;
    var rows := Range(WindowStart(chunks, k), chunks[k]);
    QuotientExact(m, key, inst, s);
    RowsExact(m, key, inst, s, chunks[k], rows);
    assert Outputs(m.air, Quotient)[0] == Q == Outputs(m.air, QuotientRows(chunks[k]))[0];
    if |chunks| == 1 then Call(m, Quotient, QuotientKw(m, key, inst, s))[Q]
    else Call(m, QuotientRows(chunks[k]), QuotientKw(m, key, inst, s)[Rows := rows])[Q]
  }

  ghost function QuotientParts<S>(m: Machine, key: Key, inst: Instance, s: Staged<S>, n: nat): (parts: seq<Words>)
    requires ValidMachine(m) && Committed(s) && n <= |m.air.quotientChunks|
    ensures |parts| == n
  {
    if n == 0 then [] else QuotientParts(m, key, inst, s, n - 1) + [QuotientPart(m, key, inst, s, n - 1)]
  }

  datatype Divided<+S> = Divided(qc: Env, t: S, challenges: seq<Words>)

  /** `quotient_commit` over the windows' values. */
  ghost function QuotientCommitOut(m: Machine, parts: seq<Words>): (qc: Env)
    requires ValidMachine(m) && |parts| == |m.air.quotientChunks|
    ensures Matrix(QSec) in qc && Root(QSec) in qc && forall n: Name :: n in qc <==> n in Outputs(m.air, QuotientCommit)
  {
    assert Outputs(m.air, QuotientCommit)[1] == Root(QSec) && Outputs(m.air, QuotientCommit)[0] == Matrix(QSec);
    Call(m, QuotientCommit, Numbered(QNames(|m.air.quotientChunks|), parts))
  }

  ghost function Divide<S>(m: Machine, h: Host<S>, key: Key, inst: Instance, s: Staged<S>): Divided<S>
    requires ValidMachine(m) && Committed(s)
  {
    var qc := QuotientCommitOut(m, QuotientParts(m, key, inst, s, |m.air.quotientChunks|));
    var (t, challenges) := Squeeze(h, h.put(s.t, qc[Root(QSec)]), s.challenges, StageIds(m.air.challenges, NSTAGES + 2));
    Divided(qc, t, challenges)
  }

  // ------------------------------------------------------------------ evaluations

  function XiOf(m: Machine, challenges: seq<Words>): Words { NamedAt(m.air.challenges, challenges, "std_xi") }

  ghost function LevOf(m: Machine, challenges: seq<Words>): Words
    requires ValidMachine(m)
  {
    assert Outputs(m.air, Lev)[0] == LevName;
    Call(m, Lev, map[Xi := XiOf(m, challenges)])[LevName]
  }

  ghost function SectionKw<S>(m: Machine, key: Key, s: Staged<S>, d: Divided<S>): Env
    requires ValidMachine(m) && Committed(s) && Matrix(QSec) in d.qc
  {
    map[Matrix(Cm1) := s.c1[Matrix(Cm1)], Matrix(Cm2) := s.c2[Matrix(Cm2)], Matrix(QSec) := d.qc[Matrix(QSec)],
        Matrix(Const) := ConstExt(m, key)]
    + CustomExtKw(m, key)
  }

  /** Every section is there, and nothing else. */
  lemma SectionsExact<S>(m: Machine, key: Key, s: Staged<S>, d: Divided<S>)
    requires ValidMachine(m) && Committed(s) && Matrix(QSec) in d.qc
    ensures ExactOn(Sections(m.air), SectionKw(m, key, s, d))
  {
    var names := [Matrix(Cm1), Matrix(Cm2), Matrix(QSec), Matrix(Const)];
    var kw := map[Matrix(Cm1) := s.c1[Matrix(Cm1)], Matrix(Cm2) := s.c2[Matrix(Cm2)],
                  Matrix(QSec) := d.qc[Matrix(QSec)], Matrix(Const) := ConstExt(m, key)];
    assert names[0] in kw && names[1] in kw && names[2] in kw && names[3] in kw;
    assert ExactOn(names, kw);
    CustomExtsExact(m, key);
    JoinExact(names, CustomExts(m.air), kw, CustomExtKw(m, key));
  }

  /** Keywords `more` after the sections complete a program that declares them in that order. */
  lemma SectionsAnd<S>(m: Machine, key: Key, s: Staged<S>, d: Divided<S>, p: Program, extra: seq<Name>, more: Env)
    requires ValidMachine(m) && Committed(s) && Matrix(QSec) in d.qc && Inputs(m.air, p) == Sections(m.air) + extra
    requires ExactOn(extra, more)
    ensures Exact(m, p, SectionKw(m, key, s, d) + more)
  {
    SectionsExact(m, key, s, d);
    JoinExact(Sections(m.air), extra, SectionKw(m, key, s, d), more);
  }

  function EvalsMore(lev: Words, start: nat): Env { map[LevName := lev, Start := StartOf(start)] }

  ghost function EvalsPart<S>(m: Machine, key: Key, s: Staged<S>, d: Divided<S>, k: nat): Words
    requires ValidMachine(m) && Committed(s) && Matrix(QSec) in d.qc && k < |m.air.evalsChunks|
  {
    var size := m.air.evalsChunks[k];
    var more := EvalsMore(LevOf(m, d.challenges), WindowStart(m.air.evalsChunks, k));
    SectionsAnd(m, key, s, d, EvalsRows(size), [LevName, Start], more);
    assert Outputs(m.air, EvalsRows(size))[0] == Evals;
    Call(m, EvalsRows(size), SectionKw(m, key, s, d) + more)[Evals]
  }

  ghost function EvalsParts<S>(m: Machine, key: Key, s: Staged<S>, d: Divided<S>, n: nat): (parts: seq<Words>)
    requires ValidMachine(m) && Committed(s) && Matrix(QSec) in d.qc && n <= |m.air.evalsChunks|
    ensures |parts| == n
  {
    if n == 0 then [] else EvalsParts(m, key, s, d, n - 1) + [EvalsPart(m, key, s, d, n - 1)]
  }

  datatype Opened<+S> = Opened(evals: Words, t: S, challenges: seq<Words>)

  ghost function EvalsSumOut(m: Machine, parts: seq<Words>): Words
    requires ValidMachine(m) && |parts| == |m.air.evalsChunks|
  {
    assert Outputs(m.air, EvalsSum)[0] == Evals;
    Call(m, EvalsSum, Numbered(EvalsNames(|m.air.evalsChunks|), parts))[Evals]
  }

  ghost function OpenAtXi<S>(m: Machine, h: Host<S>, key: Key, s: Staged<S>, d: Divided<S>): Opened<S>
    requires ValidMachine(m) && Committed(s) && Matrix(QSec) in d.qc
  {
    var evals := EvalsSumOut(m, EvalsParts(m, key, s, d, |m.air.evalsChunks|));
    var (t, challenges) := Squeeze(h, h.section(d.t, evals, m.air.hashCommits), d.challenges, StageIds(m.air.challenges, NSTAGES + 3));
    Opened(evals, t, challenges)
  }

  // ------------------------------------------------------------------------- DEEP

  ghost function DeepMore<S>(m: Machine, d: Divided<S>, o: Opened<S>, start: nat): Env
    requires ValidMachine(m)
  {
    map[Evals := o.evals, Domain := DomainOf(m), Xi := XiOf(m, d.challenges),
        Vf1 := NamedAt(m.air.challenges, o.challenges, "std_vf1"),
        Vf2 := NamedAt(m.air.challenges, o.challenges, "std_vf2"), Start := StartOf(start)]
  }

  ghost function DeepPart<S>(m: Machine, key: Key, s: Staged<S>, d: Divided<S>, o: Opened<S>, k: nat): Words
    requires ValidMachine(m) && Committed(s) && Matrix(QSec) in d.qc && k < |m.air.deepChunks|
  {
    var size := m.air.deepChunks[k];
    var more := DeepMore(m, d, o, WindowStart(m.air.deepChunks, k));
    SectionsAnd(m, key, s, d, DeepRows(size), [Evals, Domain, Xi, Vf1, Vf2, Start], more);
    assert Outputs(m.air, DeepRows(size))[0] == FriPol;
    Call(m, DeepRows(size), SectionKw(m, key, s, d) + more)[FriPol]
  }

  ghost function DeepParts<S>(m: Machine, key: Key, s: Staged<S>, d: Divided<S>, o: Opened<S>, n: nat): (parts: seq<Words>)
    requires ValidMachine(m) && Committed(s) && Matrix(QSec) in d.qc && n <= |m.air.deepChunks|
    ensures |parts| == n
  {
    if n == 0 then [] else DeepParts(m, key, s, d, o, n - 1) + [DeepPart(m, key, s, d, o, n - 1)]
  }

  ghost function DeepConcatOut(m: Machine, parts: seq<Words>): Words
    requires ValidMachine(m) && |parts| == |m.air.deepChunks|
  {
    assert Outputs(m.air, DeepConcat)[0] == FriPol;
    Call(m, DeepConcat, Numbered(FriPolNames(|m.air.deepChunks|), parts))[FriPol]
  }

  ghost function Composition<S>(m: Machine, key: Key, s: Staged<S>, d: Divided<S>, o: Opened<S>): Words
    requires ValidMachine(m) && Committed(s) && Matrix(QSec) in d.qc
  {
    DeepConcatOut(m, DeepParts(m, key, s, d, o, |m.air.deepChunks|))
  }

  // -------------------------------------------------------------------------- FRI

  datatype Folded<+S> = Folded(layers: seq<Env>, roots: seq<Words>, codeword: Words, t: S)

  /** Round `i`: commit, absorb the root, squeeze beta, fold. */
  ghost function FoldRound<S>(m: Machine, h: Host<S>, f: Folded<S>, i: nat): Folded<S>
    requires ValidMachine(m)
  {
    var layer := Call(m, FriCommit(i), map[Codeword := f.codeword]);
    assert Outputs(m.air, FriCommit(i))[1] == Root(Fri(i));
    var root := layer[Root(Fri(i))];
    var (t, beta) := h.field(h.put(f.t, root));
    assert Outputs(m.air, FriFold(i))[0] == Codeword;
    var codeword := Call(m, FriFold(i), map[Codeword := f.codeword, Beta := beta])[Codeword];
    Folded(f.layers + [layer], f.roots + [root], codeword, t)
  }

  /** FRI after `n` rounds. */
  ghost function Fold<S>(m: Machine, h: Host<S>, codeword: Words, t: S, n: nat): (f: Folded<S>)
    requires ValidMachine(m)
    ensures |f.layers| == |f.roots| == n
  {
    if n == 0 then Folded([], [], codeword, t) else FoldRound(m, h, Fold(m, h, codeword, t, n - 1), n - 1)
  }

  datatype Closed = Closed(finalPol: Words, nonce: Words, positions: Words)

  ghost function Close<S>(m: Machine, h: Host<S>, f: Folded<S>): Closed
    requires ValidMachine(m)
  {
    assert Outputs(m.air, FriFinal)[0] == FinalPol && Outputs(m.air, Grind)[0] == Nonce;
    var finalPol := Call(m, FriFinal, map[Codeword := f.codeword])[FinalPol];
    var (_, challenge) := h.field(h.section(f.t, finalPol, m.air.hashCommits));
    var nonce := Call(m, Grind, map[ChallengeName := challenge])[Nonce];
    Closed(finalPol, nonce, h.positions(challenge, nonce))
  }

  // --------------------------------------------------------------------- openings

  ghost function OpenKw(t: Tree, matrix: Words, layers: Env, positions: Words): Env {
    layers[Matrix(t) := matrix][Positions := positions]
  }

  /** A whole set of layers of one tree. */
  ghost predicate AllLayers(air: Air, t: Tree, layers: Env) {
    && (forall k: nat {:trigger Layer(t, k)} | k < air.depth(t) :: Layer(t, k) in layers)
    && (forall n: Name :: n in layers ==> n.Layer? && n.tree == t && n.k < air.depth(t))
  }

  lemma OpenExact(m: Machine, t: Tree, matrix: Words, layers: Env, positions: Words)
    requires AllLayers(m.air, t, layers)
    ensures Exact(m, Open(t), OpenKw(t, matrix, layers, positions))
  {
    var names, kw := Inputs(m.air, Open(t)), OpenKw(t, matrix, layers, positions);
    forall i: nat {:trigger names[i]} | i < |names| ensures names[i] in kw {
      if 1 <= i < |names| - 1 { assert names[i] == Layer(t, i - 1); }
    }
    assert names[0] == Matrix(t) && names[|names| - 1] == Positions;
    forall n: Name | n in kw ensures n in names {
      if n in layers { assert names[1 + n.k] == n; }
    }
  }

  lemma SetupLayersAll(m: Machine, t: Tree, out: Env, p: Program)
    requires Outputs(m.air, p) == [Root(t), Matrix(t)] + SetupLayers(m.air, t)
    requires forall n: Name :: n in out <==> n in Outputs(m.air, p)
    ensures AllLayers(m.air, t, LayersOf(out, t, m.air.depth(t)))
  {
    var layers := LayersOf(out, t, m.air.depth(t));
    forall k: nat {:trigger Layer(t, k)} | k < m.air.depth(t) ensures Layer(t, k) in layers {
      assert Outputs(m.air, p)[2 + k] == SetupLayer(t, k);
    }
  }

  lemma OwnLayersAll(m: Machine, t: Tree, out: Env, p: Program)
    requires |Outputs(m.air, p)| == 2 + m.air.depth(t) && Outputs(m.air, p)[2..] == Layers(m.air, t)
    requires forall n: Name :: n in out <==> n in Outputs(m.air, p)
    ensures AllLayers(m.air, t, OwnLayers(out, t, m.air.depth(t)))
  {
    var layers := OwnLayers(out, t, m.air.depth(t));
    forall k: nat {:trigger Layer(t, k)} | k < m.air.depth(t) ensures Layer(t, k) in layers {
      assert Outputs(m.air, p)[2..][k] == Layer(t, k) == Outputs(m.air, p)[2 + k];
    }
  }

  /** One tree's openings at the positions: the flat group proofs and the last level. */
  ghost function OpenTree(m: Machine, t: Tree, matrix: Words, layers: Env, positions: Words): (Words, Words)
    requires ValidMachine(m) && AllLayers(m.air, t, layers)
  {
    OpenExact(m, t, matrix, layers, positions);
    var out := Call(m, Open(t), OpenKw(t, matrix, layers, positions));
    assert Outputs(m.air, Open(t))[0] == Openings(t) && Outputs(m.air, Open(t))[1] == LastLevel(t);
    (out[Openings(t)], out[LastLevel(t)])
  }

  // ------------------------------------------------------------------ the whole proof

  /** `n` rows of `w` words. */
  function Times(n: nat, w: nat): nat { if n == 0 then 0 else Times(n - 1, w) + w }

  function RowsIn(flat: Words, n: nat, w: nat): (rows: seq<Words>)
    requires |flat| == Times(n, w)
    ensures |rows| == n && forall q: nat {:trigger rows[q]} | q < n :: |rows[q]| == w
    decreases n
  {
    if n == 0 then [] else RowsIn(flat[..Times(n - 1, w)], n - 1, w) + [flat[Times(n - 1, w)..]]
  }

  function TreeWidth(air: Air, t: Tree): nat {
    match t
    case Const => air.nConstants
    case Custom(ci) => air.customWidths(ci)
    case Cm1 => air.cm1
    case Cm2 => air.cm2
    case QSec => air.qsec
    case Fri(i) => if i + 1 < |air.steps| && air.steps[i + 1] <= air.steps[i]
                   then Wire.Pow2(air.steps[i] - air.steps[i + 1]) * 3 else 0
  }

  function TreeBits(air: Air, t: Tree): nat {
    match t
    case Fri(i) => if i + 1 < |air.steps| then air.steps[i + 1] else 0
    case _ => if |air.steps| > 0 then air.steps[0] else 0
  }

  /** The words of a group proof: the row, then the whole path. */
  function RowWords(air: Air, t: Tree): nat { TreeWidth(air, t) + Wire.Levels(TreeBits(air, t)) * Wire.PER_LEVEL }

  /** The sizes the manifest declares for a program's outputs. */
  predicate Sized(air: Air, p: Program, outs: seq<Words>) {
    |outs| == |Outputs(air, p)| &&
    match p
    case Commit1 => |outs[0]| == Wire.DIGEST
    case Logup => |outs[|outs| - 1]| == Wire.PackedWidth(air.airvalues) && (air.airgroupIndex >= 0 ==> |outs[1]| == 3)
    case Commit2 => |outs[0]| == Wire.DIGEST
    case QuotientCommit => |outs[1]| == Wire.DIGEST
    case EvalsSum => |outs[0]| == 3 * air.evMap
    case FriCommit(_) => |outs[1]| == Wire.DIGEST
    case FriFinal => |air.steps| > 0 ==> |outs[0]| == Wire.Pow2(air.steps[|air.steps| - 1]) * 3
    case Grind => |outs[0]| == 1
    case Open(t) => |outs[0]| == Times(air.nQueries, RowWords(air, t)) && |outs[1]| == Wire.LastLevelWords(air.llv)
    case _ => true
  }

  ghost predicate SizedMachine(m: Machine) {
    forall p: Program, args: seq<Words> {:trigger m.exec(p, args)} :: Sized(m.air, p, m.exec(p, args))
  }

  /** A schedule the exporter writes: increasing custom ids, challenges and the
      airgroup value's index in range, at least one window everywhere, a decreasing
      folding schedule, and no more levels verified than there are. */
  ghost predicate ValidAir(air: Air) {
    && (forall i: nat, j: nat {:trigger air.customs[i], air.customs[j]} | i < j < |air.customs| :: air.customs[i] < air.customs[j])
    && air.airgroupIndex < |air.airgroupvalues|
    && |air.quotientChunks| > 0 && |air.evalsChunks| > 0 && |air.deepChunks| > 0
    && (forall i: nat {:trigger air.challenges[i]} | i < |air.challenges| :: air.challenges[i].id < |air.challenges|)
    && Wire.ValidShape(ShapeOf(air))
  }

  function ShapeOf(air: Air): Wire.Shape {
    Wire.Shape(air.airgroupvalues, air.airvalues, air.evMap, air.nConstants,
               seq(|air.customs|, (i: nat) requires i < |air.customs| => air.customWidths(air.customs[i])),
               air.cm1, air.cm2, air.qsec, air.steps, air.nQueries, air.llv)
  }

  /** The wire pieces of one tree's openings. */
  ghost function Opening(m: Machine, t: Tree, matrix: Words, layers: Env, positions: Words): Wire.TreeOpening
    requires ValidMachine(m) && SizedMachine(m) && AllLayers(m.air, t, layers) && m.air.llv <= Wire.Levels(TreeBits(m.air, t))
  {
    var (flat, last) := OpenTree(m, t, matrix, layers, positions);
    OpenTreeSized(m, t, matrix, layers, positions);
    Wire.Convert(RowsIn(flat, m.air.nQueries, RowWords(m.air, t)), last, TreeWidth(m.air, t),
                 Wire.Levels(TreeBits(m.air, t)) - m.air.llv)
  }

  lemma OpenTreeSized(m: Machine, t: Tree, matrix: Words, layers: Env, positions: Words)
    requires ValidMachine(m) && SizedMachine(m) && AllLayers(m.air, t, layers)
    ensures |OpenTree(m, t, matrix, layers, positions).0| == Times(m.air.nQueries, RowWords(m.air, t))
    ensures |OpenTree(m, t, matrix, layers, positions).1| == Wire.LastLevelWords(m.air.llv)
  {
    var kw := OpenKw(t, matrix, layers, positions);
    OpenExact(m, t, matrix, layers, positions);
    OutputAt(m, Open(t), kw, 0);
    OutputAt(m, Open(t), kw, 1);
  }

  /** A tree of the key or of a stage: its section and layers. */
  datatype TreeData = TreeData(matrix: Words, layers: Env)

  ghost function KeyTree(m: Machine, t: Tree, out: Env): TreeData
    requires Matrix(t) in out
  {
    TreeData(out[Matrix(t)], LayersOf(out, t, m.air.depth(t)))
  }

  ghost function OwnTree(m: Machine, t: Tree, out: Env): TreeData
    requires Matrix(t) in out
  {
    TreeData(out[Matrix(t)], OwnLayers(out, t, m.air.depth(t)))
  }

  ghost function ConstTree(m: Machine, key: Key): (c: TreeData)
    requires ValidMachine(m)
    ensures AllLayers(m.air, Const, c.layers)
  {
    assert Outputs(m.air, ConstSetup)[1] == Matrix(Const);
    SetupLayersAll(m, Const, ConstOut(m, key), ConstSetup);
    KeyTree(m, Const, ConstOut(m, key))
  }

  ghost function CustomTree(m: Machine, key: Key, ci: nat): (c: TreeData)
    requires ValidMachine(m)
    ensures AllLayers(m.air, Custom(ci), c.layers)
  {
    assert Outputs(m.air, CustomSetup(ci))[1] == Matrix(Custom(ci));
    SetupLayersAll(m, Custom(ci), CustomOut(m, key, ci), CustomSetup(ci));
    KeyTree(m, Custom(ci), CustomOut(m, key, ci))
  }

  /** `out` is what a commit program of tree `t` returned. */
  ghost predicate IsCommit(m: Machine, t: Tree, p: Program, out: Env) {
    && |Outputs(m.air, p)| == 2 + m.air.depth(t) && Outputs(m.air, p)[2..] == Layers(m.air, t)
    && Matrix(t) in out && Root(t) in out && forall n: Name :: n in out <==> n in Outputs(m.air, p)
  }

  ghost function StageTree(m: Machine, t: Tree, p: Program, out: Env): (c: TreeData)
    requires IsCommit(m, t, p, out)
    ensures AllLayers(m.air, t, c.layers)
  {
    OwnLayersAll(m, t, out, p);
    OwnTree(m, t, out)
  }

  ghost predicate Foldable(m: Machine, layers: seq<Env>) {
    forall i: nat {:trigger layers[i]} | i < |layers| :: IsCommit(m, Fri(i), FriCommit(i), layers[i])
  }

  function Fold1(position: nat, bits: nat): nat { position % Wire.Pow2(bits) }

  /** The positions in a layer of 2^bits leaves. */
  function FoldPositions(positions: Words, bits: nat): Words {
    seq(|positions|, (i: nat) requires i < |positions| => Fold1(positions[i], bits))
  }

  lemma StagesCommit<S>(m: Machine, h: Host<S>, key: Key, inst: Instance)
    requires ValidMachine(m)
    ensures IsCommit(m, Cm1, Commit1, Stages(m, h, key, inst).c1) && IsCommit(m, Cm2, Commit2, Stages(m, h, key, inst).c2)
  {
    StagesCommitted(m, h, key, inst);
  }

  lemma DivideCommits<S>(m: Machine, h: Host<S>, key: Key, inst: Instance, s: Staged<S>)
    requires ValidMachine(m) && Committed(s)
    ensures IsCommit(m, QSec, QuotientCommit, Divide(m, h, key, inst, s).qc)
  {
    assert Outputs(m.air, QuotientCommit)[1] == Root(QSec) && Outputs(m.air, QuotientCommit)[0] == Matrix(QSec);
  }

  lemma RoundCommits(m: Machine, i: nat, kw: Env)
    requires ValidMachine(m) && ExactOn([Codeword], kw)
    ensures IsCommit(m, Fri(i), FriCommit(i), Call(m, FriCommit(i), kw))
  {
    assert Outputs(m.air, FriCommit(i))[1] == Root(Fri(i)) && Outputs(m.air, FriCommit(i))[0] == Matrix(Fri(i));
  }

  lemma FoldLayers<S>(m: Machine, h: Host<S>, codeword: Words, t: S, n: nat)
    requires ValidMachine(m) && n > 0
    ensures Fold(m, h, codeword, t, n).layers
         == Fold(m, h, codeword, t, n - 1).layers
            + [Call(m, FriCommit(n - 1), map[Codeword := Fold(m, h, codeword, t, n - 1).codeword])]
  {
  }

  lemma FoldCommitsNext(m: Machine, n: nat, layers: seq<Env>, last: Words)
    requires ValidMachine(m) && Foldable(m, layers) && |layers| == n
    ensures Foldable(m, layers + [Call(m, FriCommit(n), map[Codeword := last])])
  {
    RoundCommits(m, n, map[Codeword := last]);
    FoldableNext(m, layers, Call(m, FriCommit(n), map[Codeword := last]));
  }

  lemma {:induction false} FoldCommits<S>(m: Machine, h: Host<S>, codeword: Words, t: S, n: nat)
    requires ValidMachine(m)
    ensures Foldable(m, Fold(m, h, codeword, t, n).layers)
  {
    if n > 0 {
      FoldCommits(m, h, codeword, t, n - 1);
      FoldLayers(m, h, codeword, t, n);
      FoldCommitsNext(m, n - 1, Fold(m, h, codeword, t, n - 1).layers, Fold(m, h, codeword, t, n - 1).codeword);
    }
  }

  lemma FoldableNext(m: Machine, layers: seq<Env>, layer: Env)
    requires Foldable(m, layers) && IsCommit(m, Fri(|layers|), FriCommit(|layers|), layer)
    ensures Foldable(m, layers + [layer])
  {
    var all := layers + [layer];
    forall i: nat {:trigger all[i]} | i < |all| ensures IsCommit(m, Fri(i), FriCommit(i), all[i]) {
      if i < |layers| { assert all[i] == layers[i]; }
    }
  }

  /** No more levels are verified than a tree has. */
  lemma Verifiable(air: Air, t: Tree)
    requires ValidAir(air) && (t.Fri? ==> t.round + 1 < |air.steps|)
    ensures air.llv <= Wire.Levels(TreeBits(air, t))
  {
    assert ShapeOf(air).steps == air.steps;
    if t.Fri? { assert air.steps[t.round + 1] == ShapeOf(air).steps[t.round + 1]; } else { assert air.steps[0] == ShapeOf(air).steps[0]; }
  }

  ghost function OpeningOf(m: Machine, t: Tree, c: TreeData, positions: Words): Wire.TreeOpening
    requires ValidMachine(m) && SizedMachine(m) && ValidAir(m.air) && AllLayers(m.air, t, c.layers)
    requires t.Fri? ==> t.round + 1 < |m.air.steps|
  {
    Verifiable(m.air, t);
    Opening(m, t, c.matrix, c.layers, positions)
  }

  ghost function CustomOpenings(m: Machine, key: Key, positions: Words): seq<Wire.TreeOpening>
    requires ValidMachine(m) && SizedMachine(m) && ValidAir(m.air)
  {
    seq(|m.air.customs|, (i: nat) requires i < |m.air.customs| =>
      OpeningOf(m, Custom(m.air.customs[i]), CustomTree(m, key, m.air.customs[i]), positions))
  }

  ghost function FriOpenings(m: Machine, layers: seq<Env>, positions: Words): seq<Wire.TreeOpening>
    requires ValidMachine(m) && SizedMachine(m) && ValidAir(m.air) && Foldable(m, layers) && |layers| < |m.air.steps|
  {
    seq(|layers|, (i: nat) requires i < |layers| =>
      OpeningOf(m, Fri(i), StageTree(m, Fri(i), FriCommit(i), layers[i]), FoldPositions(positions, m.air.steps[i + 1])))
  }

  /** Everything a prove computes before its openings. */
  datatype Run<+S> = Run(s: Staged<S>, d: Divided<S>, o: Opened<S>, f: Folded<S>, c: Closed)

  ghost predicate ValidRun<S>(m: Machine, r: Run<S>) {
    && IsCommit(m, Cm1, Commit1, r.s.c1) && IsCommit(m, Cm2, Commit2, r.s.c2) && IsCommit(m, QSec, QuotientCommit, r.d.qc)
    && Foldable(m, r.f.layers) && |r.f.layers| == |m.air.steps| - 1
  }

  ghost function RunOf<S>(m: Machine, h: Host<S>, key: Key, inst: Instance): (r: Run<S>)
    requires ValidMachine(m) && |m.air.steps| > 0
  {
    StagesCommitted(m, h, key, inst);
    var s := Stages(m, h, key, inst);
    var d := Divide(m, h, key, inst, s);
    var o := OpenAtXi(m, h, key, s, d);
    var f := Fold(m, h, Composition(m, key, s, d, o), o.t, |m.air.steps| - 1);
    Run(s, d, o, f, Close(m, h, f))
  }

  lemma RunValid<S>(m: Machine, h: Host<S>, key: Key, inst: Instance)
    requires ValidMachine(m) && |m.air.steps| > 0
    ensures ValidRun(m, RunOf(m, h, key, inst))
  {
    hide ValidMachine, Stages, Divide, Fold, Composition, OpenAtXi, Close, Committed;
    var r := RunOf(m, h, key, inst);
    StagesCommitted(m, h, key, inst);
    StagesCommit(m, h, key, inst);
    DivideCommits(m, h, key, inst, r.s);
    FoldCommits(m, h, Composition(m, key, r.s, r.d, r.o), r.o.t, |m.air.steps| - 1);
  }

  ghost function WireProof<S>(m: Machine, key: Key, r: Run<S>): Wire.Proof
    requires ValidMachine(m) && SizedMachine(m) && ValidAir(m.air) && ValidRun(m, r)
  {
    var p := r.c.positions;
    Wire.Proof(Flatten(r.s.airgroup), r.s.airvalues, [r.s.c1[Root(Cm1)], r.s.c2[Root(Cm2)], r.d.qc[Root(QSec)]], r.o.evals,
               OpeningOf(m, Const, ConstTree(m, key), p), CustomOpenings(m, key, p),
               [OpeningOf(m, Cm1, StageTree(m, Cm1, Commit1, r.s.c1), p),
                OpeningOf(m, Cm2, StageTree(m, Cm2, Commit2, r.s.c2), p),
                OpeningOf(m, QSec, StageTree(m, QSec, QuotientCommit, r.d.qc), p)],
               r.f.roots, FriOpenings(m, r.f.layers, p), r.c.finalPol, if |r.c.nonce| > 0 then r.c.nonce[0] else 0)
  }

  /** The proof's words, the airgroup values and the stage-2 air values, or the
      serializer's assertion. */
  ghost function Prove<S>(m: Machine, h: Host<S>, key: Key, inst: Instance): Wire.Result<(Words, Words, Words)>
    requires ValidMachine(m) && SizedMachine(m) && ValidAir(m.air)
  {
    assert |ShapeOf(m.air).steps| == |m.air.steps|;
    RunValid(m, h, key, inst);
    var r := RunOf(m, h, key, inst);
    match Wire.Serialized(ShapeOf(m.air), WireProof(m, key, r))
    case Ok(words) => Wire.Ok((words, Flatten(r.s.airgroup), r.s.airvalues))
    case Err => Wire.Err
  }
}
