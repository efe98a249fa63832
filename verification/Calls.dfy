/** What each program of a run is handed, keyword by keyword, and where what it returns goes. */
module Calls {
  import opened AirPrograms
  import opened Replay
  import Wire

  /** A keyword and its value. */
  predicate Given(kw: Env, n: Name, v: Words) { n in kw && kw[n] == v }

  /** Called with exactly its declared inputs, the program returns `v` as its output `n`. */
  ghost predicate Returns(m: Machine, p: Program, kw: Env, n: Name, v: Words)
    requires ValidMachine(m)
  {
    Exact(m, p, kw) && Given(Call(m, p, kw), n, v)
  }

  /** An output by its name. */
  lemma ReturnsOutput(m: Machine, p: Program, kw: Env, i: nat)
    requires ValidMachine(m) && Exact(m, p, kw) && i < |Outputs(m.air, p)|
    ensures Outputs(m.air, p)[i] in Call(m, p, kw)
    ensures Returns(m, p, kw, Outputs(m.air, p)[i], Call(m, p, kw)[Outputs(m.air, p)[i]])
  {
    hide ValidMachine, Exact;
    assert Outputs(m.air, p)[i] in Outputs(m.air, p);
  }

  ghost predicate CustomBasesGiven(m: Machine, key: Key, kw: Env) {
    forall ci: nat {:trigger Base(Custom(ci))} | ci in m.air.customs :: Given(kw, Base(Custom(ci)), key.customBase(ci))
  }

  // ----------------------------------------------------------------------- stages 1, 2

  lemma WitnessReads(m: Machine, key: Key, inst: Instance)
    ensures var kw := WitnessKw(m, key, inst);
            && CustomBasesGiven(m, key, kw) && Given(kw, Trace, inst.trace) && Given(kw, Base(Const), key.constBase)
            && Given(kw, Publics, inst.publics) && Given(kw, AirValues, inst.airvalues) && Given(kw, ProofValues, inst.proofvalues)
  {
  }

  /** The first stage's witness program, when there is one: the instance's own trace and
      scalars and the key's base sections, and nothing else; its trace is what is committed. */
  lemma WitnessCall(m: Machine, key: Key, inst: Instance) returns (kw: Env)
    requires ValidMachine(m)
    ensures Exact(m, WitnessCalc, kw) && CustomBasesGiven(m, key, kw)
    ensures Given(kw, Trace, inst.trace) && Given(kw, Base(Const), key.constBase)
    ensures Given(kw, Publics, inst.publics) && Given(kw, AirValues, inst.airvalues) && Given(kw, ProofValues, inst.proofvalues)
    ensures if m.air.witnessCalc then Returns(m, WitnessCalc, kw, Trace, TraceOf(m, key, inst)) else TraceOf(m, key, inst) == inst.trace
  {
    hide ValidMachine, Call, WitnessKw, CustomBasesGiven, Exact;
    kw := WitnessKw(m, key, inst);
    WitnessReads(m, key, inst);
    WitnessExact(m, key, inst);
    assert Outputs(m.air, WitnessCalc)[0] == Trace;
    ReturnsOutput(m, WitnessCalc, kw, 0);
  }

  lemma LogupReads(m: Machine, key: Key, inst: Instance, challenges: seq<Words>)
    requires ValidMachine(m)
    ensures var kw := LogupKw(m, key, inst, challenges);
            && CustomBasesGiven(m, key, kw) && Given(kw, Trace, TraceOf(m, key, inst)) && Given(kw, Base(Const), key.constBase)
            && Given(kw, Publics, inst.publics) && Given(kw, AirValues, inst.airvalues) && Given(kw, ProofValues, inst.proofvalues)
            && Given(kw, ChallengesName, Flatten(challenges))
  {
    hide ValidMachine, TraceOf, Flatten;
  }

  /** The second stage's witness program: the committed trace, the instance's scalars and the
      challenges drawn so far, flattened. */
  lemma LogupCall(m: Machine, key: Key, inst: Instance, challenges: seq<Words>) returns (kw: Env)
    requires ValidMachine(m)
    ensures Exact(m, Logup, kw) && CustomBasesGiven(m, key, kw)
    ensures Given(kw, Trace, TraceOf(m, key, inst)) && Given(kw, Base(Const), key.constBase)
    ensures Given(kw, Publics, inst.publics) && Given(kw, AirValues, inst.airvalues) && Given(kw, ProofValues, inst.proofvalues)
    ensures Given(kw, ChallengesName, Flatten(challenges))
    ensures LogupOut(m, key, inst, challenges) == Call(m, Logup, kw)
  {
    hide ValidMachine, Call, TraceOf, Flatten, LogupKw, CustomBasesGiven, Exact;
    kw := LogupKw(m, key, inst, challenges);
    LogupReads(m, key, inst, challenges);
    LogupExact(m, key, inst, challenges);
  }

  /** The stages of a run: what is committed, where the air values come from, and the
      airgroup values, zero but at the manifest's index. */
  lemma StagesAre<S>(m: Machine, h: Host<S>, key: Key, inst: Instance) returns (lg: Env, challenges: seq<Words>)
    requires ValidMachine(m)
    ensures challenges == Seeded(m, h, inst).1 && lg == LogupOut(m, key, inst, challenges)
    ensures var s := Stages(m, h, key, inst);
            && s.c1 == Call(m, Commit1, map[Trace := TraceOf(m, key, inst)])
            && s.c2 == Call(m, Commit2, map[Cm2Base := lg[Cm2Base]])
            && s.airvalues == lg[AirValues] && |s.airgroup| == |m.air.airgroupvalues|
            && forall i: nat {:trigger s.airgroup[i]} | i < |s.airgroup| ::
                 s.airgroup[i] == if AirgroupValue in lg && i == m.air.airgroupIndex then lg[AirgroupValue] else [0, 0, 0]
  {
    hide ValidMachine, Call, TraceOf, LogupOut, Seeded, AbsorbStage2, Squeeze, StageIds;
    challenges := Seeded(m, h, inst).1;
    lg := LogupOut(m, key, inst, challenges);
    assert Zeros(3) == [0, 0, 0];
  }

  // ---------------------------------------------------------------------- the sections

  /** The key's extended sections are what the setup programs return for its base ones. */
  ghost predicate KeySectionsGiven(m: Machine, key: Key, kw: Env)
    requires ValidMachine(m)
  {
    && Matrix(Const) in kw && Returns(m, ConstSetup, map[Base(Const) := key.constBase], Matrix(Const), kw[Matrix(Const)])
    && forall ci: nat {:trigger Matrix(Custom(ci))} | ci in m.air.customs ::
         && Matrix(Custom(ci)) in kw
         && Returns(m, CustomSetup(ci), map[Base(Custom(ci)) := key.customBase(ci)], Matrix(Custom(ci)), kw[Matrix(Custom(ci))])
  }

  lemma SetupReturns(m: Machine, key: Key)
    requires ValidMachine(m)
    ensures Returns(m, ConstSetup, map[Base(Const) := key.constBase], Matrix(Const), ConstExt(m, key))
  {
    hide ValidMachine, Call;
    assert Outputs(m.air, ConstSetup)[1] == Matrix(Const);
    ReturnsOutput(m, ConstSetup, map[Base(Const) := key.constBase], 1);
  }

  lemma CustomReturns(m: Machine, key: Key, ci: nat)
    requires ValidMachine(m)
    ensures Matrix(Custom(ci)) in CustomOut(m, key, ci)
    ensures Returns(m, CustomSetup(ci), map[Base(Custom(ci)) := key.customBase(ci)], Matrix(Custom(ci)), CustomOut(m, key, ci)[Matrix(Custom(ci))])
  {
    hide ValidMachine, Call;
    assert Outputs(m.air, CustomSetup(ci))[1] == Matrix(Custom(ci));
    ReturnsOutput(m, CustomSetup(ci), map[Base(Custom(ci)) := key.customBase(ci)], 1);
  }

  lemma KeySectionsOf(m: Machine, key: Key, kw: Env)
    requires ValidMachine(m) && Given(kw, Matrix(Const), ConstExt(m, key))
    requires forall n: Name :: n in CustomExtKw(m, key) ==> Given(kw, n, CustomExtKw(m, key)[n])
    ensures KeySectionsGiven(m, key, kw)
  {
    hide ValidMachine, Returns, ConstExt, CustomOut;
    SetupReturns(m, key);
    forall ci: nat {:trigger Matrix(Custom(ci))} | ci in m.air.customs
      ensures Matrix(Custom(ci)) in kw
      ensures Returns(m, CustomSetup(ci), map[Base(Custom(ci)) := key.customBase(ci)], Matrix(Custom(ci)), kw[Matrix(Custom(ci))])
    {
      CustomReturns(m, key, ci);
      assert Matrix(Custom(ci)) in CustomExtKw(m, key);
    }
  }

  // ---------------------------------------------------------------------- the quotient

  /** A quotient window: the two stages' and the key's sections, the scalars with the air
      values the second stage computed, all challenges and airgroup values, and the inverse
      zerofier; with several windows also the window's own rows, from where those before it
      end. */
  lemma QuotientCall<S>(m: Machine, key: Key, inst: Instance, s: Staged<S>, k: nat) returns (kw: Env)
    requires ValidMachine(m) && Committed(s) && k < |m.air.quotientChunks|
    ensures Given(kw, Matrix(Cm1), s.c1[Matrix(Cm1)]) && Given(kw, Matrix(Cm2), s.c2[Matrix(Cm2)]) && KeySectionsGiven(m, key, kw)
    ensures Given(kw, Publics, inst.publics) && Given(kw, AirValues, s.airvalues) && Given(kw, ProofValues, inst.proofvalues)
    ensures Given(kw, ChallengesName, Flatten(s.challenges)) && Given(kw, AirgroupValues, Flatten(s.airgroup))
    ensures Zi in kw && Returns(m, Constants, map[], Zi, kw[Zi])
    ensures if |m.air.quotientChunks| == 1 then Returns(m, Quotient, kw, Q, QuotientPart(m, key, inst, s, k))
            else Returns(m, QuotientRows(m.air.quotientChunks[k]),
                         kw[Rows := seq(m.air.quotientChunks[k], (i: nat) => WindowStart(m.air.quotientChunks, k) + i)],
                         Q, QuotientPart(m, key, inst, s, k))
  {
    hide ValidMachine, Returns, KeySectionsGiven, QuotientPart, Given, Flatten, ConstExt, ZiOf;
    kw := QuotientKw(m, key, inst, s);
    QuotientReads(m, key, inst, s);
    QuotientPartIs(m, key, inst, s, k);
  }

  lemma QuotientSectionsRead<S>(m: Machine, key: Key, s: Staged<S>)
    requires ValidMachine(m) && Committed(s)
    ensures var kw := QuotientSections(m, key, s);
            Given(kw, Matrix(Cm1), s.c1[Matrix(Cm1)]) && Given(kw, Matrix(Cm2), s.c2[Matrix(Cm2)]) && KeySectionsGiven(m, key, kw)
  {
    hide ValidMachine, Call, ConstExt, CustomOut, Returns, KeySectionsGiven;
    KeySectionsOf(m, key, QuotientSections(m, key, s));
  }

  lemma QuotientScalarsRead<S>(m: Machine, inst: Instance, s: Staged<S>)
    requires ValidMachine(m)
    ensures var kw := QuotientScalars(m, inst, s);
            && Given(kw, Publics, inst.publics) && Given(kw, AirValues, s.airvalues) && Given(kw, ProofValues, inst.proofvalues)
            && Given(kw, ChallengesName, Flatten(s.challenges)) && Given(kw, AirgroupValues, Flatten(s.airgroup))
            && Zi in kw && Returns(m, Constants, map[], Zi, kw[Zi])
            && forall n: Name {:trigger n in kw} :: n in kw ==> !n.Matrix?
  {
    hide ValidMachine, Returns, Flatten, ZiOf;
    ConstantsReturn(m);
  }

  /** Sections stay what they are under keywords that name none. */
  lemma SectionsStay(m: Machine, key: Key, kw: Env, more: Env)
    requires ValidMachine(m) && KeySectionsGiven(m, key, kw) && forall n: Name {:trigger n in more} :: n in more ==> !n.Matrix?
    ensures KeySectionsGiven(m, key, kw + more)
  {
    hide ValidMachine, Returns;
  }

  lemma QuotientReads<S>(m: Machine, key: Key, inst: Instance, s: Staged<S>)
    requires ValidMachine(m) && Committed(s)
    ensures var kw := QuotientKw(m, key, inst, s);
            && Given(kw, Matrix(Cm1), s.c1[Matrix(Cm1)]) && Given(kw, Matrix(Cm2), s.c2[Matrix(Cm2)]) && KeySectionsGiven(m, key, kw)
            && Given(kw, Publics, inst.publics) && Given(kw, AirValues, s.airvalues) && Given(kw, ProofValues, inst.proofvalues)
            && Given(kw, ChallengesName, Flatten(s.challenges)) && Given(kw, AirgroupValues, Flatten(s.airgroup))
            && Zi in kw && Returns(m, Constants, map[], Zi, kw[Zi])
  {
    hide ValidMachine, Returns, KeySectionsGiven, Flatten, QuotientSections, QuotientScalars;
    QuotientSectionsRead(m, key, s);
    QuotientScalarsRead(m, inst, s);
    SectionsStay(m, key, QuotientSections(m, key, s), QuotientScalars(m, inst, s));
  }

  lemma ConstantsReturn(m: Machine)
    requires ValidMachine(m)
    ensures Returns(m, Constants, map[], Zi, ZiOf(m)) && Returns(m, Constants, map[], Domain, DomainOf(m))
  {
    hide ValidMachine, Call;
    assert Outputs(m.air, Constants)[0] == Zi && Outputs(m.air, Constants)[1] == Domain;
    ReturnsOutput(m, Constants, map[], 0);
    ReturnsOutput(m, Constants, map[], 1);
  }

  lemma QuotientPartIs<S>(m: Machine, key: Key, inst: Instance, s: Staged<S>, k: nat)
    requires ValidMachine(m) && Committed(s) && k < |m.air.quotientChunks|
    ensures var kw, size := QuotientKw(m, key, inst, s), m.air.quotientChunks[k];
            if |m.air.quotientChunks| == 1 then Returns(m, Quotient, kw, Q, QuotientPart(m, key, inst, s, k))
            else Returns(m, QuotientRows(size), kw[Rows := seq(size, (i: nat) => WindowStart(m.air.quotientChunks, k) + i)],
                         Q, QuotientPart(m, key, inst, s, k))
  {
    hide ValidMachine, Call, QuotientKw, Returns;
    var kw, size := QuotientKw(m, key, inst, s), m.air.quotientChunks[k];
    var rows := Range(WindowStart(m.air.quotientChunks, k), size);
    assert rows == seq(size, (i: nat) => WindowStart(m.air.quotientChunks, k) + i);
    QuotientExact(m, key, inst, s);
    RowsExact(m, key, inst, s, size, rows);
    assert Outputs(m.air, Quotient)[0] == Q == Outputs(m.air, QuotientRows(size))[0];
    ReturnsOutput(m, Quotient, kw, 0);
    ReturnsOutput(m, QuotientRows(size), kw[Rows := rows], 0);
  }
  // ------------------------------------------------------------------ the windows' parts

  /** Windows meet: the first starts at row 0, and each where the one before it ends. */
  lemma WindowsMeet(sizes: seq<nat>, k: nat)
    requires k < |sizes|
    ensures WindowStart(sizes, 0) == 0 && WindowStart(sizes, k + 1) == WindowStart(sizes, k) + sizes[k]
  {
  }

  lemma NumberedAt(names: seq<Name>, parts: seq<Words>, i: nat)
    requires |names| == |parts| && Distinct(names) && i < |names|
    ensures Given(Numbered(names, parts), names[i], parts[i])
  {
    ZipAt(names, parts, i);
  }

  lemma NumbersDistinct(n: nat)
    ensures Distinct(QNames(n)) && Distinct(EvalsNames(n)) && Distinct(FriPolNames(n))
  {
  }

  lemma {:induction false} QuotientPartAt<S>(m: Machine, key: Key, inst: Instance, s: Staged<S>, n: nat, k: nat)
    requires ValidMachine(m) && Committed(s) && k < n <= |m.air.quotientChunks|
    ensures QuotientParts(m, key, inst, s, n)[k] == QuotientPart(m, key, inst, s, k)
  {
    hide ValidMachine, QuotientPart;
    if k < n - 1 { QuotientPartAt(m, key, inst, s, n - 1, k); }
  }

  lemma {:induction false} EvalsPartAt<S>(m: Machine, key: Key, s: Staged<S>, d: Divided<S>, n: nat, k: nat)
    requires ValidMachine(m) && Committed(s) && Matrix(QSec) in d.qc && k < n <= |m.air.evalsChunks|
    ensures EvalsParts(m, key, s, d, n)[k] == EvalsPart(m, key, s, d, k)
  {
    hide ValidMachine, EvalsPart;
    if k < n - 1 { EvalsPartAt(m, key, s, d, n - 1, k); }
  }

  lemma {:induction false} DeepPartAt<S>(m: Machine, key: Key, s: Staged<S>, d: Divided<S>, o: Opened<S>, n: nat, k: nat)
    requires ValidMachine(m) && Committed(s) && Matrix(QSec) in d.qc && k < n <= |m.air.deepChunks|
    ensures DeepParts(m, key, s, d, o, n)[k] == DeepPart(m, key, s, d, o, k)
  {
    hide ValidMachine, DeepPart;
    if k < n - 1 { DeepPartAt(m, key, s, d, o, n - 1, k); }
  }

  /** The quotient is committed from its windows, window `k` as the k-th of them. */
  lemma QuotientCommitCall<S>(m: Machine, h: Host<S>, key: Key, inst: Instance, s: Staged<S>) returns (kw: Env)
    requires ValidMachine(m) && Committed(s)
    ensures Exact(m, QuotientCommit, kw) && Divide(m, h, key, inst, s).qc == Call(m, QuotientCommit, kw)
    ensures forall k: nat {:trigger QOf(k)} | k < |m.air.quotientChunks| :: Given(kw, QOf(k), QuotientPart(m, key, inst, s, k))
  {
    hide ValidMachine, Call, QuotientParts, QuotientPart, Squeeze, StageIds, Given, Distinct, Numbered;
    var n := |m.air.quotientChunks|;
    var names, parts := QNames(n), QuotientParts(m, key, inst, s, n);
    NumbersDistinct(n);
    kw := Numbered(names, parts);
    forall k: nat {:trigger QOf(k)} | k < n ensures Given(kw, QOf(k), QuotientPart(m, key, inst, s, k)) {
      assert names[k] == QOf(k);
      NumberedAt(names, parts, k);
      QuotientPartAt(m, key, inst, s, n, k);
    }
  }

  /** The evaluations are the sum program's over the windows' values, window by window. */
  lemma EvalsSumCall<S>(m: Machine, h: Host<S>, key: Key, s: Staged<S>, d: Divided<S>) returns (kw: Env)
    requires ValidMachine(m) && Committed(s) && Matrix(QSec) in d.qc
    ensures Returns(m, EvalsSum, kw, Evals, OpenAtXi(m, h, key, s, d).evals)
    ensures forall k: nat {:trigger EvalsOf(k)} | k < |m.air.evalsChunks| :: Given(kw, EvalsOf(k), EvalsPart(m, key, s, d, k))
  {
    hide ValidMachine, Call, EvalsParts, EvalsPart, Squeeze, StageIds, Given, Distinct, Numbered;
    var n := |m.air.evalsChunks|;
    var names, parts := EvalsNames(n), EvalsParts(m, key, s, d, n);
    NumbersDistinct(n);
    kw := Numbered(names, parts);
    forall k: nat {:trigger EvalsOf(k)} | k < n ensures Given(kw, EvalsOf(k), EvalsPart(m, key, s, d, k)) {
      assert names[k] == EvalsOf(k);
      NumberedAt(names, parts, k);
      EvalsPartAt(m, key, s, d, n, k);
    }
    assert Outputs(m.air, EvalsSum)[0] == Evals;
    ReturnsOutput(m, EvalsSum, kw, 0);
  }

  /** What FRI folds is the concatenation program's over the windows' values. */
  lemma DeepConcatCall<S>(m: Machine, key: Key, s: Staged<S>, d: Divided<S>, o: Opened<S>) returns (kw: Env)
    requires ValidMachine(m) && Committed(s) && Matrix(QSec) in d.qc
    ensures Returns(m, DeepConcat, kw, FriPol, Composition(m, key, s, d, o))
    ensures forall k: nat {:trigger FriPolOf(k)} | k < |m.air.deepChunks| :: Given(kw, FriPolOf(k), DeepPart(m, key, s, d, o, k))
  {
    hide ValidMachine, Call, DeepParts, DeepPart, Given, Distinct, Numbered;
    var n := |m.air.deepChunks|;
    var names, parts := FriPolNames(n), DeepParts(m, key, s, d, o, n);
    NumbersDistinct(n);
    kw := Numbered(names, parts);
    forall k: nat {:trigger FriPolOf(k)} | k < n ensures Given(kw, FriPolOf(k), DeepPart(m, key, s, d, o, k)) {
      assert names[k] == FriPolOf(k);
      NumberedAt(names, parts, k);
      DeepPartAt(m, key, s, d, o, n, k);
    }
    assert Outputs(m.air, DeepConcat)[0] == FriPol;
    ReturnsOutput(m, DeepConcat, kw, 0);
  }

  // -------------------------------------------------------------- evaluations and DEEP

  /** A challenge by its name: the value under the id of the first that bears it. */
  lemma {:induction false} NamedIs(challenges: seq<Challenge>, values: seq<Words>, name: string, i: nat)
    requires i < |challenges| && challenges[i].name == name && challenges[i].id < |values|
    requires forall j: nat {:trigger challenges[j]} | j < i :: challenges[j].name != name
    ensures NamedAt(challenges, values, name) == values[challenges[i].id]
    decreases i
  {
    if i > 0 {
      assert challenges[0].name != name;
      assert forall j: nat {:trigger challenges[1..][j]} | j < i - 1 :: challenges[1..][j] == challenges[j + 1];
      NamedIs(challenges[1..], values, name, i - 1);
    }
  }

  ghost predicate SectionsGiven<S>(m: Machine, key: Key, s: Staged<S>, d: Divided<S>, kw: Env)
    requires ValidMachine(m) && Committed(s) && Matrix(QSec) in d.qc
  {
    && Given(kw, Matrix(Cm1), s.c1[Matrix(Cm1)]) && Given(kw, Matrix(Cm2), s.c2[Matrix(Cm2)])
    && Given(kw, Matrix(QSec), d.qc[Matrix(QSec)]) && KeySectionsGiven(m, key, kw)
  }

  lemma SectionsRead<S>(m: Machine, key: Key, s: Staged<S>, d: Divided<S>)
    requires ValidMachine(m) && Committed(s) && Matrix(QSec) in d.qc
    ensures SectionsGiven(m, key, s, d, SectionKw(m, key, s, d))
  {
    hide ValidMachine, Call, ConstExt, CustomOut, Returns, KeySectionsGiven;
    KeySectionsOf(m, key, SectionKw(m, key, s, d));
  }

  lemma SectionsKept<S>(m: Machine, key: Key, s: Staged<S>, d: Divided<S>, more: Env)
    requires ValidMachine(m) && Committed(s) && Matrix(QSec) in d.qc
    requires forall n: Name {:trigger n in more} :: n in more ==> !n.Matrix?
    ensures SectionsGiven(m, key, s, d, SectionKw(m, key, s, d) + more)
  {
    hide ValidMachine, Returns, KeySectionsGiven, SectionKw;
    SectionsRead(m, key, s, d);
    SectionsStay(m, key, SectionKw(m, key, s, d), more);
  }

  /** An evaluation window: all sections, the opening columns computed at xi, and the row
      the window starts at. */
  lemma EvalsCall<S>(m: Machine, key: Key, s: Staged<S>, d: Divided<S>, k: nat) returns (kw: Env)
    requires ValidMachine(m) && Committed(s) && Matrix(QSec) in d.qc && k < |m.air.evalsChunks|
    ensures SectionsGiven(m, key, s, d, kw) && Given(kw, Start, [WindowStart(m.air.evalsChunks, k)])
    ensures LevName in kw && Returns(m, Lev, map[Xi := NamedAt(m.air.challenges, d.challenges, "std_xi")], LevName, kw[LevName])
    ensures Returns(m, EvalsRows(m.air.evalsChunks[k]), kw, Evals, EvalsPart(m, key, s, d, k))
  {
    hide ValidMachine, Call, SectionKw, SectionsGiven, NamedAt, LevOf;
    var size := m.air.evalsChunks[k];
    var more := EvalsMore(LevOf(m, d.challenges), WindowStart(m.air.evalsChunks, k));
    kw := SectionKw(m, key, s, d) + more;
    SectionsKept(m, key, s, d, more);
    LevReturns(m, d.challenges);
    SectionsAnd(m, key, s, d, EvalsRows(size), [LevName, Start], more);
    assert Outputs(m.air, EvalsRows(size))[0] == Evals;
    ReturnsOutput(m, EvalsRows(size), kw, 0);
  }

  lemma LevReturns(m: Machine, challenges: seq<Words>)
    requires ValidMachine(m)
    ensures Returns(m, Lev, map[Xi := NamedAt(m.air.challenges, challenges, "std_xi")], LevName, LevOf(m, challenges))
  {
    hide ValidMachine, Call, NamedAt;
    assert Outputs(m.air, Lev)[0] == LevName;
    ReturnsOutput(m, Lev, map[Xi := XiOf(m, challenges)], 0);
  }

  lemma DeepMoreReads<S>(m: Machine, d: Divided<S>, o: Opened<S>, start: nat)
    requires ValidMachine(m)
    ensures var kw := DeepMore(m, d, o, start);
            && Given(kw, Evals, o.evals) && Given(kw, Domain, DomainOf(m))
            && Given(kw, Xi, NamedAt(m.air.challenges, d.challenges, "std_xi"))
            && Given(kw, Vf1, NamedAt(m.air.challenges, o.challenges, "std_vf1"))
            && Given(kw, Vf2, NamedAt(m.air.challenges, o.challenges, "std_vf2"))
            && Given(kw, Start, [start])
  {
    hide ValidMachine, DomainOf, NamedAt;
  }

  lemma DeepMoreNames<S>(m: Machine, d: Divided<S>, o: Opened<S>, start: nat)
    requires ValidMachine(m)
    ensures DeepMore(m, d, o, start).Keys == {Evals, Domain, Xi, Vf1, Vf2, Start}
  {
    hide ValidMachine, DomainOf, NamedAt, StartOf;
  }

  lemma SixExact(a: Name, b: Name, c: Name, d: Name, e: Name, f: Name, kw: Env)
    requires kw.Keys == {a, b, c, d, e, f}
    ensures ExactOn([a, b, c, d, e, f], kw)
  {
    var names := [a, b, c, d, e, f];
    assert names[0] == a && names[1] == b && names[2] == c && names[3] == d && names[4] == e && names[5] == f;
  }

  /** A DEEP window: all sections, the evaluations, the domain of the constants program, xi
      as it was before the evaluations, the two batching challenges drawn after them, and
      the row the window starts at. */
  lemma DeepCall<S>(m: Machine, key: Key, s: Staged<S>, d: Divided<S>, o: Opened<S>, k: nat) returns (kw: Env)
    requires ValidMachine(m) && Committed(s) && Matrix(QSec) in d.qc && k < |m.air.deepChunks|
    ensures SectionsGiven(m, key, s, d, kw) && Given(kw, Evals, o.evals)
    ensures Domain in kw && Returns(m, Constants, map[], Domain, kw[Domain])
    ensures Given(kw, Xi, NamedAt(m.air.challenges, d.challenges, "std_xi"))
    ensures Given(kw, Vf1, NamedAt(m.air.challenges, o.challenges, "std_vf1"))
    ensures Given(kw, Vf2, NamedAt(m.air.challenges, o.challenges, "std_vf2"))
    ensures Given(kw, Start, [WindowStart(m.air.deepChunks, k)])
    ensures Returns(m, DeepRows(m.air.deepChunks[k]), kw, FriPol, DeepPart(m, key, s, d, o, k))
  {
    hide ValidMachine, Call, SectionKw, SectionsGiven, NamedAt, DomainOf, DeepMore;
    var size := m.air.deepChunks[k];
    var more := DeepMore(m, d, o, WindowStart(m.air.deepChunks, k));
    DeepMoreReads(m, d, o, WindowStart(m.air.deepChunks, k));
    DeepMoreNames(m, d, o, WindowStart(m.air.deepChunks, k));
    SixExact(Evals, Domain, Xi, Vf1, Vf2, Start, more);
    kw := SectionKw(m, key, s, d) + more;
    SectionsKept(m, key, s, d, more);
    ConstantsReturn(m);
    SectionsAnd(m, key, s, d, DeepRows(size), [Evals, Domain, Xi, Vf1, Vf2, Start], more);
    assert Outputs(m.air, DeepRows(size))[0] == FriPol;
    ReturnsOutput(m, DeepRows(size), kw, 0);
  }

  // ---------------------------------------------------------------------- the openings

  /** The rows are the flat words cut every `w`. */
  lemma {:induction false} RowsAre(flat: Words, n: nat, w: nat, q: nat)
    requires |flat| == Times(n, w) && q < n
    ensures Times(q, w) + w <= |flat| && RowsIn(flat, n, w)[q] == flat[Times(q, w)..Times(q, w) + w]
    decreases n
  {
    if q < n - 1 { RowsAre(flat[..Times(n - 1, w)], n - 1, w, q); }
  }

  lemma {:induction false} TimesIs(n: nat, w: nat)
    ensures Times(n, w) == n * w
  {
    if n > 0 { TimesIs(n - 1, w); }
  }

  /** The tree's program was handed `c`'s section, all its digest layers and the positions. */
  ghost predicate OpenGiven(air: Air, t: Tree, c: TreeData, positions: Words, kw: Env) {
    && Given(kw, Matrix(t), c.matrix) && Given(kw, Positions, positions)
    && forall k: nat {:trigger Layer(t, k)} | k < air.depth(t) :: Layer(t, k) in c.layers && Given(kw, Layer(t, k), c.layers[Layer(t, k)])
  }

  lemma OpenReads(air: Air, t: Tree, c: TreeData, positions: Words)
    requires AllLayers(air, t, c.layers)
    ensures OpenGiven(air, t, c, positions, OpenKw(t, c.matrix, c.layers, positions))
  {
  }

  /** What a tree's program returns when handed these: its flat group proofs and last level. */
  lemma OpenTreeReturns(m: Machine, t: Tree, c: TreeData, positions: Words) returns (kw: Env)
    requires ValidMachine(m) && AllLayers(m.air, t, c.layers)
    ensures OpenGiven(m.air, t, c, positions, kw)
    ensures Returns(m, Open(t), kw, Openings(t), OpenTree(m, t, c.matrix, c.layers, positions).0)
    ensures Returns(m, Open(t), kw, LastLevel(t), OpenTree(m, t, c.matrix, c.layers, positions).1)
  {
    hide ValidMachine, Call, OpenGiven, OpenKw, AllLayers;
    kw := OpenKw(t, c.matrix, c.layers, positions);
    OpenReads(m.air, t, c, positions);
    OpenExact(m, t, c.matrix, c.layers, positions);
    assert Outputs(m.air, Open(t))[0] == Openings(t) && Outputs(m.air, Open(t))[1] == LastLevel(t);
    ReturnsOutput(m, Open(t), kw, 0);
    ReturnsOutput(m, Open(t), kw, 1);
  }

  /** A tree's opening: query `q` is cut from row `q` of what the tree's program returns,
      its leaf first, then the siblings the wire keeps. */
  lemma OpenCall(m: Machine, t: Tree, c: TreeData, positions: Words, q: nat) returns (kw: Env, flat: Words)
    requires ValidMachine(m) && SizedMachine(m) && ValidAir(m.air) && AllLayers(m.air, t, c.layers)
    requires (t.Fri? ==> t.round + 1 < |m.air.steps|) && q < m.air.nQueries
    ensures OpenGiven(m.air, t, c, positions, kw) && Returns(m, Open(t), kw, Openings(t), flat)
    ensures var o, at, width := OpeningOf(m, t, c, positions), Times(q, RowWords(m.air, t)), TreeWidth(m.air, t);
            var siblings := (Wire.Levels(TreeBits(m.air, t)) - m.air.llv) * Wire.PER_LEVEL;
            && Returns(m, Open(t), kw, LastLevel(t), o.lastLevel) && |o.rows| == |o.paths| == m.air.nQueries
            && at == q * RowWords(m.air, t) && 0 <= at + width <= at + width + siblings <= |flat|
            && o.rows[q] == flat[at..at + width] && o.paths[q] == flat[at + width..at + width + siblings]
  {
    hide ValidMachine, SizedMachine, ValidAir, Call, Wire.Levels, TreeWidth, TreeBits, OpenGiven, RowsIn, Returns, OpenTree, AllLayers, Times;
    kw := OpenTreeReturns(m, t, c, positions);
    flat := OpenTree(m, t, c.matrix, c.layers, positions).0;
    Verifiable(m.air, t);
    OpenTreeSized(m, t, c.matrix, c.layers, positions);
    RowsAre(flat, m.air.nQueries, RowWords(m.air, t), q);
    TimesIs(q, RowWords(m.air, t));
    var levels, width := Wire.Levels(TreeBits(m.air, t)), TreeWidth(m.air, t);
    var siblings := (levels - m.air.llv) * Wire.PER_LEVEL;
    assert siblings + m.air.llv * Wire.PER_LEVEL == levels * Wire.PER_LEVEL;
    SliceTwice(flat, Times(q, RowWords(m.air, t)), RowWords(m.air, t), 0, width);
    SliceTwice(flat, Times(q, RowWords(m.air, t)), RowWords(m.air, t), width, width + siblings);
  }

  lemma SliceTwice(s: Words, at: nat, n: nat, lo: nat, hi: nat)
    requires lo <= hi <= n && at + n <= |s|
    ensures s[at..at + n][lo..hi] == s[at + lo..at + hi]
  {
    var row := s[at..at + n];
    assert forall k: nat {:trigger row[k]} | k < n :: row[k] == s[at + k];
  }

  /** A key tree opens the section and the layers its setup program returned, the layers
      under the opening program's names. */
  lemma KeyTreesAre(m: Machine, key: Key, k: nat)
    requires ValidMachine(m)
    ensures Returns(m, ConstSetup, map[Base(Const) := key.constBase], Matrix(Const), ConstTree(m, key).matrix)
    ensures k < m.air.depth(Const) ==>
              (&& Layer(Const, k) in ConstTree(m, key).layers
               && Returns(m, ConstSetup, map[Base(Const) := key.constBase], SetupLayer(Const, k), ConstTree(m, key).layers[Layer(Const, k)]))
  {
    hide ValidMachine, Call;
    SetupReturns(m, key);
    assert Outputs(m.air, ConstSetup)[1] == Matrix(Const);
    if k < m.air.depth(Const) {
      assert Outputs(m.air, ConstSetup)[2 + k] == SetupLayer(Const, k);
      ReturnsOutput(m, ConstSetup, map[Base(Const) := key.constBase], 2 + k);
    }
  }

  lemma CustomTreesAre(m: Machine, key: Key, ci: nat, k: nat)
    requires ValidMachine(m)
    ensures Returns(m, CustomSetup(ci), map[Base(Custom(ci)) := key.customBase(ci)], Matrix(Custom(ci)), CustomTree(m, key, ci).matrix)
    ensures k < m.air.depth(Custom(ci)) ==>
              (&& Layer(Custom(ci), k) in CustomTree(m, key, ci).layers
               && Returns(m, CustomSetup(ci), map[Base(Custom(ci)) := key.customBase(ci)], SetupLayer(Custom(ci), k),
                          CustomTree(m, key, ci).layers[Layer(Custom(ci), k)]))
  {
    hide ValidMachine, Call;
    CustomReturns(m, key, ci);
    assert Outputs(m.air, CustomSetup(ci))[1] == Matrix(Custom(ci));
    if k < m.air.depth(Custom(ci)) {
      assert Outputs(m.air, CustomSetup(ci))[2 + k] == SetupLayer(Custom(ci), k);
      ReturnsOutput(m, CustomSetup(ci), map[Base(Custom(ci)) := key.customBase(ci)], 2 + k);
    }
  }

  /** A committed tree opens its commit program's own section and layers. */
  lemma StageTreeIs(m: Machine, t: Tree, p: Program, out: Env, k: nat)
    requires IsCommit(m, t, p, out) && k < m.air.depth(t)
    ensures var c := StageTree(m, t, p, out);
            c.matrix == out[Matrix(t)] && Layer(t, k) in c.layers && Layer(t, k) in out && c.layers[Layer(t, k)] == out[Layer(t, k)]
  {
    assert Outputs(m.air, p)[2..][k] == Layer(t, k);
  }

  /** FRI layer `i` is opened at the positions modulo its number of leaves. */
  lemma FriOpened(m: Machine, layers: seq<Env>, positions: Words, i: nat, folded: Words)
    requires ValidMachine(m) && SizedMachine(m) && ValidAir(m.air) && Foldable(m, layers) && i < |layers| < |m.air.steps|
    requires |folded| == |positions|
    requires forall j: nat {:trigger folded[j]} | j < |positions| :: folded[j] == positions[j] % Wire.Pow2(m.air.steps[i + 1])
    ensures FriOpenings(m, layers, positions)[i]
         == OpeningOf(m, Fri(i), StageTree(m, Fri(i), FriCommit(i), layers[i]), folded)
  {
    hide ValidMachine, SizedMachine, ValidAir, OpeningOf, StageTree, IsCommit;
    assert FoldPositions(positions, m.air.steps[i + 1]) == folded;
  }

  /** What a run's proof is made of: the values, roots and polynomials the run computed, and
      each tree opened at the run's positions. */
  lemma ProofIs<S>(m: Machine, key: Key, r: Run<S>)
    requires ValidMachine(m) && SizedMachine(m) && ValidAir(m.air) && ValidRun(m, r)
    ensures var p, at := WireProof(m, key, r), r.c.positions;
            && p.airgroupValues == Flatten(r.s.airgroup) && p.airValues == r.s.airvalues && p.evals == r.o.evals
            && p.roots == [r.s.c1[Root(Cm1)], r.s.c2[Root(Cm2)], r.d.qc[Root(QSec)]] && p.friRoots == r.f.roots
            && p.finalPol == r.c.finalPol && (|r.c.nonce| > 0 ==> p.nonce == r.c.nonce[0])
            && p.const_ == OpeningOf(m, Const, ConstTree(m, key), at) && |p.customs| == |m.air.customs| && |p.stages| == 3
            && p.stages[0] == OpeningOf(m, Cm1, StageTree(m, Cm1, Commit1, r.s.c1), at)
            && p.stages[1] == OpeningOf(m, Cm2, StageTree(m, Cm2, Commit2, r.s.c2), at)
            && p.stages[2] == OpeningOf(m, QSec, StageTree(m, QSec, QuotientCommit, r.d.qc), at)
            && p.fri == FriOpenings(m, r.f.layers, at)
            && forall i: nat {:trigger p.customs[i]} | i < |m.air.customs| ::
                 p.customs[i] == OpeningOf(m, Custom(m.air.customs[i]), CustomTree(m, key, m.air.customs[i]), at)
  {
    hide ValidMachine, SizedMachine, ValidAir, OpeningOf, ConstTree, CustomTree, StageTree, FriOpenings, IsCommit, Foldable, Flatten;
  }
}
