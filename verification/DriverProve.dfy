/** The rest of a prove over the driver's map: evaluations, DEEP, FRI, the openings
    and the wire, and the driver object that keeps the key's sections between proves. */
module DriverProve {
  import opened AirPrograms
  import opened Replay
  import opened Driver
  import Wire

  // ------------------------------------------------------------------- evaluations

  /** The four stage and constant sections, under their names. */
  ghost predicate MatricesIn<S>(m: Machine, key: Key, s: Staged<S>, d: Divided<S>, env: Env)
    requires ValidMachine(m)
  {
    && Committed(s) && Matrix(QSec) in d.qc
    && Matrix(Cm1) in env && env[Matrix(Cm1)] == s.c1[Matrix(Cm1)] && Matrix(Cm2) in env && env[Matrix(Cm2)] == s.c2[Matrix(Cm2)]
    && Matrix(QSec) in env && env[Matrix(QSec)] == d.qc[Matrix(QSec)]
    && Matrix(Const) in env && env[Matrix(Const)] == ConstExt(m, key)
  }

  lemma OpenMatrices<S>(m: Machine, key: Key, s: Staged<S>, d: Divided<S>, env: Env)
    requires ValidMachine(m) && OpenIn(m, key, s, d, env)
    ensures MatricesIn(m, key, s, d, env)
  {
    ConstTreeIs(m, key);
  }

  lemma MatricesRead<S>(m: Machine, key: Key, s: Staged<S>, d: Divided<S>, env: Env)
    requires ValidMachine(m) && MatricesIn(m, key, s, d, env) && Sub(CustomExtKw(m, key), env)
    ensures Reads(m, key, s, d, env)
  {
    hide ValidMachine, ConstExt, CustomExtKw;
    SubMerge(map[Matrix(Cm1) := s.c1[Matrix(Cm1)], Matrix(Cm2) := s.c2[Matrix(Cm2)],
                 Matrix(QSec) := d.qc[Matrix(QSec)], Matrix(Const) := ConstExt(m, key)], CustomExtKw(m, key), env);
  }

  lemma QSecSectionRead<S>(m: Machine, key: Key, s: Staged<S>, d: Divided<S>, env: Env)
    requires ValidMachine(m) && OpenIn(m, key, s, d, env)
    ensures Reads(m, key, s, d, env)
  {
    OpenMatrices(m, key, s, d, env);
    CustomsRead(m, key, env);
    MatricesRead(m, key, s, d, env);
  }

  /** The sections stay readable whatever scratch names change. */
  ghost predicate Reads<S>(m: Machine, key: Key, s: Staged<S>, d: Divided<S>, env: Env)
    requires ValidMachine(m)
  {
    Committed(s) && Matrix(QSec) in d.qc && Sub(SectionKw(m, key, s, d), env)
  }

  lemma SectionsAreMatrices<S>(m: Machine, key: Key, s: Staged<S>, d: Divided<S>, n: Name)
    requires ValidMachine(m) && Committed(s) && Matrix(QSec) in d.qc && n in SectionKw(m, key, s, d)
    ensures n.Matrix?
  {
    hide ValidMachine, ConstExt, Outputs;
  }

  lemma InsertReads<S>(m: Machine, key: Key, s: Staged<S>, d: Divided<S>, env: Env, n: Name, v: Words)
    requires ValidMachine(m) && Reads(m, key, s, d, env) && !n.Matrix?
    ensures Reads(m, key, s, d, env[n := v])
  {
    hide ValidMachine, SectionKw, Sub;
    if n in SectionKw(m, key, s, d) { SectionsAreMatrices(m, key, s, d, n); }
    SubInsert(SectionKw(m, key, s, d), env, n, v);
  }

  method EvalsWindow<S>(m: Machine, ghost key: Key, ghost s: Staged<S>, ghost d: Divided<S>, env: Env, k: nat) returns (v: Words)
    requires ValidMachine(m) && Reads(m, key, s, d, env) && k < |m.air.evalsChunks|
    requires LevName in env && env[LevName] == LevOf(m, d.challenges)
    requires Start in env && env[Start] == StartOf(WindowStart(m.air.evalsChunks, k))
    ensures v == EvalsPart(m, key, s, d, k)
  {
    hide ValidMachine, SectionKw;
    var size := m.air.evalsChunks[k];
    var outs := RunProgram(m, EvalsRows(size), env);
    ghost var more := EvalsMore(LevOf(m, d.challenges), WindowStart(m.air.evalsChunks, k));
    SectionsAnd(m, key, s, d, EvalsRows(size), [LevName, Start], more);
    SubMerge(SectionKw(m, key, s, d), more, env);
    OutputAgrees(m, EvalsRows(size), SectionKw(m, key, s, d) + more, env, 0);
    v := outs.value[0];
  }

  /** Only `n` is bound differently, if that. */
  ghost predicate OnlyName(n: Name, env: Env, env': Env) {
    forall k: Name {:trigger Same(k, env, env')} :: k != n ==> Same(k, env, env')
  }

  lemma OnlyNameTrans(n: Name, a: Env, b: Env, c: Env)
    requires OnlyName(n, a, b) && OnlyName(n, b, c)
    ensures OnlyName(n, a, c)
  {
    forall k: Name {:trigger Same(k, a, c)} | k != n ensures Same(k, a, c) { assert Same(k, a, b) && Same(k, b, c); }
  }

  lemma InsertOnly(env: Env, n: Name, v: Words)
    ensures OnlyName(n, env, env[n := v]) && OnlyName(n, env, env - {n})
  {
  }

  method NextEvals<S>(m: Machine, ghost key: Key, ghost s: Staged<S>, ghost d: Divided<S>, env: Env, k: nat, start: nat) returns (v: Words, r: Env)
    requires ValidMachine(m) && Reads(m, key, s, d, env) && k < |m.air.evalsChunks| && start == WindowStart(m.air.evalsChunks, k)
    requires LevName in env && env[LevName] == LevOf(m, d.challenges)
    ensures v == EvalsPart(m, key, s, d, k) && Reads(m, key, s, d, r) && OnlyName(Start, env, r)
    ensures LevName in r && r[LevName] == LevOf(m, d.challenges)
  {
    InsertReads(m, key, s, d, env, Start, StartOf(start));
    InsertOnly(env, Start, StartOf(start));
    r := env[Start := StartOf(start)];
    v := EvalsWindow(m, key, s, d, r, k);
  }

  method StepEvals<S>(m: Machine, ghost key: Key, ghost s: Staged<S>, ghost d: Divided<S>, env: Env, eenv: Env, k: nat, start: nat)
    returns (eenv': Env, r: Env)
    requires ValidMachine(m) && Reads(m, key, s, d, env) && k < |m.air.evalsChunks| && start == WindowStart(m.air.evalsChunks, k)
    requires LevName in env && env[LevName] == LevOf(m, d.challenges)
    requires eenv == Numbered(EvalsNames(k), EvalsParts(m, key, s, d, k))
    ensures eenv' == Numbered(EvalsNames(k + 1), EvalsParts(m, key, s, d, k + 1))
    ensures Reads(m, key, s, d, r) && OnlyName(Start, env, r)
    ensures LevName in r && r[LevName] == LevOf(m, d.challenges)
  {
    var v;
    v, r := NextEvals(m, key, s, d, env, k, start);
    NumberedNext(EvalsNames(k), EvalsParts(m, key, s, d, k), EvalsOf(k), v);
    NamesNext(k);
    eenv' := eenv[EvalsOf(k) := v];
  }

  /** The loop's state before window `k`. */
  ghost predicate EvalsAt<S>(m: Machine, key: Key, s: Staged<S>, d: Divided<S>, env: Env, r: Env, eenv: Env, k: nat)
    requires ValidMachine(m) && k <= |m.air.evalsChunks|
  {
    && Reads(m, key, s, d, r) && OnlyName(Start, env, r) && LevName in r && r[LevName] == LevOf(m, d.challenges)
    && eenv == Numbered(EvalsNames(k), EvalsParts(m, key, s, d, k))
  }

  lemma WindowNext(sizes: seq<nat>, k: nat)
    requires k < |sizes|
    ensures WindowStart(sizes, k + 1) == WindowStart(sizes, k) + sizes[k]
  {
  }

  method StepEvalsAt<S>(m: Machine, ghost key: Key, ghost s: Staged<S>, ghost d: Divided<S>, ghost env0: Env, env: Env, eenv: Env, k: nat, start: nat)
    returns (eenv': Env, r: Env, start': nat)
    requires ValidMachine(m) && k < |m.air.evalsChunks| && EvalsAt(m, key, s, d, env0, env, eenv, k)
    requires start == WindowStart(m.air.evalsChunks, k)
    ensures EvalsAt(m, key, s, d, env0, r, eenv', k + 1) && start' == WindowStart(m.air.evalsChunks, k + 1)
  {
    hide ValidMachine, WindowStart, Reads, OnlyName, Numbered, EvalsParts, LevOf, EvalsNames;
    eenv', r := StepEvals(m, key, s, d, env, eenv, k, start);
    OnlyNameTrans(Start, env0, env, r);
    WindowNext(m.air.evalsChunks, k);
    start' := start + m.air.evalsChunks[k];
  }

  method EvalsWindows<S>(m: Machine, ghost key: Key, ghost s: Staged<S>, ghost d: Divided<S>, env: Env) returns (eenv: Env, r: Env)
    requires ValidMachine(m) && EvalsAt(m, key, s, d, env, env, map[], 0)
    ensures EvalsAt(m, key, s, d, env, r, eenv, |m.air.evalsChunks|)
  {
    eenv, r := map[], env;
    var start := 0;
    for k := 0 to |m.air.evalsChunks|
      invariant start == WindowStart(m.air.evalsChunks, k)
      invariant EvalsAt(m, key, s, d, env, r, eenv, k)
    {
      eenv, r, start := StepEvalsAt(m, key, s, d, env, r, eenv, k, start);
    }
  }

  method SumEvals(m: Machine, eenv: Env, ghost parts: seq<Words>) returns (evals: Words)
    requires ValidMachine(m) && |parts| == |m.air.evalsChunks| && eenv == Numbered(EvalsNames(|m.air.evalsChunks|), parts)
    ensures evals == EvalsSumOut(m, parts)
  {
    hide ValidMachine, Numbered;
    var outs := RunProgram(m, EvalsSum, eenv);
    assert Outputs(m.air, EvalsSum)[0] == Evals;
    OutputAt(m, EvalsSum, eenv, 0);
    evals := outs.value[0];
  }

  method NamedChallenge(challenges: seq<Challenge>, values: seq<Words>, name: string) returns (w: Words)
    ensures w == NamedAt(challenges, values, name)
  {
    for i := 0 to |challenges|
      invariant NamedAt(challenges, values, name) == NamedAt(challenges[i..], values, name)
    {
      assert challenges[i..][1..] == challenges[i + 1..];
      if challenges[i].name == name {
        return if challenges[i].id < |values| then values[challenges[i].id] else [];
      }
    }
    return [];
  }

  method RunLev(m: Machine, env: Env, xi: Words, ghost challenges: seq<Words>) returns (r: Env)
    requires ValidMachine(m) && xi == XiOf(m, challenges)
    ensures LevName in r && r[LevName] == LevOf(m, challenges) && Xi in r && r[Xi] == xi && LastingSame(env, r)
  {
    var withXi := env[Xi := xi];
    InsertLasting(env, Xi, xi);
    var outs := RunProgram(m, Lev, withXi);
    OutputAgrees(m, Lev, map[Xi := xi], withXi, 0);
    r := withXi[LevName := outs.value[0]];
    InsertLasting(withXi, LevName, outs.value[0]);
    LastingTrans(env, withXi, r);
  }

  /** The evaluations at the opening points, and the challenges after them. */
  method RunEvals<S>(m: Machine, h: Host<S>, ghost key: Key, ghost s: Staged<S>, ghost d: Divided<S>, env: Env, t: S, challenges: seq<Words>)
    returns (r: Env, evals: Words, t': S, challenges': seq<Words>)
    requires ValidMachine(m) && OpenIn(m, key, s, d, env) && t == d.t && challenges == d.challenges
    ensures Committed(s) && Matrix(QSec) in d.qc
    ensures (evals, t', challenges') == (OpenAtXi(m, h, key, s, d).evals, OpenAtXi(m, h, key, s, d).t, OpenAtXi(m, h, key, s, d).challenges)
    ensures OpenIn(m, key, s, d, r) && Evals in r && r[Evals] == evals && Xi in r && r[Xi] == XiOf(m, d.challenges)
  {
    QSecSectionRead(m, key, s, d, env);
    var xi := NamedChallenge(m.air.challenges, challenges, "std_xi");
    r := RunLev(m, env, xi, d.challenges);
    OpenKept(m, key, s, d, env, r);
    QSecSectionRead(m, key, s, d, r);
    evals, r := FinishEvals(m, key, s, d, r);
    t', challenges' := SqueezeStage(m, h, h.section(t, evals, m.air.hashCommits), challenges, NSTAGES + 3);
  }

  lemma EvalsLasting(env: Env, mid: Env, evals: Words)
    requires OnlyName(Start, env, mid)
    ensures LastingSame(env, (mid - {Start} - {LevName})[Evals := evals])
    ensures Same(Xi, env, (mid - {Start} - {LevName})[Evals := evals])
  {
    var r := (mid - {Start} - {LevName})[Evals := evals];
    assert Same(Xi, env, mid);
    forall n: Name {:trigger Same(n, env, r)} | Lasting(n) ensures Same(n, env, r) { assert Same(n, env, mid); }
  }

  lemma EvalsLeave<S>(m: Machine, key: Key, s: Staged<S>, d: Divided<S>, env: Env, mid: Env, evals: Words)
    requires ValidMachine(m) && OpenIn(m, key, s, d, env) && OnlyName(Start, env, mid)
    ensures OpenIn(m, key, s, d, (mid - {Start} - {LevName})[Evals := evals])
    ensures Same(Xi, env, (mid - {Start} - {LevName})[Evals := evals])
  {
    EvalsLasting(env, mid, evals);
    OpenKept(m, key, s, d, env, (mid - {Start} - {LevName})[Evals := evals]);
  }

  method FinishEvals<S>(m: Machine, ghost key: Key, ghost s: Staged<S>, ghost d: Divided<S>, env: Env) returns (evals: Words, r: Env)
    requires ValidMachine(m) && OpenIn(m, key, s, d, env) && Reads(m, key, s, d, env)
    requires LevName in env && env[LevName] == LevOf(m, d.challenges) && Xi in env && env[Xi] == XiOf(m, d.challenges)
    ensures evals == EvalsSumOut(m, EvalsParts(m, key, s, d, |m.air.evalsChunks|))
    ensures OpenIn(m, key, s, d, r) && Evals in r && r[Evals] == evals && Xi in r && r[Xi] == XiOf(m, d.challenges)
  {
    var eenv;
    eenv, r := EvalsWindows(m, key, s, d, env);
    evals := SumEvals(m, eenv, EvalsParts(m, key, s, d, |m.air.evalsChunks|));
    EvalsLeave(m, key, s, d, env, r, evals);
    r := r - {Start};
    r := r - {LevName};
    r := r[Evals := evals];
  }

  // ------------------------------------------------------------------------- DEEP

  /** What every DEEP window reads besides the sections and its start. */
  ghost function DeepFixed<S>(m: Machine, d: Divided<S>, o: Opened<S>): Env
    requires ValidMachine(m)
  {
    map[Evals := o.evals, Domain := DomainOf(m), Xi := XiOf(m, d.challenges),
        Vf1 := NamedAt(m.air.challenges, o.challenges, "std_vf1"), Vf2 := NamedAt(m.air.challenges, o.challenges, "std_vf2")]
  }

  ghost predicate DeepReady<S>(m: Machine, key: Key, s: Staged<S>, d: Divided<S>, o: Opened<S>, env: Env)
    requires ValidMachine(m)
  {
    Reads(m, key, s, d, env) && Sub(DeepFixed(m, d, o), env)
  }

  lemma DeepMoreExact<S>(m: Machine, d: Divided<S>, o: Opened<S>, start: nat)
    requires ValidMachine(m)
    ensures ExactOn([Evals, Domain, Xi, Vf1, Vf2, Start], DeepMore(m, d, o, start))
    ensures DeepMore(m, d, o, start) == DeepFixed(m, d, o)[Start := StartOf(start)]
  {
    hide ValidMachine, DomainOf, XiOf, NamedAt;
    var names := [Evals, Domain, Xi, Vf1, Vf2, Start];
    assert names[0] == Evals && names[1] == Domain && names[2] == Xi && names[3] == Vf1 && names[4] == Vf2 && names[5] == Start;
  }

  method DeepWindow<S>(m: Machine, ghost key: Key, ghost s: Staged<S>, ghost d: Divided<S>, ghost o: Opened<S>, env: Env, k: nat) returns (v: Words)
    requires ValidMachine(m) && DeepReady(m, key, s, d, o, env) && k < |m.air.deepChunks|
    requires Start in env && env[Start] == StartOf(WindowStart(m.air.deepChunks, k))
    ensures v == DeepPart(m, key, s, d, o, k)
  {
    hide ValidMachine, SectionKw, DeepMore;
    var size := m.air.deepChunks[k];
    var outs := RunProgram(m, DeepRows(size), env);
    ghost var more := DeepMore(m, d, o, WindowStart(m.air.deepChunks, k));
    DeepMoreExact(m, d, o, WindowStart(m.air.deepChunks, k));
    SectionsAnd(m, key, s, d, DeepRows(size), [Evals, Domain, Xi, Vf1, Vf2, Start], more);
    SubMerge(SectionKw(m, key, s, d), more, env);
    OutputAgrees(m, DeepRows(size), SectionKw(m, key, s, d) + more, env, 0);
    v := outs.value[0];
  }

  lemma StartDeep<S>(m: Machine, key: Key, s: Staged<S>, d: Divided<S>, o: Opened<S>, env: Env, start: Words)
    requires ValidMachine(m) && DeepReady(m, key, s, d, o, env)
    ensures DeepReady(m, key, s, d, o, env[Start := start])
  {
    InsertReads(m, key, s, d, env, Start, start);
    SubInsert(DeepFixed(m, d, o), env, Start, start);
  }

  ghost predicate DeepAt<S>(m: Machine, key: Key, s: Staged<S>, d: Divided<S>, o: Opened<S>, env: Env, r: Env, denv: Env, k: nat)
    requires ValidMachine(m) && k <= |m.air.deepChunks|
  {
    && DeepReady(m, key, s, d, o, r) && OnlyName(Start, env, r)
    && Committed(s) && Matrix(QSec) in d.qc && denv == Numbered(FriPolNames(k), DeepParts(m, key, s, d, o, k))
  }

  method NextDeep<S>(m: Machine, ghost key: Key, ghost s: Staged<S>, ghost d: Divided<S>, ghost o: Opened<S>, env: Env, k: nat, start: nat)
    returns (v: Words, r: Env)
    requires ValidMachine(m) && k < |m.air.deepChunks| && DeepReady(m, key, s, d, o, env) && start == WindowStart(m.air.deepChunks, k)
    ensures DeepReady(m, key, s, d, o, r) && OnlyName(Start, env, r) && v == DeepPart(m, key, s, d, o, k)
  {
    StartDeep(m, key, s, d, o, env, StartOf(start));
    InsertOnly(env, Start, StartOf(start));
    r := env[Start := StartOf(start)];
    v := DeepWindow(m, key, s, d, o, r, k);
  }

  lemma DeepNumbered<S>(m: Machine, key: Key, s: Staged<S>, d: Divided<S>, o: Opened<S>, denv: Env, k: nat, v: Words)
    requires ValidMachine(m) && k < |m.air.deepChunks| && Committed(s) && Matrix(QSec) in d.qc
    requires denv == Numbered(FriPolNames(k), DeepParts(m, key, s, d, o, k)) && v == DeepPart(m, key, s, d, o, k)
    ensures denv[FriPolOf(k) := v] == Numbered(FriPolNames(k + 1), DeepParts(m, key, s, d, o, k + 1))
  {
    NumberedNext(FriPolNames(k), DeepParts(m, key, s, d, o, k), FriPolOf(k), v);
    NamesNext(k);
  }

  method StepDeep<S>(m: Machine, ghost key: Key, ghost s: Staged<S>, ghost d: Divided<S>, ghost o: Opened<S>, env: Env, denv: Env, k: nat, start: nat)
    returns (denv': Env, r: Env, start': nat)
    requires ValidMachine(m) && k < |m.air.deepChunks| && DeepReady(m, key, s, d, o, env) && start == WindowStart(m.air.deepChunks, k)
    requires Committed(s) && Matrix(QSec) in d.qc && denv == Numbered(FriPolNames(k), DeepParts(m, key, s, d, o, k))
    ensures DeepReady(m, key, s, d, o, r) && OnlyName(Start, env, r) && start' == WindowStart(m.air.deepChunks, k + 1)
    ensures denv' == Numbered(FriPolNames(k + 1), DeepParts(m, key, s, d, o, k + 1))
  {
    hide ValidMachine, DeepReady, WindowStart, Numbered, DeepParts, FriPolNames;
    var v;
    v, r := NextDeep(m, key, s, d, o, env, k, start);
    DeepNumbered(m, key, s, d, o, denv, k, v);
    denv' := denv[FriPolOf(k) := v];
    WindowNext(m.air.deepChunks, k);
    start' := start + m.air.deepChunks[k];
  }

  method StepDeepAt<S>(m: Machine, ghost key: Key, ghost s: Staged<S>, ghost d: Divided<S>, ghost o: Opened<S>, ghost env0: Env, env: Env,
                       denv: Env, k: nat, start: nat)
    returns (denv': Env, r: Env, start': nat)
    requires ValidMachine(m) && k < |m.air.deepChunks| && DeepAt(m, key, s, d, o, env0, env, denv, k)
    requires start == WindowStart(m.air.deepChunks, k)
    ensures DeepAt(m, key, s, d, o, env0, r, denv', k + 1) && start' == WindowStart(m.air.deepChunks, k + 1)
  {
    denv', r, start' := StepDeep(m, key, s, d, o, env, denv, k, start);
    OnlyNameTrans(Start, env0, env, r);
  }

  method DeepWindows<S>(m: Machine, ghost key: Key, ghost s: Staged<S>, ghost d: Divided<S>, ghost o: Opened<S>, env: Env) returns (denv: Env, r: Env)
    requires ValidMachine(m) && DeepAt(m, key, s, d, o, env, env, map[], 0)
    ensures DeepAt(m, key, s, d, o, env, r, denv, |m.air.deepChunks|)
  {
    denv, r := map[], env;
    var start := 0;
    for k := 0 to |m.air.deepChunks|
      invariant start == WindowStart(m.air.deepChunks, k)
      invariant DeepAt(m, key, s, d, o, env, r, denv, k)
    {
      denv, r, start := StepDeepAt(m, key, s, d, o, env, r, denv, k, start);
    }
  }

  method ConcatDeep(m: Machine, denv: Env, ghost parts: seq<Words>) returns (codeword: Words)
    requires ValidMachine(m) && |parts| == |m.air.deepChunks| && denv == Numbered(FriPolNames(|m.air.deepChunks|), parts)
    ensures codeword == DeepConcatOut(m, parts)
  {
    hide ValidMachine, Numbered;
    var outs := RunProgram(m, DeepConcat, denv);
    assert Outputs(m.air, DeepConcat)[0] == FriPol;
    OutputAt(m, DeepConcat, denv, 0);
    codeword := outs.value[0];
  }

  /** The env once the two composition challenges are in. */
  function WithVfs(env: Env, vf1: Words, vf2: Words): Env { env[Vf1 := vf1][Vf2 := vf2] }

  lemma VfsLasting(env: Env, vf1: Words, vf2: Words)
    ensures LastingSame(env, WithVfs(env, vf1, vf2))
  {
    forall n: Name {:trigger Same(n, env, WithVfs(env, vf1, vf2))} | Lasting(n) ensures Same(n, env, WithVfs(env, vf1, vf2)) { }
  }

  lemma DeepBinds<S>(m: Machine, d: Divided<S>, o: Opened<S>, env: Env)
    requires ValidMachine(m) && Evals in env && env[Evals] == o.evals && Xi in env && env[Xi] == XiOf(m, d.challenges)
    requires Domain in env && env[Domain] == DomainOf(m)
    ensures Sub(DeepFixed(m, d, o), WithVfs(env, NamedAt(m.air.challenges, o.challenges, "std_vf1"),
                                            NamedAt(m.air.challenges, o.challenges, "std_vf2")))
  {
  }

  lemma DeepStarts<S>(m: Machine, key: Key, s: Staged<S>, d: Divided<S>, o: Opened<S>, env: Env, r: Env)
    requires ValidMachine(m) && OpenIn(m, key, s, d, env) && Evals in env && env[Evals] == o.evals && Xi in env && env[Xi] == XiOf(m, d.challenges)
    requires r == WithVfs(env, NamedAt(m.air.challenges, o.challenges, "std_vf1"), NamedAt(m.air.challenges, o.challenges, "std_vf2"))
    ensures OpenIn(m, key, s, d, r) && DeepReady(m, key, s, d, o, r)
  {
    VfsLasting(env, NamedAt(m.air.challenges, o.challenges, "std_vf1"), NamedAt(m.air.challenges, o.challenges, "std_vf2"));
    OpenKept(m, key, s, d, env, r);
    QSecSectionRead(m, key, s, d, r);
    DeepBinds(m, d, o, env);
  }

  lemma DeepLeaves<S>(m: Machine, key: Key, s: Staged<S>, d: Divided<S>, env: Env, r: Env)
    requires ValidMachine(m) && OpenIn(m, key, s, d, env) && OnlyName(Start, env, r)
    ensures OpenIn(m, key, s, d, r - {Start})
  {
    hide OpenIn, ValidMachine;
    forall n: Name {:trigger Same(n, env, r - {Start})} | Lasting(n) ensures Same(n, env, r - {Start}) { assert Same(n, env, r); }
    OpenKept(m, key, s, d, env, r - {Start});
  }

  /** The DEEP composition, window by window. */
  method RunDeep<S>(m: Machine, ghost key: Key, ghost s: Staged<S>, ghost d: Divided<S>, ghost o: Opened<S>, env: Env, challenges: seq<Words>)
    returns (r: Env, codeword: Words)
    requires ValidMachine(m) && OpenIn(m, key, s, d, env) && Evals in env && env[Evals] == o.evals && Xi in env && env[Xi] == XiOf(m, d.challenges)
    requires challenges == o.challenges
    ensures OpenIn(m, key, s, d, r)
    ensures Committed(s) && Matrix(QSec) in d.qc && codeword == Composition(m, key, s, d, o)
  {
    var vf1 := NamedChallenge(m.air.challenges, challenges, "std_vf1");
    var vf2 := NamedChallenge(m.air.challenges, challenges, "std_vf2");
    r := WithVfs(env, vf1, vf2);
    DeepStarts(m, key, s, d, o, env, r);
    var denv;
    ghost var before := r;
    denv, r := DeepWindows(m, key, s, d, o, r);
    DeepLeaves(m, key, s, d, before, r);
    r := r - {Start};
    codeword := ConcatDeep(m, denv, DeepParts(m, key, s, d, o, |m.air.deepChunks|));
  }

  // -------------------------------------------------------------------------- FRI

  lemma FriCommitNames(m: Machine, i: nat, codeword: Words)
    requires ValidMachine(m)
    ensures Inputs(m.air, FriCommit(i)) == [Codeword] && |Outputs(m.air, FriCommit(i))| > 1 && Outputs(m.air, FriCommit(i))[1] == Root(Fri(i))
    ensures |m.exec(FriCommit(i), Args([Codeword], map[Codeword := codeword]))| == |Outputs(m.air, FriCommit(i))|
  {
  }

  method RunFriCommit(m: Machine, i: nat, codeword: Words) returns (layer: Env)
    requires ValidMachine(m)
    ensures layer == Call(m, FriCommit(i), map[Codeword := codeword]) && Root(Fri(i)) in layer
  {
    hide ValidMachine, Inputs, Outputs, Args;
    var fenv: Env := map[Codeword := codeword];
    FriCommitNames(m, i, codeword);
    var outs := RunProgram(m, FriCommit(i), fenv);
    layer := InsertAll(map[], Outputs(m.air, FriCommit(i)), outs.value, false);
    NotRenamed(Outputs(m.air, FriCommit(i)));
  }

  method RunFriFold(m: Machine, i: nat, codeword: Words, beta: Words) returns (folded: Words)
    requires ValidMachine(m)
    ensures Codeword in Call(m, FriFold(i), map[Codeword := codeword, Beta := beta])
    ensures folded == Call(m, FriFold(i), map[Codeword := codeword, Beta := beta])[Codeword]
  {
    var fenv: Env := map[Codeword := codeword, Beta := beta];
    assert Bound(Inputs(m.air, FriFold(i)), fenv);
    var outs := RunProgram(m, FriFold(i), fenv);
    assert Outputs(m.air, FriFold(i))[0] == Codeword;
    OutputAt(m, FriFold(i), fenv, 0);
    folded := outs.value[0];
  }

  method RunFri<S>(m: Machine, h: Host<S>, codeword0: Words, t0: S, rounds: nat)
    returns (layers: seq<Env>, roots: seq<Words>, codeword: Words, t: S)
    requires ValidMachine(m)
    ensures Folded(layers, roots, codeword, t) == Fold(m, h, codeword0, t0, rounds)
  {
    layers, roots, codeword, t := [], [], codeword0, t0;
    for i := 0 to rounds
      invariant Folded(layers, roots, codeword, t) == Fold(m, h, codeword0, t0, i)
    {
      var layer := RunFriCommit(m, i, codeword);
      var root := layer[Root(Fri(i))];
      var (t', beta) := h.field(h.put(t, root));
      var next := RunFriFold(m, i, codeword, beta);
      layers, roots, codeword, t := layers + [layer], roots + [root], next, t';
    }
  }

  method RunOne(m: Machine, p: Program, n: Name, v: Words) returns (w: Words)
    requires ValidMachine(m) && Inputs(m.air, p) == [n] && |Outputs(m.air, p)| == 1
    ensures Outputs(m.air, p)[0] in Call(m, p, map[n := v]) && w == Call(m, p, map[n := v])[Outputs(m.air, p)[0]]
  {
    var env: Env := map[n := v];
    assert Bound(Inputs(m.air, p), env);
    var outs := RunProgram(m, p, env);
    OutputAt(m, p, env, 0);
    w := outs.value[0];
  }

  /** The final polynomial, the nonce and the query positions. */
  method RunClose<S>(m: Machine, h: Host<S>, f: Folded<S>) returns (c: Closed)
    requires ValidMachine(m)
    ensures c == Close(m, h, f)
  {
    var finalPol := RunOne(m, FriFinal, Codeword, f.codeword);
    var (_, challenge) := h.field(h.section(f.t, finalPol, m.air.hashCommits));
    var nonce := RunOne(m, Grind, ChallengeName, challenge);
    c := Closed(finalPol, nonce, h.positions(challenge, nonce));
  }

  // --------------------------------------------------------------------- openings

  lemma {:induction false} RowsInAt(flat: Words, n: nat, w: nat, q: nat)
    requires |flat| == Times(n, w) && q < n
    ensures Times(q, w) + w <= |flat| && RowsOfFlat(flat, n, w)[q] == flat[Times(q, w)..Times(q, w) + w]
    decreases n
  {
    TimesMono(q, n, w);
    var a, init := Times(q, w), flat[..Times(n - 1, w)];
    if q < n - 1 {
      RowsInAt(init, n - 1, w, q);
      assert init[a..a + w] == flat[a..a + w];
    } else {
      assert flat[a..] == flat[a..a + w];
    }
  }

  /** The rows of a flat matrix. */
  function RowsOfFlat(flat: Words, n: nat, w: nat): (rows: seq<Words>)
    requires |flat| == Times(n, w)
    ensures |rows| == n
  {
    Replay.RowsIn(flat, n, w)
  }

  lemma {:induction false} TimesMono(q: nat, n: nat, w: nat)
    requires q < n
    ensures Times(q, w) + w <= Times(n, w)
    decreases n
  {
    if q < n - 1 { TimesMono(q, n - 1, w); }
  }

  /** Query `q`'s row and path, in the flat buffer. */
  /** The wire pieces of a tree's flat group proofs. */
  ghost function Split(flat: Words, nq: nat, rowWords: nat, width: nat, siblings: nat, last: Words): (o: Wire.TreeOpening)
    requires |flat| == Times(nq, rowWords) && width + siblings * Wire.PER_LEVEL <= rowWords
  {
    Wire.Convert(RowsOfFlat(flat, nq, rowWords), last, width, siblings)
  }

  lemma SplitRow(flat: Words, nq: nat, rowWords: nat, width: nat, siblings: nat, last: Words, q: nat)
    requires |flat| == Times(nq, rowWords) && width + siblings * Wire.PER_LEVEL <= rowWords && q < nq
    ensures var o, at := Split(flat, nq, rowWords, width, siblings, last), Times(q, rowWords);
            && |o.rows| == |o.paths| == nq && at + rowWords == Times(q + 1, rowWords) && at + rowWords <= |flat|
            && o.rows[q] == flat[at..at + rowWords][..width]
            && o.paths[q] == flat[at..at + rowWords][width..width + siblings * Wire.PER_LEVEL]
  {
    RowsInAt(flat, nq, rowWords, q);
  }

  lemma SplitNone(flat: Words, nq: nat, rowWords: nat, width: nat, siblings: nat, last: Words)
    requires |flat| == Times(nq, rowWords) && width + siblings * Wire.PER_LEVEL <= rowWords
    ensures var o := Split(flat, nq, rowWords, width, siblings, last);
            |o.rows| == |o.paths| == nq && Wire.Flatten(o.rows[..0]) == [] && Wire.Flatten(o.paths[..0]) == []
    ensures Times(0, rowWords) == 0
  {
  }

  /** The wire pieces of a tree's flat group proofs, row by row: leaf values gathered
      first, cut paths second. */
  method SplitRows(flat: Words, nq: nat, rowWords: nat, width: nat, siblings: nat, ghost last: Words) returns (rows: Words, paths: Words)
    requires |flat| == Times(nq, rowWords) && width + siblings * Wire.PER_LEVEL <= rowWords
    ensures rows == Wire.Flatten(Split(flat, nq, rowWords, width, siblings, last).rows)
    ensures paths == Wire.Flatten(Split(flat, nq, rowWords, width, siblings, last).paths)
  {
    ghost var o := Split(flat, nq, rowWords, width, siblings, last);
    hide Wire.Flatten, Split, Times;
    SplitNone(flat, nq, rowWords, width, siblings, last);
    rows, paths := [], [];
    var at, cut := 0, width + siblings * Wire.PER_LEVEL;
    for q := 0 to nq
      invariant at == Times(q, rowWords)
      invariant rows == Wire.Flatten(o.rows[..q]) && paths == Wire.Flatten(o.paths[..q])
    {
      SplitRow(flat, nq, rowWords, width, siblings, last, q);
      var row := flat[at..at + rowWords];
      Wire.FlattenNext(o.rows, q);
      Wire.FlattenNext(o.paths, q);
      rows := rows + row[..width];
      paths := paths + row[width..cut];
      at := at + rowWords;
    }
    assert o.rows[..nq] == o.rows && o.paths[..nq] == o.paths;
  }

  lemma OpenReads(m: Machine, t: Tree, c: TreeData, env: Env, positions: Words)
    requires TreeIn(m, t, c, env)
    ensures Sub(OpenKw(t, c.matrix, c.layers, positions), env[Positions := positions])
    ensures Bound(Inputs(m.air, Open(t)), OpenKw(t, c.matrix, c.layers, positions))
  {
    OpenExact(m, t, c.matrix, c.layers, positions);
  }

  /** `open_tree` run on the device. */
  method RunOpen(m: Machine, t: Tree, env: Env, positions: Words, ghost c: TreeData) returns (flat: Words, last: Words)
    requires ValidMachine(m) && TreeIn(m, t, c, env)
    ensures (flat, last) == OpenTree(m, t, c.matrix, c.layers, positions)
  {
    var penv := env[Positions := positions];
    OpenReads(m, t, c, env, positions);
    var outs := RunProgram(m, Open(t), penv);
    ghost var kw := OpenKw(t, c.matrix, c.layers, positions);
    OutputAgrees(m, Open(t), kw, penv, 0);
    OutputAgrees(m, Open(t), kw, penv, 1);
    assert Outputs(m.air, Open(t))[0] == Openings(t) && Outputs(m.air, Open(t))[1] == LastLevel(t);
    flat, last := outs.value[0], outs.value[1];
  }

  /** `open_tree` and `push_tree`: the tree's block behind what is written so far. */
  method PushTree(m: Machine, t: Tree, env: Env, positions: Words, proof: Words, ghost c: TreeData) returns (r: Words)
    requires ValidMachine(m) && SizedMachine(m) && ValidAir(m.air) && TreeIn(m, t, c, env) && (t.Fri? ==> t.round + 1 < |m.air.steps|)
    ensures r == proof + Wire.Block(OpeningOf(m, t, c, positions))
  {
    Verifiable(m.air, t);
    var flat, last := RunOpen(m, t, env, positions, c);
    OpenTreeSized(m, t, c.matrix, c.layers, positions);
    var siblings := Wire.Levels(TreeBits(m.air, t)) - m.air.llv;
    var rows, paths := SplitRows(flat, m.air.nQueries, RowWords(m.air, t), TreeWidth(m.air, t), siblings, last);
    r := proof + rows;
    r := r + paths;
    r := r + last;
    BlockAppend(proof, rows, paths, last);
  }

  lemma BlockAppend(proof: Words, rows: Words, paths: Words, last: Words)
    ensures proof + rows + paths + last == proof + (rows + paths + last)
  {
    Wire.Assoc(proof, rows, paths);
    Wire.Assoc(proof, rows + paths, last);
  }

  lemma ReleaseKeeps(m: Machine, t: Tree, c: TreeData, env: Env, gone: Tree)
    requires TreeIn(m, t, c, env) && t != gone
    ensures TreeIn(m, t, c, ReleaseTree(env, gone))
  {
    var r := ReleaseTree(env, gone);
    forall n: Name {:trigger Same(n, env, r)} | Touches(n, t) ensures Same(n, env, r) { }
    TreeUntouched(m, t, c, env, r);
  }

  /** The customs from `i` on, and the stages' trees, still there to open. */
  ghost predicate ToOpen(m: Machine, key: Key, r: Trees, env: Env, i: nat)
    requires ValidMachine(m) && i <= |m.air.customs|
  {
    && (forall j: nat {:trigger CustomIn(m, key, env, j)} | i <= j < |m.air.customs| :: CustomIn(m, key, env, j))
    && TreeIn(m, Cm1, r.cm1, env) && TreeIn(m, Cm2, r.cm2, env) && TreeIn(m, QSec, r.qsec, env)
  }

  /** The three trees a prove commits. */
  datatype Trees = Trees(cm1: TreeData, cm2: TreeData, qsec: TreeData)

  lemma ReleaseCustom(m: Machine, key: Key, r: Trees, env: Env, i: nat)
    requires ValidMachine(m) && ValidAir(m.air) && i < |m.air.customs| && ToOpen(m, key, r, env, i)
    ensures ToOpen(m, key, r, ReleaseTree(env, Custom(m.air.customs[i])), i + 1)
  {
    var gone := Custom(m.air.customs[i]);
    ReleaseKeeps(m, Cm1, r.cm1, env, gone);
    ReleaseKeeps(m, Cm2, r.cm2, env, gone);
    ReleaseKeeps(m, QSec, r.qsec, env, gone);
    forall j: nat {:trigger CustomIn(m, key, ReleaseTree(env, gone), j)} | i + 1 <= j < |m.air.customs|
      ensures CustomIn(m, key, ReleaseTree(env, gone), j)
    {
      assert m.air.customs[i] < m.air.customs[j] && CustomIn(m, key, env, j);
      ReleaseKeeps(m, Custom(m.air.customs[j]), CustomTree(m, key, m.air.customs[j]), env, gone);
    }
  }

  lemma ReleaseConst(m: Machine, key: Key, r: Trees, env: Env)
    requires ValidMachine(m) && ToOpen(m, key, r, env, 0)
    ensures ToOpen(m, key, r, ReleaseTree(env, Const), 0)
  {
    ReleaseKeeps(m, Cm1, r.cm1, env, Const);
    ReleaseKeeps(m, Cm2, r.cm2, env, Const);
    ReleaseKeeps(m, QSec, r.qsec, env, Const);
    forall j: nat {:trigger CustomIn(m, key, ReleaseTree(env, Const), j)} | 0 <= j < |m.air.customs|
      ensures CustomIn(m, key, ReleaseTree(env, Const), j)
    {
      assert CustomIn(m, key, env, j);
      ReleaseKeeps(m, Custom(m.air.customs[j]), CustomTree(m, key, m.air.customs[j]), env, Const);
    }
  }

  method PushCustom(m: Machine, ghost key: Key, env: Env, positions: Words, proof: Words, i: nat, keep: bool, ghost trees: Trees)
    returns (r: Words, env': Env)
    requires ValidMachine(m) && SizedMachine(m) && ValidAir(m.air) && i < |m.air.customs| && ToOpen(m, key, trees, env, i)
    ensures r == proof + Wire.Block(CustomOpenings(m, key, positions)[i]) && ToOpen(m, key, trees, env', i + 1)
  {
    var t := Custom(m.air.customs[i]);
    assert CustomIn(m, key, env, i);
    r := PushTree(m, t, env, positions, proof, CustomTree(m, key, m.air.customs[i]));
    env' := env;
    if !keep {
      ReleaseCustom(m, key, trees, env, i);
      env' := ReleaseTree(env, t);
    }
  }

  /** The custom commits' blocks in order, each tree let go after its own when the key goes. */
  method PushCustoms(m: Machine, ghost key: Key, env: Env, positions: Words, proof: Words, keep: bool, ghost trees: Trees)
    returns (r: Words, env': Env)
    requires ValidMachine(m) && SizedMachine(m) && ValidAir(m.air) && ToOpen(m, key, trees, env, 0)
    ensures r == proof + Wire.Flatten(Wire.Blocks(CustomOpenings(m, key, positions)))
    ensures ToOpen(m, key, trees, env', |m.air.customs|)
  {
    r, env' := proof, env;
    ghost var blocks := Wire.Blocks(CustomOpenings(m, key, positions));
    for i := 0 to |m.air.customs|
      invariant r == proof + Wire.Flatten(blocks[..i]) && ToOpen(m, key, trees, env', i)
    {
      Wire.FlattenNext(blocks, i);
      Wire.Assoc(proof, Wire.Flatten(blocks[..i]), blocks[i]);
      r, env' := PushCustom(m, key, env', positions, r, i, keep, trees);
    }
    assert blocks[..|m.air.customs|] == blocks;
  }

  ghost function StageOpenings(m: Machine, trees: Trees, positions: Words): seq<Wire.TreeOpening>
    requires ValidMachine(m) && SizedMachine(m) && ValidAir(m.air)
    requires AllLayers(m.air, Cm1, trees.cm1.layers) && AllLayers(m.air, Cm2, trees.cm2.layers) && AllLayers(m.air, QSec, trees.qsec.layers)
  {
    [OpeningOf(m, Cm1, trees.cm1, positions), OpeningOf(m, Cm2, trees.cm2, positions), OpeningOf(m, QSec, trees.qsec, positions)]
  }

  /** The stages' trees and the quotient's, each let go once its openings are written. */
  method PushStages(m: Machine, ghost key: Key, env: Env, positions: Words, proof: Words, ghost trees: Trees) returns (r: Words, env': Env)
    requires ValidMachine(m) && SizedMachine(m) && ValidAir(m.air) && ToOpen(m, key, trees, env, |m.air.customs|)
    ensures r == proof + Wire.Flatten(Wire.Blocks(StageOpenings(m, trees, positions)))
  {
    ghost var blocks := Wire.Blocks(StageOpenings(m, trees, positions));
    r := PushTree(m, Cm1, env, positions, proof, trees.cm1);
    ReleaseKeeps(m, Cm2, trees.cm2, env, Cm1);
    ReleaseKeeps(m, QSec, trees.qsec, env, Cm1);
    env' := ReleaseTree(env, Cm1);
    r := PushTree(m, Cm2, env', positions, r, trees.cm2);
    ReleaseKeeps(m, QSec, trees.qsec, env', Cm2);
    env' := ReleaseTree(env', Cm2);
    r := PushTree(m, QSec, env', positions, r, trees.qsec);
    env' := ReleaseTree(env', QSec);
    Wire.FlattenThree(blocks);
    BlockAppend(proof, blocks[0], blocks[1], blocks[2]);
  }

  /** A round's layer holds its own tree. */
  lemma LayerIn(m: Machine, i: nat, layer: Env)
    requires IsCommit(m, Fri(i), FriCommit(i), layer)
    ensures TreeIn(m, Fri(i), StageTree(m, Fri(i), FriCommit(i), layer), layer)
  {
  }

  method FoldAll(positions: Words, bits: nat) returns (folded: Words)
    ensures folded == FoldPositions(positions, bits)
  {
    folded := [];
    for i := 0 to |positions|
      invariant folded == FoldPositions(positions, bits)[..i]
    {
      folded := folded + [positions[i] % Wire.Pow2(bits)];
    }
    assert FoldPositions(positions, bits)[..|positions|] == FoldPositions(positions, bits);
  }

  method PushLayer(m: Machine, i: nat, layer: Env, positions: Words, proof: Words) returns (r: Words)
    requires ValidMachine(m) && SizedMachine(m) && ValidAir(m.air) && i + 1 < |m.air.steps| && IsCommit(m, Fri(i), FriCommit(i), layer)
    ensures r == proof + Wire.Block(OpeningOf(m, Fri(i), StageTree(m, Fri(i), FriCommit(i), layer), FoldPositions(positions, m.air.steps[i + 1])))
  {
    LayerIn(m, i, layer);
    var folded := FoldAll(positions, m.air.steps[i + 1]);
    r := PushTree(m, Fri(i), layer, folded, proof, StageTree(m, Fri(i), FriCommit(i), layer));
  }

  /** Every FRI layer's openings, at the positions folded into it. */
  method PushFri(m: Machine, layers: seq<Env>, positions: Words, proof: Words) returns (r: Words)
    requires ValidMachine(m) && SizedMachine(m) && ValidAir(m.air) && Foldable(m, layers) && |layers| < |m.air.steps|
    ensures r == proof + Wire.Flatten(Wire.Blocks(FriOpenings(m, layers, positions)))
  {
    r := proof;
    ghost var blocks := Wire.Blocks(FriOpenings(m, layers, positions));
    for i := 0 to |layers|
      invariant r == proof + Wire.Flatten(blocks[..i])
    {
      Wire.FlattenNext(blocks, i);
      Wire.Assoc(proof, Wire.Flatten(blocks[..i]), blocks[i]);
      r := PushLayer(m, i, layers[i], positions, r);
    }
    assert blocks[..|layers|] == blocks;
  }

  // ------------------------------------------------------------------ the proof's words

  /** What the driver writes: the value sections, then everything behind them. */
  ghost function DriverWords<S>(m: Machine, key: Key, r: Run<S>): Words
    requires ValidMachine(m) && SizedMachine(m) && ValidAir(m.air) && ValidRun(m, r)
  {
    Wire.Triples(Flatten(r.s.airgroup), m.air.airgroupvalues) + Wire.Triples(r.s.airvalues, m.air.airvalues)
    + Wire.Tail(WireProof(m, key, r))
  }

  lemma OpeningFits(m: Machine, t: Tree, c: TreeData, positions: Words)
    requires ValidMachine(m) && SizedMachine(m) && ValidAir(m.air) && AllLayers(m.air, t, c.layers)
    requires t.Fri? ==> t.round + 1 < |m.air.steps|
    ensures Wire.Fits(OpeningOf(m, t, c, positions), m.air.nQueries, TreeWidth(m.air, t), TreeBits(m.air, t), m.air.llv)
  {
    Verifiable(m.air, t);
    OpenTreeSized(m, t, c.matrix, c.layers, positions);
  }

  lemma CommitRootSized(m: Machine, t: Tree, p: Program, kw: Env, at: nat)
    requires ValidMachine(m) && SizedMachine(m) && Bound(Inputs(m.air, p), kw) && at < |Outputs(m.air, p)| && Outputs(m.air, p)[at] == Root(t)
    requires forall outs: seq<Words> :: Replay.Sized(m.air, p, outs) ==> |outs[at]| == Wire.DIGEST
    ensures Root(t) in Call(m, p, kw) && |Call(m, p, kw)[Root(t)]| == Wire.DIGEST
  {
    OutputAt(m, p, kw, at);
  }

  lemma Commit1Sized(m: Machine, key: Key, inst: Instance)
    requires ValidMachine(m) && SizedMachine(m)
    ensures Root(Cm1) in Commit1Out(m, key, inst) && |Commit1Out(m, key, inst)[Root(Cm1)]| == Wire.DIGEST
  {
    CommitRootSized(m, Cm1, Commit1, map[Trace := TraceOf(m, key, inst)], 0);
  }

  lemma Commit2Sized(m: Machine, lg: Env)
    requires ValidMachine(m) && SizedMachine(m) && Cm2Base in lg
    ensures Root(Cm2) in Commit2Out(m, lg) && |Commit2Out(m, lg)[Root(Cm2)]| == Wire.DIGEST
  {
    CommitRootSized(m, Cm2, Commit2, map[Cm2Base := lg[Cm2Base]], 0);
  }

  lemma StageRootsSized<S>(m: Machine, h: Host<S>, key: Key, inst: Instance)
    requires ValidMachine(m) && SizedMachine(m)
    ensures Committed(Stages(m, h, key, inst))
    ensures |Stages(m, h, key, inst).c1[Root(Cm1)]| == Wire.DIGEST && |Stages(m, h, key, inst).c2[Root(Cm2)]| == Wire.DIGEST
  {
    StagesCommitted(m, h, key, inst);
    StagesParts(m, h, key, inst);
    Commit1Sized(m, key, inst);
    Commit2Sized(m, LogupOut(m, key, inst, Seeded(m, h, inst).1));
  }

  lemma QuotientRootSized(m: Machine, parts: seq<Words>)
    requires ValidMachine(m) && SizedMachine(m) && |parts| == |m.air.quotientChunks|
    ensures |QuotientCommitOut(m, parts)[Root(QSec)]| == Wire.DIGEST
  {
    hide ValidMachine, SizedMachine, Numbered;
    CommitRootSized(m, QSec, QuotientCommit, Numbered(QNames(|m.air.quotientChunks|), parts), 1);
  }

  lemma EvalsSized(m: Machine, parts: seq<Words>)
    requires ValidMachine(m) && SizedMachine(m) && |parts| == |m.air.evalsChunks|
    ensures |EvalsSumOut(m, parts)| == 3 * m.air.evMap
  {
    var kw := Numbered(EvalsNames(|m.air.evalsChunks|), parts);
    assert Outputs(m.air, EvalsSum)[0] == Evals && Bound(Inputs(m.air, EvalsSum), kw);
    OutputAt(m, EvalsSum, kw, 0);
    SizedRun(m, EvalsSum, kw);
  }

  lemma SizedRun(m: Machine, p: Program, kw: Env)
    requires ValidMachine(m) && SizedMachine(m) && Bound(Inputs(m.air, p), kw)
    ensures Replay.Sized(m.air, p, m.exec(p, Args(Inputs(m.air, p), kw)))
  {
  }

  lemma FinalSized<S>(m: Machine, h: Host<S>, f: Folded<S>)
    requires ValidMachine(m) && SizedMachine(m) && |m.air.steps| > 0
    ensures |Close(m, h, f).finalPol| == Wire.Pow2(m.air.steps[|m.air.steps| - 1]) * 3 && |Close(m, h, f).nonce| == 1
  {
    OutputAt(m, FriFinal, map[Codeword := f.codeword], 0);
    var (_, challenge) := h.field(h.section(f.t, Close(m, h, f).finalPol, m.air.hashCommits));
    OutputAt(m, Grind, map[ChallengeName := challenge], 0);
  }

  ghost predicate RootsSized(roots: seq<Words>) {
    forall i: nat {:trigger roots[i]} | i < |roots| :: |roots[i]| == Wire.DIGEST
  }

  lemma RoundRootSized<S>(m: Machine, h: Host<S>, f: Folded<S>, i: nat)
    requires ValidMachine(m) && SizedMachine(m) && RootsSized(f.roots)
    ensures RootsSized(FoldRound(m, h, f, i).roots)
  {
    hide ValidMachine, SizedMachine, Call;
    CommitRootSized(m, Fri(i), FriCommit(i), map[Codeword := f.codeword], 1);
  }

  lemma {:induction false} FriRootsSized<S>(m: Machine, h: Host<S>, codeword: Words, t: S, n: nat)
    requires ValidMachine(m) && SizedMachine(m)
    ensures RootsSized(Fold(m, h, codeword, t, n).roots)
  {
    hide ValidMachine, SizedMachine, FoldRound;
    if n > 0 {
      FriRootsSized(m, h, codeword, t, n - 1);
      RoundRootSized(m, h, Fold(m, h, codeword, t, n - 1), n - 1);
    }
  }

  lemma AirgroupRows<S>(m: Machine, h: Host<S>, key: Key, inst: Instance)
    requires ValidMachine(m) && SizedMachine(m)
    ensures |Stages(m, h, key, inst).airgroup| == |m.air.airgroupvalues|
    ensures |Flatten(Stages(m, h, key, inst).airgroup)| == 3 * |m.air.airgroupvalues|
    ensures |Stages(m, h, key, inst).airvalues| == Wire.PackedWidth(m.air.airvalues)
  {
    StagesParts(m, h, key, inst);
    LogupSized(m, key, inst, Seeded(m, h, inst).1);
    var rows := Stages(m, h, key, inst).airgroup;
    assert forall i: nat {:trigger rows[i]} | i < |rows| :: |rows[i]| == 3;
    Wire.FlattenLength(rows, 3);
  }

  lemma CustomFits(m: Machine, key: Key, p: Wire.Proof, positions: Words)
    requires ValidMachine(m) && SizedMachine(m) && ValidAir(m.air) && p.customs == CustomOpenings(m, key, positions)
    ensures Wire.CustomsFit(ShapeOf(m.air), p)
  {
    var s := ShapeOf(m.air);
    forall i: nat {:trigger p.customs[i]} | i < |s.customs|
      ensures Wire.Fits(p.customs[i], s.nQueries, s.customs[i], s.steps[0], s.llv)
    {
      OpeningFits(m, Custom(m.air.customs[i]), CustomTree(m, key, m.air.customs[i]), positions);
    }
  }

  lemma RoundFits(m: Machine, i: nat, layer: Env, positions: Words)
    requires ValidMachine(m) && SizedMachine(m) && ValidAir(m.air) && i + 1 < |m.air.steps| && IsCommit(m, Fri(i), FriCommit(i), layer)
    ensures Wire.RoundFits(ShapeOf(m.air), OpeningOf(m, Fri(i), StageTree(m, Fri(i), FriCommit(i), layer),
                                                     FoldPositions(positions, m.air.steps[i + 1])), i)
  {
    hide ValidMachine, SizedMachine, StageTree, OpeningOf, Wire.Fits;
    var s := ShapeOf(m.air);
    assert s.steps[i] >= s.steps[i + 1] && s.steps == m.air.steps;
    OpeningFits(m, Fri(i), StageTree(m, Fri(i), FriCommit(i), layer), FoldPositions(positions, m.air.steps[i + 1]));
  }

  lemma RoundsFit(m: Machine, layers: seq<Env>, p: Wire.Proof, positions: Words)
    requires ValidMachine(m) && SizedMachine(m) && ValidAir(m.air) && Foldable(m, layers) && |layers| + 1 == |m.air.steps|
    requires p.fri == FriOpenings(m, layers, positions)
    ensures Wire.RoundsFit(ShapeOf(m.air), p)
  {
    hide ValidMachine, SizedMachine, OpeningOf, StageTree, FoldPositions, Wire.RoundFits;
    assert |ShapeOf(m.air).steps| == |m.air.steps|;
    forall i: nat {:trigger p.fri[i]} | i < |p.fri| ensures Wire.RoundFits(ShapeOf(m.air), p.fri[i], i) {
      RoundFits(m, i, layers[i], positions);
    }
  }

  /** The host's own words have their sizes. */
  ghost predicate HostSized<S>(m: Machine, r: Run<S>) {
    && Root(Cm1) in r.s.c1 && Root(Cm2) in r.s.c2 && Root(QSec) in r.d.qc && |m.air.steps| > 0
    && |r.s.c1[Root(Cm1)]| == |r.s.c2[Root(Cm2)]| == |r.d.qc[Root(QSec)]| == Wire.DIGEST && |r.o.evals| == 3 * m.air.evMap
    && |r.f.roots| == |m.air.steps| - 1 && RootsSized(r.f.roots)
    && |r.c.finalPol| == Wire.Pow2(m.air.steps[|m.air.steps| - 1]) * 3
  }

  lemma RunSized<S>(m: Machine, h: Host<S>, key: Key, inst: Instance)
    requires ValidMachine(m) && SizedMachine(m) && |m.air.steps| > 0
    ensures HostSized(m, RunOf(m, h, key, inst))
  {
    var r := RunOf(m, h, key, inst);
    StageRootsSized(m, h, key, inst);
    QuotientRootSized(m, QuotientParts(m, key, inst, r.s, |m.air.quotientChunks|));
    EvalsSized(m, EvalsParts(m, key, r.s, r.d, |m.air.evalsChunks|));
    FoldSized(m, h, Composition(m, key, r.s, r.d, r.o), r.o.t, r.f);
  }

  lemma FoldSized<S>(m: Machine, h: Host<S>, codeword: Words, t: S, f: Folded<S>)
    requires ValidMachine(m) && SizedMachine(m) && |m.air.steps| > 0 && f == Fold(m, h, codeword, t, |m.air.steps| - 1)
    ensures |f.roots| == |m.air.steps| - 1 && RootsSized(f.roots)
    ensures |Close(m, h, f).finalPol| == Wire.Pow2(m.air.steps[|m.air.steps| - 1]) * 3
  {
    FriRootsSized(m, h, codeword, t, |m.air.steps| - 1);
    FinalSized(m, h, f);
  }

  lemma HostFits<S>(m: Machine, r: Run<S>, p: Wire.Proof)
    requires HostSized(m, r) && Wire.ValidShape(ShapeOf(m.air))
    requires p.roots == [r.s.c1[Root(Cm1)], r.s.c2[Root(Cm2)], r.d.qc[Root(QSec)]] && p.evals == r.o.evals
    requires p.friRoots == r.f.roots && p.finalPol == r.c.finalPol
    ensures Wire.HostFits(ShapeOf(m.air), p)
  {
    assert ShapeOf(m.air).steps == m.air.steps;
  }

  lemma MainTreeFits(m: Machine, t: Tree, c: TreeData, positions: Words)
    requires ValidMachine(m) && SizedMachine(m) && ValidAir(m.air) && AllLayers(m.air, t, c.layers) && !t.Fri?
    ensures |ShapeOf(m.air).steps| > 0
    ensures Wire.Fits(OpeningOf(m, t, c, positions), m.air.nQueries, TreeWidth(m.air, t), ShapeOf(m.air).steps[0], m.air.llv)
  {
    OpeningFits(m, t, c, positions);
  }

  lemma FourFit(s: Wire.Shape, p: Wire.Proof)
    requires Wire.ValidShape(s) && |p.stages| == 3
    requires Wire.Fits(p.const_, s.nQueries, s.nConstants, s.steps[0], s.llv)
    requires Wire.Fits(p.stages[0], s.nQueries, s.cm1, s.steps[0], s.llv)
    requires Wire.Fits(p.stages[1], s.nQueries, s.cm2, s.steps[0], s.llv)
    requires Wire.Fits(p.stages[2], s.nQueries, s.qsec, s.steps[0], s.llv)
    ensures Wire.TreesFit(s, p)
  {
  }

  lemma ShapeWidths(air: Air)
    requires ValidAir(air)
    ensures var s := ShapeOf(air);
            && Wire.ValidShape(s) && s.nQueries == air.nQueries && s.llv == air.llv
            && s.nConstants == TreeWidth(air, Const) && s.cm1 == TreeWidth(air, Cm1)
            && s.cm2 == TreeWidth(air, Cm2) && s.qsec == TreeWidth(air, QSec)
  {
  }

  lemma WireTrees<S>(m: Machine, key: Key, r: Run<S>)
    requires ValidMachine(m) && SizedMachine(m) && ValidAir(m.air) && ValidRun(m, r)
    ensures var p := WireProof(m, key, r);
            && p.const_ == OpeningOf(m, Const, ConstTree(m, key), r.c.positions) && |p.stages| == 3
            && p.stages[0] == OpeningOf(m, Cm1, StageTree(m, Cm1, Commit1, r.s.c1), r.c.positions)
            && p.stages[1] == OpeningOf(m, Cm2, StageTree(m, Cm2, Commit2, r.s.c2), r.c.positions)
            && p.stages[2] == OpeningOf(m, QSec, StageTree(m, QSec, QuotientCommit, r.d.qc), r.c.positions)
  {
    hide ValidMachine, SizedMachine, ValidAir, ConstTree, StageTree, OpeningOf;
  }

  lemma TreesFit<S>(m: Machine, key: Key, r: Run<S>)
    requires ValidMachine(m) && SizedMachine(m) && ValidAir(m.air) && ValidRun(m, r)
    ensures Wire.TreesFit(ShapeOf(m.air), WireProof(m, key, r))
  {
    hide ValidMachine, SizedMachine, ValidAir, ConstTree, StageTree, Wire.Fits, Wire.TreesFit, OpeningOf, WireProof, ShapeOf, TreeWidth;
    ShapeWidths(m.air);
    WireTrees(m, key, r);
    MainTreeFits(m, Const, ConstTree(m, key), r.c.positions);
    MainTreeFits(m, Cm1, StageTree(m, Cm1, Commit1, r.s.c1), r.c.positions);
    MainTreeFits(m, Cm2, StageTree(m, Cm2, Commit2, r.s.c2), r.c.positions);
    MainTreeFits(m, QSec, StageTree(m, QSec, QuotientCommit, r.d.qc), r.c.positions);
    FourFit(ShapeOf(m.air), WireProof(m, key, r));
  }

  /** Every section behind the value sections has its wire size. */
  lemma RunFits<S>(m: Machine, key: Key, r: Run<S>)
    requires ValidMachine(m) && SizedMachine(m) && ValidAir(m.air) && ValidRun(m, r) && HostSized(m, r)
    ensures Wire.TailFits(ShapeOf(m.air), WireProof(m, key, r))
  {
    var p := WireProof(m, key, r);
    HostFits(m, r, p);
    TreesFit(m, key, r);
    CustomFits(m, key, p, r.c.positions);
    RoundsFit(m, r.f.layers, p, r.c.positions);
  }

  // -------------------------------------------------------------------- the openings

  /** What a prove has in hand when it starts to write. */
  datatype Drawn = Drawn(airgroup: Words, airvalues: Words, root2: Words, rootq: Words, evals: Words, friRoots: seq<Words>,
                         layers: seq<Env>, closed: Closed)

  ghost function TreesOf<S>(m: Machine, r: Run<S>): Trees
    requires ValidRun(m, r)
  {
    Trees(StageTree(m, Cm1, Commit1, r.s.c1), StageTree(m, Cm2, Commit2, r.s.c2), StageTree(m, QSec, QuotientCommit, r.d.qc))
  }

  ghost predicate DrawnFrom<S>(m: Machine, r: Run<S>, w: Drawn) {
    && Root(Cm2) in r.s.c2 && Root(QSec) in r.d.qc
    && w == Drawn(Flatten(r.s.airgroup), r.s.airvalues, r.s.c2[Root(Cm2)], r.d.qc[Root(QSec)], r.o.evals, r.f.roots, r.f.layers, r.c)
  }

  /** The value sections and the host's words, up to the first tree. */
  method WriteHead(m: Machine, root1: Words, w: Drawn) returns (proof: Words)
    requires Wire.PackedWidth(m.air.airgroupvalues) <= |w.airgroup| && Wire.PackedWidth(m.air.airvalues) <= |w.airvalues|
    ensures proof == Wire.Triples(w.airgroup, m.air.airgroupvalues) + Wire.Triples(w.airvalues, m.air.airvalues)
                     + (Wire.Flatten([root1, w.root2, w.rootq]) + w.evals)
  {
    proof := [];
    proof := Wire.PushValues3(proof, w.airgroup, m.air.airgroupvalues);
    proof := Wire.PushValues3(proof, w.airvalues, m.air.airvalues);
    ghost var values := proof;
    assert values == Wire.Triples(w.airgroup, m.air.airgroupvalues) + Wire.Triples(w.airvalues, m.air.airvalues);
    proof := proof + root1;
    proof := proof + w.root2;
    proof := proof + w.rootq;
    proof := proof + w.evals;
    HeadAppend(values, root1, w.root2, w.rootq, w.evals);
  }

  lemma HeadAppend(values: Words, a: Words, b: Words, c: Words, evals: Words)
    ensures values + a + b + c + evals == values + (Wire.Flatten([a, b, c]) + evals)
  {
    Wire.FlattenThree([a, b, c]);
    Wire.Assoc(values, a, b);
    Wire.Assoc(values, a + b, c);
    Wire.Assoc(values, a + b + c, evals);
  }

  lemma OpenIsToOpen<S>(m: Machine, key: Key, r: Run<S>, env: Env)
    requires ValidMachine(m) && ValidRun(m, r) && OpenIn(m, key, r.s, r.d, env)
    ensures ToOpen(m, key, TreesOf(m, r), env, 0) && TreeIn(m, Const, ConstTree(m, key), env)
  {
  }

  /** The trees of the key, the stages and the quotient, in wire order. */
  method WriteTrees<S>(m: Machine, ghost key: Key, ghost r: Run<S>, env: Env, positions: Words, head: Words, keep: bool) returns (proof: Words)
    requires ValidMachine(m) && SizedMachine(m) && ValidAir(m.air) && ValidRun(m, r) && OpenIn(m, key, r.s, r.d, env)
    ensures proof == head + Wire.Block(OpeningOf(m, Const, ConstTree(m, key), positions))
                     + Wire.Flatten(Wire.Blocks(CustomOpenings(m, key, positions)))
                     + Wire.Flatten(Wire.Blocks(StageOpenings(m, TreesOf(m, r), positions)))
  {
    OpenIsToOpen(m, key, r, env);
    var left := env;
    proof := PushTree(m, Const, env, positions, head, ConstTree(m, key));
    if !keep {
      ReleaseConst(m, key, TreesOf(m, r), env);
      left := ReleaseTree(env, Const);
    }
    proof, left := PushCustoms(m, key, left, positions, proof, keep, TreesOf(m, r));
    proof, left := PushStages(m, key, left, positions, proof, TreesOf(m, r));
  }

  /** The openings and the rest of the wire. */
  method WriteProof<S>(m: Machine, ghost key: Key, ghost r: Run<S>, env: Env, w: Drawn, keep: bool) returns (proof: Words)
    requires ValidMachine(m) && SizedMachine(m) && ValidAir(m.air) && ValidRun(m, r) && OpenIn(m, key, r.s, r.d, env)
    requires DrawnFrom(m, r, w) && |w.closed.nonce| > 0
    requires Wire.PackedWidth(m.air.airgroupvalues) <= |w.airgroup| && Wire.PackedWidth(m.air.airvalues) <= |w.airvalues|
    ensures proof == DriverWords(m, key, r)
  {
    var head := WriteHead(m, env[Root(Cm1)], w);
    var p := w.closed.positions;
    proof := WriteTrees(m, key, r, env, p, head, keep);
    proof := proof + Flatten(w.friRoots);
    proof := PushFri(m, w.layers, p, proof);
    proof := proof + w.closed.finalPol;
    proof := proof + [w.closed.nonce[0]];
    ghost var values := Wire.Triples(w.airgroup, m.air.airgroupvalues) + Wire.Triples(w.airvalues, m.air.airvalues);
    WordsRegroup(m, key, r, values);
  }

  /** The driver's running concatenation is the serializer's tail behind the values. */
  lemma WordsRegroup<S>(m: Machine, key: Key, r: Run<S>, values: Words)
    requires ValidMachine(m) && SizedMachine(m) && ValidAir(m.air) && ValidRun(m, r)
    ensures var p, q := WireProof(m, key, r), r.c.positions;
            values + (Wire.Flatten(p.roots) + p.evals) + Wire.Block(p.const_) + Wire.Flatten(Wire.Blocks(p.customs))
            + Wire.Flatten(Wire.Blocks(p.stages)) + Wire.Flatten(p.friRoots) + Wire.Flatten(Wire.Blocks(p.fri)) + p.finalPol + [p.nonce]
            == values + Wire.Tail(p)
  {
    var p := WireProof(m, key, r);
    Wire.Assoc(values, Wire.Flatten(p.roots), p.evals);
    Wire.Regroup(values, Wire.Flatten(p.roots), p.evals, Wire.Block(p.const_), Wire.Flatten(Wire.Blocks(p.customs)),
                 Wire.Flatten(Wire.Blocks(p.stages)), Wire.Flatten(p.friRoots), Wire.Flatten(Wire.Blocks(p.fri)), p.finalPol, [p.nonce]);
    Wire.Assoc(values + Wire.Flatten(p.roots) + p.evals + Wire.Block(p.const_) + Wire.Flatten(Wire.Blocks(p.customs))
               + Wire.Flatten(Wire.Blocks(p.stages)) + Wire.Flatten(p.friRoots) + Wire.Flatten(Wire.Blocks(p.fri)), p.finalPol, [p.nonce]);
  }
}
