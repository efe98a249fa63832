/** The bridge's threads never get stuck, and every run comes to an end. */
module LoadProveProgress {
  import opened LoadProve
  import opened LoadProveSafety
  import Arith
  import A = Admission
  import G = Gates
  import E = EntryLocks
  import L = Loading

  // -------------------------------------------------------------- what runs keep

  ghost predicate Moves(cfg: Config, s: State, s': State) {
    Shaped(cfg, s) && exists t: nat, fail: bool :: MovesBy(cfg, s, t, fail, s')
  }

  ghost predicate MovesBy(cfg: Config, s: State, t: nat, fail: bool, s': State)
    requires Shaped(cfg, s)
  {
    t < |s.pcs| && Enabled(cfg, s, t) && s' == Next(cfg, s, t, fail)
  }

  /** A run: any threads' steps in any order, from nothing loaded. */
  ghost predicate IsRun(cfg: Config, run: seq<State>) {
    && ValidConfig(cfg) && |run| > 0 && run[0] == Start(cfg)
    && forall i: nat {:trigger run[i]} | i + 1 < |run| :: Moves(cfg, run[i], run[i + 1])
  }

  lemma MoveInv(cfg: Config, s: State, s': State)
    requires Inv(cfg, s) && Moves(cfg, s, s')
    ensures Inv(cfg, s')
  {
    hide Inv, Next, Enabled;
    var t: nat, fail: bool :| MovesBy(cfg, s, t, fail, s');
    StepInv(cfg, s, t, fail);
  }

  lemma {:induction false} RunInv(cfg: Config, run: seq<State>, i: nat)
    requires IsRun(cfg, run) && i < |run|
    ensures Inv(cfg, run[i])
  {
    hide Moves, Inv;
    if i == 0 {
      StartInv(cfg);
    } else {
      RunInv(cfg, run, i - 1);
      assert Moves(cfg, run[i - 1], run[i - 1 + 1]);
      MoveInv(cfg, run[i - 1], run[i]);
    }
  }

  /** On each client a running prove is alone: no load is in flight, no other thread
      proves, and whoever proves has every program of its AIR. */
  lemma ProveIsAlone(cfg: Config, run: seq<State>, i: nat, t: nat, u: nat)
    requires IsRun(cfg, run) && i < |run| && t < |run[i].pcs| && u < |run[i].pcs| && u != t
    requires |run[i].pcs| == |cfg.jobs| && cfg.jobs[t].client == cfg.jobs[u].client && run[i].pcs[t].Run?
    ensures cfg.jobs[t].client < |run[i].clients|
    ensures run[i].clients[cfg.jobs[t].client].gate.proving && run[i].clients[cfg.jobs[t].client].gate.loads == 0
    ensures !GateRole(run[i].pcs[u]).Loading? && !GateRole(run[i].pcs[u]).Proving?
    ensures HasAll(cfg.programs(cfg.jobs[t].key), run[i].pcs[t].exes)
  {
    hide IsRun;
    RunInv(cfg, run, i);
    var s, c := run[i], cfg.jobs[t].client;
    assert ClientOk(cfg, s, c);
    assert LocalOk(cfg, cfg.jobs[t].key, s.pcs[t]);
    var g := GateOf(cfg, s, c);
    assert g.roles[t] == GateRole(s.pcs[t]) && g.roles[u] == GateRole(s.pcs[u]);
    G.ProveIsAlone(g, t, u);
  }

  /** No thread is ever at the load gate while it proves. */
  lemma NeverReenters(cfg: Config, run: seq<State>, i: nat, t: nat)
    requires IsRun(cfg, run) && i < |run| && t < |run[i].pcs|
    ensures !run[i].pcs[t].Reenter?
  {
    RunInv(cfg, run, i);
    assert LocalOk(cfg, cfg.jobs[t].key, run[i].pcs[t]);
  }

  /** While a prove waits on a client, no step lets another load in there. */
  lemma LoadsOnlyFall(cfg: Config, s: State, t: nat, fail: bool, c: nat)
    requires Inv(cfg, s) && t < |s.pcs| && Enabled(cfg, s, t) && c < |s.clients| && s.clients[c].gate.waiting > 0
    ensures Next(cfg, s, t, fail).clients[c].gate.loads <= s.clients[c].gate.loads
  {
  }

  /** A spurious wakeup keeps everything. */
  lemma SpuriousInv(cfg: Config, s: State, t: nat)
    requires Inv(cfg, s) && t < |s.pcs|
    ensures Inv(cfg, Spurious(cfg, s, t))
  {
    var s' := Spurious(cfg, s, t);
    forall u: nat {:trigger s'.pcs[u]} | u < |s.pcs| ensures LocalOk(cfg, cfg.jobs[u].key, s'.pcs[u]) {
      assert LocalOk(cfg, cfg.jobs[u].key, s.pcs[u]);
    }
    assert EntriesOf(cfg, s').roles == E.SpuriousStep(EntriesOf(cfg, s), t).roles;
    E.SpuriousInv(EntriesOf(cfg, s), t);
    forall c: nat | c < |s.clients| ensures ClientOk(cfg, s', c) { SpuriousClient(cfg, s, t, c); }
  }

  lemma SpuriousClient(cfg: Config, s: State, t: nat, c: nat)
    requires Shaped(cfg, s) && t < |s.pcs| && c < |s.clients| && ClientOk(cfg, s, c)
    ensures ClientOk(cfg, Spurious(cfg, s, t), c)
  {
    hide G.Inv, L.Inv, A.Inv;
    var s' := Spurious(cfg, s, t);
    if cfg.jobs[t].client == c {
      assert GateOf(cfg, s', c).roles == G.SpuriousStep(GateOf(cfg, s, c), t).roles;
      assert LoadingOf(cfg, s', c).roles == L.SpuriousStep(LoadingOf(cfg, s, c), t).roles;
      assert QueueOf(cfg, s', c).roles == A.SpuriousStep(QueueOf(cfg, s, c), t).roles;
      G.SpuriousInv(GateOf(cfg, s, c), t);
      L.SpuriousInv(LoadingOf(cfg, s, c), t);
      A.SpuriousInv(QueueOf(cfg, s, c), cfg.lim, t);
    } else {
      assert GateOf(cfg, s', c).roles == GateOf(cfg, s, c).roles;
      assert LoadingOf(cfg, s', c).roles == LoadingOf(cfg, s, c).roles;
      assert QueueOf(cfg, s', c).roles == QueueOf(cfg, s, c).roles;
    }
  }

  // ------------------------------------------------------------------ never stuck

  /** No thread can go on. */
  ghost predicate Stuck(cfg: Config, s: State)
    requires Shaped(cfg, s)
  {
    forall t: nat {:trigger s.pcs[t]} | t < |s.pcs| :: !Enabled(cfg, s, t)
  }

  /** Where a thread can be when it cannot go on. */
  lemma StuckPlaces(cfg: Config, s: State, t: nat)
    requires Inv(cfg, s) && t < |s.pcs| && !Enabled(cfg, s, t)
    ensures Asleep(s.pcs[t]) || s.pcs[t].Done? || s.pcs[t].AtSlot?
    ensures s.pcs[t].AtSlot? ==> s.clients[cfg.jobs[t].client].slot.Some?
  {
    assert LocalOk(cfg, cfg.jobs[t].key, s.pcs[t]);
  }

  ghost predicate OnlyStuckPlaces(cfg: Config, s: State)
    requires Shaped(cfg, s)
  {
    forall t: nat {:trigger s.pcs[t]} | t < |s.pcs| ::
      && (Asleep(s.pcs[t]) || s.pcs[t].Done? || s.pcs[t].AtSlot?)
      && (s.pcs[t].AtSlot? ==> s.clients[cfg.jobs[t].client].slot.Some?)
  }

  /** Nobody holds a cache entry, so nobody sleeps for one. */
  lemma NoneAtEntries(cfg: Config, s: State, t: nat)
    requires Shaped(cfg, s) && E.Inv(EntriesOf(cfg, s)) && OnlyStuckPlaces(cfg, s) && t < |s.pcs|
    ensures !s.pcs[t].EntryWait?
  {
    var x := EntriesOf(cfg, s);
    assert forall u: nat {:trigger x.roles[u]} | u < |x.roles| :: !x.roles[u].Holding? && !x.roles[u].Notifying? by {
      forall u: nat {:trigger x.roles[u]} | u < |x.roles| ensures !x.roles[u].Holding? && !x.roles[u].Notifying? {
        assert x.roles[u] == EntryRole(cfg, cfg.jobs[u].key, s.pcs[u]);
      }
    }
    E.NoHolders(x);
    assert x.roles[t] == EntryRole(cfg, cfg.jobs[t].key, s.pcs[t]);
  }

  ghost predicate Quiet(cfg: Config, s: State)
    requires Shaped(cfg, s)
  {
    OnlyStuckPlaces(cfg, s) && forall t: nat {:trigger s.pcs[t]} | t < |s.pcs| :: !s.pcs[t].EntryWait?
  }

  /** Then nobody is inside a gate, so nobody sleeps at one. */
  lemma NoneAtGate(cfg: Config, s: State, c: nat, t: nat)
    requires Shaped(cfg, s) && Quiet(cfg, s) && c < |s.clients| && G.Inv(GateOf(cfg, s, c))
    requires t < |s.pcs| && cfg.jobs[t].client == c
    ensures !s.pcs[t].ProveGateWait? && !s.pcs[t].LoadGateWait?
  {
    var g := GateOf(cfg, s, c);
    G.CountZero(g.roles);
    forall u: nat {:trigger g.roles[u]} | u < |g.roles| ensures !g.roles[u].Loading? && !g.roles[u].Proving? && !g.roles[u].ProveWait? {
      assert cfg.jobs[u].client == c ==> g.roles[u] == GateRole(s.pcs[u]);
      NoGateHolder(cfg, s, c, u);
    }
    assert g.roles[t] == GateRole(s.pcs[t]);
  }

  lemma NoGateHolder(cfg: Config, s: State, c: nat, u: nat)
    requires Shaped(cfg, s) && Quiet(cfg, s) && c < |s.clients| && G.Inv(GateOf(cfg, s, c)) && u < |s.pcs|
    ensures !GateOf(cfg, s, c).roles[u].Loading? && !GateOf(cfg, s, c).roles[u].Proving? && !GateOf(cfg, s, c).roles[u].ProveWait?
  {
    var g := GateOf(cfg, s, c);
    forall v: nat {:trigger g.roles[v]} | v < |g.roles| ensures !g.roles[v].Loading? && !g.roles[v].Proving? {
      assert !GateRole(s.pcs[v]).Loading? && !GateRole(s.pcs[v]).Proving?;
    }
    G.CountZero(g.roles);
    assert g.roles[u] == if cfg.jobs[u].client == c then GateRole(s.pcs[u]) else G.Out;
  }

  /** So no slot is held, and nobody waits for one. */
  lemma NoneAtSlot(cfg: Config, s: State, c: nat, t: nat)
    requires Shaped(cfg, s) && OnlyStuckPlaces(cfg, s) && c < |s.clients| && SlotOk(cfg, s, c)
    requires forall u: nat {:trigger s.pcs[u]} | u < |s.pcs| && cfg.jobs[u].client == c :: !s.pcs[u].ProveGateWait?
    requires t < |s.pcs| && cfg.jobs[t].client == c
    ensures !s.pcs[t].AtSlot?
  {
    assert forall u: nat {:trigger s.pcs[u]} | u < |s.pcs| && cfg.jobs[u].client == c :: !HoldsSlot(s.pcs[u]);
  }

  /** Nobody is in, so the first in line would be awake: nobody waits for admission. */
  lemma NoneAtQueue(cfg: Config, s: State, c: nat, t: nat)
    requires Shaped(cfg, s) && c < |s.clients| && A.Inv(QueueOf(cfg, s, c), cfg.lim)
    requires forall u: nat {:trigger s.pcs[u]} | u < |s.pcs| && cfg.jobs[u].client == c ::
      s.pcs[u].Done? || (Asleep(s.pcs[u]) && (s.pcs[u].AdmitWait? || s.pcs[u].ReadyWait?))
    requires t < |s.pcs| && cfg.jobs[t].client == c
    ensures !s.pcs[t].AdmitWait?
  {
    var p := QueueOf(cfg, s, c);
    forall u: nat {:trigger p.roles[u]} | u < |p.roles|
      ensures !p.roles[u].In? && !p.roles[u].Notifying? && (p.roles[u].Waiting? ==> p.roles[u].asleep)
    {
      assert p.roles[u] == if cfg.jobs[u].client == c then QueueRole(cfg.jobs[u].bytes, s.pcs[u]) else A.Out;
    }
    assert p.roles[t] == QueueRole(cfg.jobs[t].bytes, s.pcs[t]);
    if p.q.serving < p.q.next {
      A.EmptyClientServesHead(p, cfg.lim);
    }
  }

  /** Nobody is loading, so nobody waits for a load. */
  lemma NoneAtLoads(cfg: Config, s: State, c: nat, t: nat)
    requires Shaped(cfg, s) && c < |s.clients| && L.Inv(LoadingOf(cfg, s, c))
    requires forall u: nat {:trigger s.pcs[u]} | u < |s.pcs| && cfg.jobs[u].client == c ::
      s.pcs[u].Done? || (Asleep(s.pcs[u]) && (s.pcs[u].AdmitWait? || s.pcs[u].ReadyWait?))
    requires t < |s.pcs| && cfg.jobs[t].client == c
    ensures !s.pcs[t].ReadyWait?
  {
    var l := LoadingOf(cfg, s, c);
    forall u: nat {:trigger l.roles[u]} | u < |l.roles| ensures !l.roles[u].Loading? {
      assert l.roles[u] == if cfg.jobs[u].client == c then LoadRole(cfg.jobs[u].key, s.pcs[u]) else L.Out;
    }
    L.NoLoaders(l);
    assert l.roles[t] == LoadRole(cfg.jobs[t].key, s.pcs[t]);
  }

  /** Some thread can always go on, until every thread is done. */
  lemma NeverStuck(cfg: Config, s: State)
    requires Inv(cfg, s)
    ensures Stuck(cfg, s) <==> forall t: nat {:trigger s.pcs[t]} | t < |s.pcs| :: s.pcs[t].Done?
  {
    if Stuck(cfg, s) {
      forall t: nat {:trigger s.pcs[t]} | t < |s.pcs| ensures s.pcs[t].Done? { StuckIsDone(cfg, s, t); }
    } else {
      var t: nat :| t < |s.pcs| && Enabled(cfg, s, t);
      assert !s.pcs[t].Done?;
    }
  }

  lemma StuckIsDone(cfg: Config, s: State, t: nat)
    requires Inv(cfg, s) && Stuck(cfg, s) && t < |s.pcs|
    ensures s.pcs[t].Done?
  {
    forall u: nat {:trigger s.pcs[u]} | u < |s.pcs|
      ensures Asleep(s.pcs[u]) || s.pcs[u].Done? || s.pcs[u].AtSlot?
      ensures s.pcs[u].AtSlot? ==> s.clients[cfg.jobs[u].client].slot.Some?
    {
      StuckPlaces(cfg, s, u);
    }
    forall u: nat {:trigger s.pcs[u]} | u < |s.pcs| ensures !s.pcs[u].EntryWait? { NoneAtEntries(cfg, s, u); }
    var c := cfg.jobs[t].client;
    assert ClientOk(cfg, s, c);
    QuietClientIsDone(cfg, s, c, t);
  }

  lemma QuietClientIsDone(cfg: Config, s: State, c: nat, t: nat)
    requires Shaped(cfg, s) && Quiet(cfg, s) && c < |s.clients| && ClientOk(cfg, s, c)
    requires t < |s.pcs| && cfg.jobs[t].client == c
    ensures s.pcs[t].Done?
  {
    forall u: nat {:trigger s.pcs[u]} | u < |s.pcs| && cfg.jobs[u].client == c
      ensures !s.pcs[u].ProveGateWait? && !s.pcs[u].LoadGateWait?
    {
      NoneAtGate(cfg, s, c, u);
    }
    forall u: nat {:trigger s.pcs[u]} | u < |s.pcs| && cfg.jobs[u].client == c ensures !s.pcs[u].AtSlot? {
      NoneAtSlot(cfg, s, c, u);
    }
    NoneAtQueue(cfg, s, c, t);
    NoneAtLoads(cfg, s, c, t);
  }

  // ------------------------------------------------------------- runs come to an end

  /** How many places a thread has left to go through. */
  function Rank(cfg: Config, key: string, pc: Pc): nat {
    var p, u := |cfg.programs(key)|, |cfg.uses(key)|;
    var left := (w: Work) => if w.i < p then 10 * (p - w.i) else 0;
    var runs := (k: nat) => if k < u then 2 * (u - k) else 0;
    match pc
    case AtArtifact => 2 * u + 10 * p + 16
    case ReadyWait(_) => 2 * u + 10 * p + 15
    case LoadManifest => 2 * u + 10 * p + 14
    case Load(w) => 2 * u + 13 + left(w)
    case AtLoadGate(w) => 2 * u + 12 + left(w)
    case LoadGateWait(w, _) => 2 * u + 11 + left(w)
    case AtEntry(w) => 2 * u + 10 + left(w)
    case EntryWait(w, _) => 2 * u + 9 + left(w)
    case Compile(w, _) => 2 * u + 8 + left(w)
    case DropEntry(w, _) => 2 * u + 7 + left(w)
    case NotifyEntry(w, _) => 2 * u + 6 + left(w)
    case DropLoadGate(w, _) => 2 * u + 5 + left(w)
    case FinishLoad(_, _) => 2 * u + 12
    case AtAdmit(_) => 2 * u + 11
    case AdmitWait(_, _, _) => 2 * u + 10
    case Upload(_, _) => 2 * u + 9
    case AtSlot(_, _) => 2 * u + 8
    case AtProveGate(_, _) => 2 * u + 7
    case ProveGateWait(_, _, _) => 2 * u + 6
    case Run(_, _, k) => 5 + runs(k)
    case Reenter(_, _, k) => 4 + runs(k)
    case DropProveGate(_) => 4
    case DropSlot(_) => 3
    case DropAdmit(_) => 2
    case NotifyAdmit => 1
    case Done => 0
  }

  /** One for a thread that is about to look again at what it waits for. */
  function Restless(pc: Pc): nat {
    if (pc.ReadyWait? || pc.LoadGateWait? || pc.EntryWait? || pc.AdmitWait? || pc.ProveGateWait?) && !pc.asleep then 1 else 0
  }

  function RankSum(cfg: Config, pcs: seq<Pc>): nat
    requires |pcs| <= |cfg.jobs|
  {
    if pcs == [] then 0
    else RankSum(cfg, pcs[..|pcs| - 1]) + Rank(cfg, cfg.jobs[|pcs| - 1].key, pcs[|pcs| - 1])
  }

  function RestlessSum(pcs: seq<Pc>): (n: nat)
    ensures n <= |pcs|
  {
    if pcs == [] then 0 else RestlessSum(pcs[..|pcs| - 1]) + Restless(pcs[|pcs| - 1])
  }

  lemma {:induction false} SumsUpdate(cfg: Config, pcs: seq<Pc>, t: nat, pc: Pc)
    requires |pcs| <= |cfg.jobs| && t < |pcs|
    ensures RankSum(cfg, pcs[t := pc]) + Rank(cfg, cfg.jobs[t].key, pcs[t]) == RankSum(cfg, pcs) + Rank(cfg, cfg.jobs[t].key, pc)
    ensures RestlessSum(pcs[t := pc]) + Restless(pcs[t]) == RestlessSum(pcs) + Restless(pc)
    decreases |pcs|
  {
    var n := |pcs| - 1;
    if t == n {
      assert pcs[t := pc][..n] == pcs[..n];
    } else {
      SumsUpdate(cfg, pcs[..n], t, pc);
      assert pcs[t := pc][..n] == pcs[..n][t := pc];
    }
  }

  lemma WakeRank(cfg: Config, key: string, cv: Cv, c: nat, pc: Pc)
    ensures Rank(cfg, key, WakePc(cv, c, pc)) == Rank(cfg, key, pc)
  {
  }

  lemma {:induction false} RankSumWake(cfg: Config, cv: Cv, pcs: seq<Pc>, n: nat)
    requires |pcs| == |cfg.jobs| && n <= |pcs|
    ensures RankSum(cfg, WakeAll(cfg, cv, pcs)[..n]) == RankSum(cfg, pcs[..n])
  {
    var w := WakeAll(cfg, cv, pcs);
    if n > 0 {
      RankSumWake(cfg, cv, pcs, n - 1);
      assert w[..n][..n - 1] == w[..n - 1] && pcs[..n][..n - 1] == pcs[..n - 1];
      WakeRank(cfg, cfg.jobs[n - 1].key, cv, cfg.jobs[n - 1].client, pcs[n - 1]);
    } else {
      assert w[..0] == [] && pcs[..0] == [];
    }
  }

  /** A step moves its thread on, or sends it back to sleep waking nobody. */
  ghost predicate Progress(cfg: Config, key: string, pc: Pc, e: Effect) {
    || Rank(cfg, key, e.pc) < Rank(cfg, key, pc)
    || (Rank(cfg, key, e.pc) == Rank(cfg, key, pc) && e.wake == NoCv && Restless(pc) == 1 && Restless(e.pc) == 0)
  }

  lemma ArtifactProgress(cfg: Config, s: State, t: nat, fail: bool)
    requires Shaped(cfg, s) && t < |s.pcs| && Enabled(cfg, s, t)
    requires s.pcs[t].AtArtifact? || s.pcs[t].ReadyWait? || s.pcs[t].LoadManifest? || s.pcs[t].FinishLoad?
    ensures Progress(cfg, cfg.jobs[t].key, s.pcs[t], EffectOf(cfg, s, t, fail))
  {
  }

  lemma LoadProgress(cfg: Config, s: State, t: nat, fail: bool)
    requires Shaped(cfg, s) && t < |s.pcs| && Enabled(cfg, s, t) && LocalOk(cfg, cfg.jobs[t].key, s.pcs[t])
    requires s.pcs[t].Load? || s.pcs[t].AtLoadGate? || s.pcs[t].LoadGateWait? || s.pcs[t].DropLoadGate?
    ensures Progress(cfg, cfg.jobs[t].key, s.pcs[t], EffectOf(cfg, s, t, fail))
  {
  }

  lemma CompileProgress(cfg: Config, s: State, t: nat, fail: bool)
    requires Shaped(cfg, s) && t < |s.pcs| && Enabled(cfg, s, t)
    requires s.pcs[t].AtEntry? || s.pcs[t].EntryWait? || s.pcs[t].Compile? || s.pcs[t].DropEntry? || s.pcs[t].NotifyEntry?
    ensures Progress(cfg, cfg.jobs[t].key, s.pcs[t], EffectOf(cfg, s, t, fail))
  {
  }

  lemma ProveProgress(cfg: Config, s: State, t: nat, fail: bool)
    requires Shaped(cfg, s) && t < |s.pcs| && Enabled(cfg, s, t) && LocalOk(cfg, cfg.jobs[t].key, s.pcs[t])
    requires s.pcs[t].AtSlot? || s.pcs[t].AtProveGate? || s.pcs[t].ProveGateWait? || s.pcs[t].Run?
      || s.pcs[t].DropProveGate? || s.pcs[t].DropSlot?
    ensures Progress(cfg, cfg.jobs[t].key, s.pcs[t], EffectOf(cfg, s, t, fail))
  {
    hide LookEffect, LoadGateEffect, EntryEffect, AdmitEffect, A.Take, A.Leave;
  }

  lemma AdmitProgress(cfg: Config, s: State, t: nat, fail: bool)
    requires Shaped(cfg, s) && t < |s.pcs| && Enabled(cfg, s, t) && LocalOk(cfg, cfg.jobs[t].key, s.pcs[t])
    requires s.pcs[t].AtAdmit? || s.pcs[t].AdmitWait? || s.pcs[t].Upload? || s.pcs[t].DropAdmit? || s.pcs[t].NotifyAdmit?
    ensures Progress(cfg, cfg.jobs[t].key, s.pcs[t], EffectOf(cfg, s, t, fail))
  {
    hide LookEffect, LoadGateEffect, EntryEffect, ProveGateEffect, A.Take, A.Leave;
  }

  lemma StepProgress(cfg: Config, s: State, t: nat, fail: bool)
    requires Shaped(cfg, s) && t < |s.pcs| && Enabled(cfg, s, t) && LocalOk(cfg, cfg.jobs[t].key, s.pcs[t])
    ensures Progress(cfg, cfg.jobs[t].key, s.pcs[t], EffectOf(cfg, s, t, fail))
  {
    hide EffectOf, Progress;
    match s.pcs[t]
    case AtArtifact | ReadyWait(_) | LoadManifest | FinishLoad(_, _) => ArtifactProgress(cfg, s, t, fail);
    case Load(_) | AtLoadGate(_) | LoadGateWait(_, _) | DropLoadGate(_, _) => LoadProgress(cfg, s, t, fail);
    case AtEntry(_) | EntryWait(_, _) | Compile(_, _) => CompileProgress(cfg, s, t, fail);
    case DropEntry(_, _) | NotifyEntry(_, _) => CompileProgress(cfg, s, t, fail);
    case AtAdmit(_) | AdmitWait(_, _, _) | Upload(_, _) | DropAdmit(_) | NotifyAdmit => AdmitProgress(cfg, s, t, fail);
    case _ => ProveProgress(cfg, s, t, fail);
  }

  lemma WakeNobody(cfg: Config, pcs: seq<Pc>)
    requires |pcs| == |cfg.jobs|
    ensures WakeAll(cfg, NoCv, pcs) == pcs
  {
  }

  /** Steps the state can still take, at most. */
  function Potential(cfg: Config, s: State): nat
    requires |s.pcs| == |cfg.jobs|
  {
    RankSum(cfg, s.pcs) * (|s.pcs| + 1) + RestlessSum(s.pcs)
  }

  lemma MulGap(a: int, b: int, c: nat)
    requires a < b
    ensures a * c + c <= b * c
  {
    Arith.MulMono(a + 1, b, c);
  }

  lemma LexicographicDrop(r: nat, a: nat, r': nat, a': nat, n: nat)
    requires a' <= n && (r' < r || (r' == r && a' < a))
    ensures r' * (n + 1) + a' < r * (n + 1) + a
  {
    if r' < r { MulGap(r', r, n + 1); }
  }

  /** A step lowers the ranks, or keeps them and puts a thread to sleep. */
  lemma SumsDrop(cfg: Config, s: State, t: nat, fail: bool)
    requires Inv(cfg, s) && t < |s.pcs| && Enabled(cfg, s, t)
    ensures var s' := Next(cfg, s, t, fail);
            && |s.pcs| == |cfg.jobs| == |s'.pcs| && RestlessSum(s'.pcs) <= |s.pcs|
            && (RankSum(cfg, s'.pcs) < RankSum(cfg, s.pcs)
                || (RankSum(cfg, s'.pcs) == RankSum(cfg, s.pcs) && RestlessSum(s'.pcs) < RestlessSum(s.pcs)))
  {
    hide EffectOf, LocalOk, GateOf, LoadingOf, QueueOf, EntriesOf, Restless;
    var e, s' := EffectOf(cfg, s, t, fail), Next(cfg, s, t, fail);
    var mid := s.pcs[t := e.pc];
    assert LocalOk(cfg, cfg.jobs[t].key, s.pcs[t]);
    StepProgress(cfg, s, t, fail);
    SumsUpdate(cfg, s.pcs, t, e.pc);
    RankSumWake(cfg, e.wake, mid, |mid|);
    assert s'.pcs[..|mid|] == s'.pcs && mid[..|mid|] == mid;
    if e.wake == NoCv { WakeNobody(cfg, mid); }
  }

  lemma PotentialDrops(cfg: Config, s: State, t: nat, fail: bool)
    requires Inv(cfg, s) && t < |s.pcs| && Enabled(cfg, s, t)
    ensures Potential(cfg, Next(cfg, s, t, fail)) < Potential(cfg, s)
  {
    hide Enabled, Next, RankSum, RestlessSum, LocalOk, GateOf, LoadingOf, QueueOf, EntriesOf;
    SumsDrop(cfg, s, t, fail);
    var s' := Next(cfg, s, t, fail);
    LexicographicDrop(RankSum(cfg, s.pcs), RestlessSum(s.pcs), RankSum(cfg, s'.pcs), RestlessSum(s'.pcs), |s.pcs|);
  }

  lemma PrefixRuns(cfg: Config, run: seq<State>)
    requires IsRun(cfg, run) && |run| > 1
    ensures IsRun(cfg, run[..|run| - 1]) && Moves(cfg, run[|run| - 2], run[|run| - 1])
  {
    hide Moves, ValidConfig;
    var n := |run| - 1;
    var init := run[..n];
    assert forall i: nat {:trigger init[i]} | i < n :: init[i] == run[i];
    assert Moves(cfg, run[n - 1], run[n - 1 + 1]);
  }

  lemma MovePotential(cfg: Config, s: State, s': State)
    requires Inv(cfg, s) && Moves(cfg, s, s') && Inv(cfg, s')
    ensures Potential(cfg, s') < Potential(cfg, s)
  {
    hide Inv, Potential, Next, Enabled;
    var t: nat, fail: bool :| MovesBy(cfg, s, t, fail, s');
    PotentialDrops(cfg, s, t, fail);
  }

  lemma {:induction false} RunPotential(cfg: Config, run: seq<State>)
    requires IsRun(cfg, run)
    ensures Inv(cfg, run[|run| - 1]) && |run| - 1 + Potential(cfg, run[|run| - 1]) <= Potential(cfg, Start(cfg))
    decreases |run|
  {
    hide Moves, ValidConfig, Inv, Potential;
    var n := |run| - 1;
    RunInv(cfg, run, n);
    if n > 0 {
      PrefixRuns(cfg, run);
      RunPotential(cfg, run[..n]);
      assert run[..n][n - 1] == run[n - 1];
      MovePotential(cfg, run[n - 1], run[n]);
    }
  }

  /** Every interleaving is finite, and one that can be taken no further has every
      thread done: no run deadlocks, and none goes on for ever. */
  lemma RunsEnd(cfg: Config, run: seq<State>)
    requires IsRun(cfg, run)
    ensures Shaped(cfg, run[|run| - 1])
    ensures |run| - 1 + Potential(cfg, run[|run| - 1]) <= Potential(cfg, Start(cfg))
    ensures Stuck(cfg, run[|run| - 1]) <==>
              forall t: nat {:trigger run[|run| - 1].pcs[t]} | t < |cfg.jobs| :: run[|run| - 1].pcs[t].Done?
  {
    RunPotential(cfg, run);
    NeverStuck(cfg, run[|run| - 1]);
  }
}
