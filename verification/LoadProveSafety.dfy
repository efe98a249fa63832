/** What every interleaving of the bridge's threads keeps. */
module LoadProveSafety {
  import opened LoadProve
  import A = Admission
  import G = Gates
  import E = EntryLocks
  import L = Loading

  // ------------------------------------- one step, as each component sees it

  ghost predicate OwnWake(e: Effect, c: nat) {
    match e.wake
    case LoadedCv(d) => d == c
    case GateCv(d) => d == c
    case QueueCv(d) => d == c
    case EntryCv => true
    case NoCv => true
  }

  function GateAfter(r: seq<G.Role>, t: nat, e: Effect): seq<G.Role>
    requires t < |r|
  {
    if e.wake.GateCv? then G.WakeAll(r[t := GateRole(e.pc)]) else r[t := GateRole(e.pc)]
  }

  lemma GateView(cfg: Config, s: State, t: nat, e: Effect, c: nat)
    requires Shaped(cfg, s) && t < |s.pcs| && c < |s.clients| && OwnWake(e, cfg.jobs[t].client)
    ensures c == cfg.jobs[t].client ==>
      GateOf(cfg, Apply(cfg, s, t, e), c) == G.System(e.client.gate, GateAfter(GateOf(cfg, s, c).roles, t, e))
    ensures c != cfg.jobs[t].client ==> GateOf(cfg, Apply(cfg, s, t, e), c) == GateOf(cfg, s, c)
  {
    var s' := Apply(cfg, s, t, e);
    var r, r' := GateOf(cfg, s, c).roles, GateOf(cfg, s', c).roles;
    if c == cfg.jobs[t].client {
      forall u: nat | u < |r| ensures r'[u] == GateAfter(r, t, e)[u] { }
    } else {
      forall u: nat | u < |r| ensures r'[u] == r[u] { }
      assert r' == r;
    }
  }

  function LoadingAfter(r: seq<L.Role<string>>, key: string, t: nat, e: Effect): seq<L.Role<string>>
    requires t < |r|
  {
    if e.wake.LoadedCv? then L.WakeAll(r[t := LoadRole(key, e.pc)]) else r[t := LoadRole(key, e.pc)]
  }

  lemma LoadingView(cfg: Config, s: State, t: nat, e: Effect, c: nat)
    requires Shaped(cfg, s) && t < |s.pcs| && c < |s.clients| && OwnWake(e, cfg.jobs[t].client)
    ensures c == cfg.jobs[t].client ==>
      LoadingOf(cfg, Apply(cfg, s, t, e), c)
      == L.System(e.client.ready.Keys, e.client.inFlight, LoadingAfter(LoadingOf(cfg, s, c).roles, cfg.jobs[t].key, t, e))
    ensures c != cfg.jobs[t].client ==> LoadingOf(cfg, Apply(cfg, s, t, e), c) == LoadingOf(cfg, s, c)
  {
    var s' := Apply(cfg, s, t, e);
    var r, r' := LoadingOf(cfg, s, c).roles, LoadingOf(cfg, s', c).roles;
    if c == cfg.jobs[t].client {
      forall u: nat | u < |r| ensures r'[u] == LoadingAfter(r, cfg.jobs[t].key, t, e)[u] { }
    } else {
      forall u: nat | u < |r| ensures r'[u] == r[u] { }
      assert r' == r;
    }
  }

  function QueueAfter(r: seq<A.Role>, bytes: nat, t: nat, e: Effect): seq<A.Role>
    requires t < |r|
  {
    if e.wake.QueueCv? then A.WakeAll(r[t := QueueRole(bytes, e.pc)]) else r[t := QueueRole(bytes, e.pc)]
  }

  lemma QueueView(cfg: Config, s: State, t: nat, e: Effect, c: nat)
    requires Shaped(cfg, s) && t < |s.pcs| && c < |s.clients| && OwnWake(e, cfg.jobs[t].client)
    ensures c == cfg.jobs[t].client ==>
      QueueOf(cfg, Apply(cfg, s, t, e), c)
      == A.Pool(e.client.queue, QueueAfter(QueueOf(cfg, s, c).roles, cfg.jobs[t].bytes, t, e), e.client.who)
    ensures c != cfg.jobs[t].client ==> QueueOf(cfg, Apply(cfg, s, t, e), c) == QueueOf(cfg, s, c)
  {
    var s' := Apply(cfg, s, t, e);
    var r, r' := QueueOf(cfg, s, c).roles, QueueOf(cfg, s', c).roles;
    if c == cfg.jobs[t].client {
      forall u: nat | u < |r| ensures r'[u] == QueueAfter(r, cfg.jobs[t].bytes, t, e)[u] { }
    } else {
      forall u: nat | u < |r| ensures r'[u] == r[u] { }
      assert r' == r;
    }
  }

  function EntriesAfter(r: seq<E.Role<string>>, role: E.Role<string>, t: nat, e: Effect): seq<E.Role<string>>
    requires t < |r|
  {
    if e.wake.EntryCv? then E.WakeAll(r[t := role]) else r[t := role]
  }

  lemma EntriesView(cfg: Config, s: State, t: nat, e: Effect)
    requires Shaped(cfg, s) && t < |s.pcs|
    ensures EntriesOf(cfg, Apply(cfg, s, t, e))
         == E.System(e.busy, EntriesAfter(EntriesOf(cfg, s).roles, EntryRole(cfg, cfg.jobs[t].key, e.pc), t, e))
  {
    var s' := Apply(cfg, s, t, e);
    var r, r' := EntriesOf(cfg, s).roles, EntriesOf(cfg, s').roles;
    forall u: nat | u < |r| ensures r'[u] == EntriesAfter(r, EntryRole(cfg, cfg.jobs[t].key, e.pc), t, e)[u] { }
  }

  // ------------------------------------------------------------------- invariant

  /** Programs `[..n]` are in `exes`. */
  ghost predicate Has(progs: seq<string>, n: nat, exes: set<string>) {
    n <= |progs| && forall i: nat {:trigger progs[i]} | i < n :: progs[i] in exes
  }

  ghost predicate HasAll(progs: seq<string>, exes: set<string>) { Has(progs, |progs|, exes) }

  /** What a thread's place says of its own load: a load in good order has every
      program before its position, an artifact a thread holds has them all, and no
      prove is ever at the load gate. */
  ghost predicate LocalOk(cfg: Config, key: string, pc: Pc) {
    var p := cfg.programs(key);
    match pc
    case Load(w) => w.i <= |p| && (w.ok ==> Has(p, w.i, w.exes))
    case AtLoadGate(w) => w.i < |p| && (w.ok ==> Has(p, w.i, w.exes))
    case LoadGateWait(w, _) => w.i < |p| && (w.ok ==> Has(p, w.i, w.exes))
    case AtEntry(w) => w.i < |p| && (w.ok ==> Has(p, w.i, w.exes))
    case EntryWait(w, _) => w.i < |p| && (w.ok ==> Has(p, w.i, w.exes)) && EntryOf(cfg, key, w).Some?
    case Compile(w, locked) => w.i < |p| && (w.ok ==> Has(p, w.i, w.exes)) && (locked ==> EntryOf(cfg, key, w).Some?)
    case DropEntry(w, bad) => w.i < |p| && (w.ok && !bad ==> Has(p, w.i + 1, w.exes)) && EntryOf(cfg, key, w).Some?
    case NotifyEntry(w, bad) => w.i < |p| && (w.ok && !bad ==> Has(p, w.i + 1, w.exes))
    case DropLoadGate(w, bad) => w.i < |p| && (w.ok && !bad ==> Has(p, w.i + 1, w.exes))
    case FinishLoad(exes, ok) => ok ==> HasAll(p, exes)
    case AtAdmit(exes) => HasAll(p, exes)
    case AdmitWait(exes, _, _) => HasAll(p, exes)
    case Upload(exes, _) => HasAll(p, exes)
    case AtSlot(exes, _) => HasAll(p, exes)
    case AtProveGate(exes, _) => HasAll(p, exes)
    case ProveGateWait(exes, _, _) => HasAll(p, exes)
    case Run(exes, _, k) => HasAll(p, exes) && k <= |cfg.uses(key)|
    case Reenter(_, _, _) => false
    case _ => true
  }

  ghost predicate LocalsOk(cfg: Config, s: State)
    requires |s.pcs| == |cfg.jobs|
  {
    forall t: nat {:trigger s.pcs[t]} | t < |s.pcs| :: LocalOk(cfg, cfg.jobs[t].key, s.pcs[t])
  }

  /** Every ready artifact has all its programs loaded. */
  ghost predicate ReadyOk(cfg: Config, cl: Client) {
    forall key: string :: key in cl.ready ==> HasAll(cfg.programs(key), cl.ready[key])
  }

  /** The slot's mutex is held by the one thread past it. */
  ghost predicate SlotOk(cfg: Config, s: State, c: nat)
    requires |s.pcs| == |cfg.jobs| && c < |s.clients|
  {
    && (forall t: nat {:trigger s.pcs[t]} | t < |s.pcs| && cfg.jobs[t].client == c && HoldsSlot(s.pcs[t]) ::
          s.clients[c].slot == Some(t))
    && (s.clients[c].slot.Some? ==>
          var t := s.clients[c].slot.value;
          t < |s.pcs| && cfg.jobs[t].client == c && HoldsSlot(s.pcs[t]))
  }

  ghost predicate ClientOk(cfg: Config, s: State, c: nat)
    requires |s.pcs| == |cfg.jobs| && c < |s.clients|
  {
    && ReadyOk(cfg, s.clients[c]) && SlotOk(cfg, s, c)
    && G.Inv(GateOf(cfg, s, c)) && L.Inv(LoadingOf(cfg, s, c)) && A.Inv(QueueOf(cfg, s, c), cfg.lim)
  }

  ghost predicate Inv(cfg: Config, s: State) {
    && Shaped(cfg, s) && LocalsOk(cfg, s) && E.Inv(EntriesOf(cfg, s))
    && forall c: nat | c < |s.clients| :: ClientOk(cfg, s, c)
  }

  lemma StartInv(cfg: Config)
    requires ValidConfig(cfg)
    ensures Inv(cfg, Start(cfg))
  {
    var s := Start(cfg);
    var n := |cfg.jobs|;
    assert EntriesOf(cfg, s) == E.Start(n);
    E.StartInv<string>(n);
    forall c: nat | c < |s.clients| ensures ClientOk(cfg, s, c) {
      assert GateOf(cfg, s, c) == G.Start(n);
      assert LoadingOf(cfg, s, c) == L.Start(n);
      assert QueueOf(cfg, s, c) == A.Start(n);
      G.StartInv(n);
      L.StartInv<string>(n);
      A.StartInv(n, cfg.lim);
    }
  }

  // ------------------------------------------------ each part survives each step

  lemma EffectsWakeOwn(cfg: Config, s: State, t: nat, fail: bool)
    requires Shaped(cfg, s) && t < |s.pcs|
    ensures OwnWake(EffectOf(cfg, s, t, fail), cfg.jobs[t].client)
  {
  }

  /** The gate's own step when thread `t` leaves `pc`. */
  function GateStep(g: G.System, t: nat, pc: Pc): G.System
    requires t < |g.roles| && g.roles[t] == GateRole(pc)
  {
    match pc
    case AtLoadGate(_) => G.LoadStep(g, t)
    case LoadGateWait(_, _) => G.LoadStep(g, t)
    case DropLoadGate(_, _) => G.DropLoadStep(g, t)
    case AtProveGate(_, _) => G.ArriveProveStep(g, t)
    case ProveGateWait(_, _, _) => G.RecheckProveStep(g, t)
    case DropProveGate(_) => G.DropProveStep(g, t)
    case _ => g
  }

  /** The steps that touch the gate. */
  predicate AtGate(pc: Pc) {
    pc.AtLoadGate? || pc.LoadGateWait? || pc.DropLoadGate? || pc.AtProveGate? || pc.ProveGateWait? || pc.DropProveGate?
  }

  lemma GateUntouched(cfg: Config, s: State, t: nat, fail: bool)
    requires Shaped(cfg, s) && t < |s.pcs| && !AtGate(s.pcs[t])
    ensures EffectOf(cfg, s, t, fail).client.gate == s.clients[cfg.jobs[t].client].gate
    ensures GateRole(EffectOf(cfg, s, t, fail).pc) == GateRole(s.pcs[t]) && !EffectOf(cfg, s, t, fail).wake.GateCv?
  {
    hide A.Take, A.Leave, A.Admits;
  }

  lemma GateStepAgrees(cfg: Config, s: State, t: nat, fail: bool, g: G.System)
    requires Shaped(cfg, s) && t < |s.pcs| == |g.roles|
    requires g.g == s.clients[cfg.jobs[t].client].gate && g.roles[t] == GateRole(s.pcs[t])
    ensures var e := EffectOf(cfg, s, t, fail); G.System(e.client.gate, GateAfter(g.roles, t, e)) == GateStep(g, t, s.pcs[t])
  {
    hide A.Take, A.Leave, A.Admits;
    if !AtGate(s.pcs[t]) {
      hide EffectOf;
      GateUntouched(cfg, s, t, fail);
      assert g.roles[t := g.roles[t]] == g.roles;
    }
  }

  lemma GateStepInv(g: G.System, t: nat, pc: Pc)
    requires t < |g.roles| && g.roles[t] == GateRole(pc) && G.Inv(g)
    ensures G.Inv(GateStep(g, t, pc))
  {
    match pc
    case AtLoadGate(_) => G.LoadInv(g, t);
    case LoadGateWait(_, _) => G.LoadInv(g, t);
    case DropLoadGate(_, _) => G.DropLoadInv(g, t);
    case AtProveGate(_, _) => G.ArriveProveInv(g, t);
    case ProveGateWait(_, _, _) => G.RecheckProveInv(g, t);
    case DropProveGate(_) => G.DropProveInv(g, t);
    case _ =>
  }

  lemma GateStays(cfg: Config, s: State, t: nat, fail: bool, c: nat)
    requires Shaped(cfg, s) && t < |s.pcs| && c < |s.clients| && G.Inv(GateOf(cfg, s, c))
    ensures G.Inv(GateOf(cfg, Next(cfg, s, t, fail), c))
  {
    EffectsWakeOwn(cfg, s, t, fail);
    GateView(cfg, s, t, EffectOf(cfg, s, t, fail), c);
    if c == cfg.jobs[t].client {
      GateStepAgrees(cfg, s, t, fail, GateOf(cfg, s, c));
      GateStepInv(GateOf(cfg, s, c), t, s.pcs[t]);
    }
  }

  function LoadingStep(l: L.System<string>, t: nat, key: string, pc: Pc): L.System<string>
    requires t < |l.roles| && l.roles[t] == LoadRole(key, pc)
  {
    match pc
    case AtArtifact => L.LookStep(l, t, key)
    case ReadyWait(_) => L.LookStep(l, t, key)
    case FinishLoad(_, ok) => L.FinishStep(l, t, ok)
    case _ => l
  }

  predicate AtLoading(pc: Pc) { pc.AtArtifact? || pc.ReadyWait? || pc.FinishLoad? }

  lemma LoadingUntouched(cfg: Config, s: State, t: nat, fail: bool)
    requires Shaped(cfg, s) && t < |s.pcs| && !AtLoading(s.pcs[t])
    ensures var e, cl := EffectOf(cfg, s, t, fail), s.clients[cfg.jobs[t].client];
            && e.client.ready == cl.ready && e.client.inFlight == cl.inFlight && !e.wake.LoadedCv?
            && LoadRole(cfg.jobs[t].key, e.pc) == LoadRole(cfg.jobs[t].key, s.pcs[t])
  {
    hide A.Take, A.Leave, A.Turn, G.LoadMayEnter, G.ProveMayEnter, LookEffect;
  }

  lemma LoadingStepAgrees(cfg: Config, s: State, t: nat, fail: bool, l: L.System<string>)
    requires Shaped(cfg, s) && t < |s.pcs| == |l.roles|
    requires l.ready == s.clients[cfg.jobs[t].client].ready.Keys && l.inFlight == s.clients[cfg.jobs[t].client].inFlight
    requires l.roles[t] == LoadRole(cfg.jobs[t].key, s.pcs[t])
    ensures var e := EffectOf(cfg, s, t, fail);
            L.System(e.client.ready.Keys, e.client.inFlight, LoadingAfter(l.roles, cfg.jobs[t].key, t, e))
            == LoadingStep(l, t, cfg.jobs[t].key, s.pcs[t])
  {
    hide AdmitEffect, LoadGateEffect, EntryEffect, ProveGateEffect;
    if !AtLoading(s.pcs[t]) {
      hide EffectOf;
      LoadingUntouched(cfg, s, t, fail);
      assert l.roles[t := LoadRole(cfg.jobs[t].key, s.pcs[t])] == l.roles;
    } else {
      var e := EffectOf(cfg, s, t, fail);
      if LoadRole(cfg.jobs[t].key, e.pc) == l.roles[t] {
        assert l.roles[t := LoadRole(cfg.jobs[t].key, e.pc)] == l.roles;
      }
    }
  }

  lemma LoadingStays(cfg: Config, s: State, t: nat, fail: bool, c: nat)
    requires Shaped(cfg, s) && t < |s.pcs| && c < |s.clients| && L.Inv(LoadingOf(cfg, s, c))
    ensures L.Inv(LoadingOf(cfg, Next(cfg, s, t, fail), c))
  {
    EffectsWakeOwn(cfg, s, t, fail);
    LoadingView(cfg, s, t, EffectOf(cfg, s, t, fail), c);
    if c == cfg.jobs[t].client {
      var l, key := LoadingOf(cfg, s, c), cfg.jobs[t].key;
      LoadingStepAgrees(cfg, s, t, fail, l);
      match s.pcs[t]
      case AtArtifact => L.LookInv(l, t, key);
      case ReadyWait(_) => L.LookInv(l, t, key);
      case FinishLoad(_, ok) => L.FinishInv(l, t, ok);
      case _ =>
    }
  }

  function QueueStep(p: A.Pool, lim: A.Limits, t: nat, bytes: nat, pc: Pc): A.Pool
    requires t < |p.roles| && p.roles[t] == QueueRole(bytes, pc)
  {
    match pc
    case AtAdmit(_) => A.ArriveStep(p, lim, t, bytes)
    case AdmitWait(_, _, _) => A.RecheckStep(p, lim, t)
    case DropAdmit(_) => A.DropStep(p, t)
    case NotifyAdmit => A.NotifyStep(p, t)
    case Upload(_, _) => p
    case _ => p
  }

  predicate AtQueue(pc: Pc) { pc.AtAdmit? || pc.AdmitWait? || pc.DropAdmit? || pc.NotifyAdmit? }

  lemma QueueUntouched(cfg: Config, s: State, t: nat, fail: bool)
    requires Shaped(cfg, s) && t < |s.pcs| && !AtQueue(s.pcs[t])
    ensures var e, cl := EffectOf(cfg, s, t, fail), s.clients[cfg.jobs[t].client];
            && e.client.queue == cl.queue && e.client.who == cl.who && !e.wake.QueueCv?
            && QueueRole(cfg.jobs[t].bytes, e.pc) == QueueRole(cfg.jobs[t].bytes, s.pcs[t])
  {
    hide G.LoadMayEnter, G.ProveMayEnter, AdmitEffect;
  }

  lemma QueueStepAgrees(cfg: Config, s: State, t: nat, fail: bool, p: A.Pool)
    requires Shaped(cfg, s) && t < |s.pcs| == |p.roles|
    requires p.q == s.clients[cfg.jobs[t].client].queue && p.who == s.clients[cfg.jobs[t].client].who
    requires p.roles[t] == QueueRole(cfg.jobs[t].bytes, s.pcs[t])
    ensures var e := EffectOf(cfg, s, t, fail);
            A.Pool(e.client.queue, QueueAfter(p.roles, cfg.jobs[t].bytes, t, e), e.client.who)
            == QueueStep(p, cfg.lim, t, cfg.jobs[t].bytes, s.pcs[t])
  {
    hide LookEffect, LoadGateEffect, EntryEffect, ProveGateEffect;
    if !AtQueue(s.pcs[t]) {
      hide EffectOf;
      QueueUntouched(cfg, s, t, fail);
      assert p.roles[t := QueueRole(cfg.jobs[t].bytes, s.pcs[t])] == p.roles;
    }
  }

  lemma QueueStays(cfg: Config, s: State, t: nat, fail: bool, c: nat)
    requires Shaped(cfg, s) && t < |s.pcs| && c < |s.clients| && A.Inv(QueueOf(cfg, s, c), cfg.lim)
    ensures A.Inv(QueueOf(cfg, Next(cfg, s, t, fail), c), cfg.lim)
  {
    EffectsWakeOwn(cfg, s, t, fail);
    QueueView(cfg, s, t, EffectOf(cfg, s, t, fail), c);
    if c == cfg.jobs[t].client {
      var p := QueueOf(cfg, s, c);
      QueueStepAgrees(cfg, s, t, fail, p);
      match s.pcs[t]
      case AtAdmit(_) => A.ArriveInv(p, cfg.lim, t, cfg.jobs[t].bytes);
      case AdmitWait(_, _, _) => A.RecheckInv(p, cfg.lim, t);
      case DropAdmit(_) => A.DropInv(p, cfg.lim, t);
      case NotifyAdmit => A.NotifyInv(p, cfg.lim, t);
      case _ =>
    }
  }

  function EntryStep(cfg: Config, x: E.System<string>, t: nat, key: string, pc: Pc): E.System<string>
    requires t < |x.roles| && x.roles[t] == EntryRole(cfg, key, pc)
  {
    match pc
    case AtEntry(w) => if EntryOf(cfg, key, w).None? then x else E.TakeStep(x, t, EntryPath(cfg, key, w))
    case EntryWait(w, _) => E.TakeStep(x, t, EntryPath(cfg, key, w))
    case DropEntry(w, _) => E.DropStep(x, t)
    case NotifyEntry(_, _) => E.NotifyStep(x, t)
    case _ => x
  }

  predicate AtEntries(pc: Pc) { pc.AtEntry? || pc.EntryWait? || pc.DropEntry? || pc.NotifyEntry? }

  lemma EntriesUntouched(cfg: Config, s: State, t: nat, fail: bool)
    requires Shaped(cfg, s) && t < |s.pcs| && !AtEntries(s.pcs[t]) && LocalOk(cfg, cfg.jobs[t].key, s.pcs[t])
    ensures var e := EffectOf(cfg, s, t, fail);
            && e.busy == s.busy && !e.wake.EntryCv?
            && EntryRole(cfg, cfg.jobs[t].key, e.pc) == EntryRole(cfg, cfg.jobs[t].key, s.pcs[t])
  {
    hide A.Take, A.Leave, A.Turn, G.LoadMayEnter, G.ProveMayEnter, EntryEffect, Has, HasAll;
  }

  lemma EntryStepAgrees(cfg: Config, s: State, t: nat, fail: bool, x: E.System<string>)
    requires Shaped(cfg, s) && t < |s.pcs| == |x.roles| && x.busy == s.busy
    requires x.roles[t] == EntryRole(cfg, cfg.jobs[t].key, s.pcs[t]) && LocalOk(cfg, cfg.jobs[t].key, s.pcs[t])
    ensures var e := EffectOf(cfg, s, t, fail);
            E.System(e.busy, EntriesAfter(x.roles, EntryRole(cfg, cfg.jobs[t].key, e.pc), t, e))
            == EntryStep(cfg, x, t, cfg.jobs[t].key, s.pcs[t])
  {
    hide AdmitEffect, LookEffect, LoadGateEffect, ProveGateEffect, Has, HasAll;
    if !AtEntries(s.pcs[t]) {
      hide EffectOf;
      EntriesUntouched(cfg, s, t, fail);
      assert x.roles[t := EntryRole(cfg, cfg.jobs[t].key, s.pcs[t])] == x.roles;
    } else {
      var e := EffectOf(cfg, s, t, fail);
      if EntryRole(cfg, cfg.jobs[t].key, e.pc) == x.roles[t] {
        assert x.roles[t := EntryRole(cfg, cfg.jobs[t].key, e.pc)] == x.roles;
      }
    }
  }

  lemma EntriesStay(cfg: Config, s: State, t: nat, fail: bool)
    requires Shaped(cfg, s) && t < |s.pcs| && E.Inv(EntriesOf(cfg, s)) && LocalOk(cfg, cfg.jobs[t].key, s.pcs[t])
    ensures E.Inv(EntriesOf(cfg, Next(cfg, s, t, fail)))
  {
    EntriesView(cfg, s, t, EffectOf(cfg, s, t, fail));
    var x, key := EntriesOf(cfg, s), cfg.jobs[t].key;
    EntryStepAgrees(cfg, s, t, fail, x);
    match s.pcs[t]
    case AtEntry(w) => E.TakeInv(x, t, EntryPath(cfg, key, w));
    case EntryWait(w, _) => E.TakeInv(x, t, EntryPath(cfg, key, w));
    case DropEntry(w, _) => E.DropInv(x, t);
    case NotifyEntry(_, _) => E.NotifyInv(x, t);
    case _ =>
  }

  // -------------------------------------------------------- loads, slot, artifacts

  lemma HasNext(progs: seq<string>, n: nat, exes: set<string>, more: set<string>)
    requires Has(progs, n, exes) && n < |progs| && exes <= more && progs[n] in more
    ensures Has(progs, n + 1, more)
  {
  }

  /** A program of the manifest is never missing from a complete artifact. */
  lemma NeverMissing(progs: seq<string>, exes: set<string>, name: string)
    requires HasAll(progs, exes) && name in progs
    ensures name in exes
  {
    var i: nat :| i < |progs| && progs[i] == name;
  }

  lemma ReadyMoves(cfg: Config, s: State, t: nat, fail: bool)
    requires Shaped(cfg, s) && t < |s.pcs| && LocalOk(cfg, cfg.jobs[t].key, s.pcs[t])
    requires ReadyOk(cfg, s.clients[cfg.jobs[t].client])
    ensures ReadyOk(cfg, EffectOf(cfg, s, t, fail).client)
  {
    var cl, e := s.clients[cfg.jobs[t].client], EffectOf(cfg, s, t, fail);
    if s.pcs[t].FinishLoad? {
    } else {
      assert e.client.ready == cl.ready;
    }
  }

  lemma TakeLocal(cfg: Config, s: State, t: nat, fail: bool)
    requires Shaped(cfg, s) && t < |s.pcs| && LocalOk(cfg, cfg.jobs[t].key, s.pcs[t])
    requires s.pcs[t].Load? || s.pcs[t].LoadManifest?
    ensures LocalOk(cfg, cfg.jobs[t].key, EffectOf(cfg, s, t, fail).pc)
  {
    var p := cfg.programs(cfg.jobs[t].key);
    if s.pcs[t].Load? {
      var w := s.pcs[t].w;
      if w.ok && w.i < |p| && p[w.i] in w.exes { HasNext(p, w.i, w.exes, w.exes); }
    }
  }

  lemma CompileLocal(cfg: Config, s: State, t: nat, fail: bool)
    requires Shaped(cfg, s) && t < |s.pcs| && LocalOk(cfg, cfg.jobs[t].key, s.pcs[t])
    requires s.pcs[t].Compile?
    ensures LocalOk(cfg, cfg.jobs[t].key, EffectOf(cfg, s, t, fail).pc)
  {
    var p, w := cfg.programs(cfg.jobs[t].key), s.pcs[t].w;
    if w.ok { HasNext(p, w.i, w.exes, w.exes + {p[w.i]}); }
  }

  lemma GateLocal(cfg: Config, s: State, t: nat, fail: bool)
    requires Shaped(cfg, s) && t < |s.pcs| && LocalOk(cfg, cfg.jobs[t].key, s.pcs[t])
    requires s.pcs[t].AtLoadGate? || s.pcs[t].LoadGateWait? || s.pcs[t].AtEntry? || s.pcs[t].EntryWait?
      || s.pcs[t].DropEntry? || s.pcs[t].NotifyEntry? || s.pcs[t].DropLoadGate?
    ensures LocalOk(cfg, cfg.jobs[t].key, EffectOf(cfg, s, t, fail).pc)
  {
  }

  lemma RunLocal(cfg: Config, s: State, t: nat, fail: bool)
    requires Shaped(cfg, s) && t < |s.pcs| && LocalOk(cfg, cfg.jobs[t].key, s.pcs[t])
    requires s.pcs[t].Run?
    ensures LocalOk(cfg, cfg.jobs[t].key, EffectOf(cfg, s, t, fail).pc)
  {
    var p, uses, k := cfg.programs(cfg.jobs[t].key), cfg.uses(cfg.jobs[t].key), s.pcs[t].k;
    if k < |uses| && uses[k] in p { NeverMissing(p, s.pcs[t].exes, uses[k]); }
  }

  /** What a thread's next place says of its load follows from the place it leaves. */
  lemma LocalMoves(cfg: Config, s: State, t: nat, fail: bool)
    requires Shaped(cfg, s) && t < |s.pcs| && LocalOk(cfg, cfg.jobs[t].key, s.pcs[t])
    requires ReadyOk(cfg, s.clients[cfg.jobs[t].client])
    ensures LocalOk(cfg, cfg.jobs[t].key, EffectOf(cfg, s, t, fail).pc)
  {
    hide A.Take, A.Leave, A.Turn, G.LoadMayEnter, G.ProveMayEnter, Has;
    match s.pcs[t]
    case Load(_) => TakeLocal(cfg, s, t, fail);
    case LoadManifest => TakeLocal(cfg, s, t, fail);
    case Compile(_, _) => CompileLocal(cfg, s, t, fail);
    case Run(_, _, _) => RunLocal(cfg, s, t, fail);
    case AtLoadGate(_) | LoadGateWait(_, _) | AtEntry(_) | EntryWait(_, _) => GateLocal(cfg, s, t, fail);
    case DropEntry(_, _) | NotifyEntry(_, _) | DropLoadGate(_, _) => GateLocal(cfg, s, t, fail);
    case _ =>
  }

  lemma WakeLocal(cfg: Config, key: string, cv: Cv, client: nat, pc: Pc)
    ensures LocalOk(cfg, key, WakePc(cv, client, pc)) == LocalOk(cfg, key, pc)
    ensures HoldsSlot(WakePc(cv, client, pc)) == HoldsSlot(pc)
  {
  }

  lemma LocalsStay(cfg: Config, s: State, t: nat, fail: bool)
    requires Shaped(cfg, s) && t < |s.pcs| && LocalsOk(cfg, s) && ReadyOk(cfg, s.clients[cfg.jobs[t].client])
    ensures LocalsOk(cfg, Next(cfg, s, t, fail))
  {
    var e := EffectOf(cfg, s, t, fail);
    var s' := Next(cfg, s, t, fail);
    LocalMoves(cfg, s, t, fail);
    forall u: nat {:trigger s'.pcs[u]} | u < |s'.pcs| ensures LocalOk(cfg, cfg.jobs[u].key, s'.pcs[u]) {
      WakeLocal(cfg, cfg.jobs[u].key, e.wake, cfg.jobs[u].client, s.pcs[t := e.pc][u]);
      assert LocalOk(cfg, cfg.jobs[u].key, s.pcs[u]);
    }
  }

  lemma SlotMoves(cfg: Config, s: State, t: nat, fail: bool)
    requires Shaped(cfg, s) && t < |s.pcs| && Enabled(cfg, s, t) && SlotOk(cfg, s, cfg.jobs[t].client)
    ensures var e, slot := EffectOf(cfg, s, t, fail), s.clients[cfg.jobs[t].client].slot;
            && (HoldsSlot(e.pc) <==> e.client.slot == Some(t))
            && (!HoldsSlot(e.pc) && !HoldsSlot(s.pcs[t]) ==> e.client.slot == slot)
            && (HoldsSlot(e.pc) && !HoldsSlot(s.pcs[t]) ==> slot == None)
            && (!HoldsSlot(e.pc) && HoldsSlot(s.pcs[t]) ==> e.client.slot == None)
  {
  }

  lemma SlotStays(cfg: Config, s: State, t: nat, fail: bool, c: nat)
    requires Shaped(cfg, s) && t < |s.pcs| && Enabled(cfg, s, t) && c < |s.clients| && SlotOk(cfg, s, c)
    ensures SlotOk(cfg, Next(cfg, s, t, fail), c)
  {
    var e := EffectOf(cfg, s, t, fail);
    var s' := Next(cfg, s, t, fail);
    forall u: nat {:trigger s'.pcs[u]} | u < |s.pcs|
      ensures HoldsSlot(s'.pcs[u]) == if u == t then HoldsSlot(e.pc) else HoldsSlot(s.pcs[u])
    {
      WakeLocal(cfg, "", e.wake, cfg.jobs[u].client, s.pcs[t := e.pc][u]);
    }
    if c == cfg.jobs[t].client { SlotMoves(cfg, s, t, fail); }
  }

  /** Every step of every thread keeps the invariant. */
  lemma StepInv(cfg: Config, s: State, t: nat, fail: bool)
    requires Inv(cfg, s) && t < |s.pcs| && Enabled(cfg, s, t)
    ensures Inv(cfg, Next(cfg, s, t, fail))
  {
    var s' := Next(cfg, s, t, fail);
    assert ClientOk(cfg, s, cfg.jobs[t].client);
    LocalsStay(cfg, s, t, fail);
    assert LocalOk(cfg, cfg.jobs[t].key, s.pcs[t]);
    EntriesStay(cfg, s, t, fail);
    forall c: nat | c < |s'.clients| ensures ClientOk(cfg, s', c) {
      assert ClientOk(cfg, s, c);
      GateStays(cfg, s, t, fail, c);
      LoadingStays(cfg, s, t, fail, c);
      QueueStays(cfg, s, t, fail, c);
      SlotStays(cfg, s, t, fail, c);
      ReadyMoves(cfg, s, t, fail);
    }
  }
}
