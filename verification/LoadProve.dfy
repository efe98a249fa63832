/** The bridge's threads together: loaders and provers over any number of clients,
    each step one stretch between two blocking points, in any interleaving. */
module LoadProve {
  import A = Admission
  import G = Gates
  import E = EntryLocks
  import L = Loading

  datatype Option<+T> = None | Some(value: T)

  /** One thread's job: load `key`'s artifact on `client`, and with `prove` go on to
      prove an instance of `bytes` upload bytes. */
  datatype Job = Job(client: nat, key: string, bytes: nat, prove: bool)

  /** The jobs; an AIR's programs (its manifest's names), the ones a prove runs, and
      each program's cache file, if there is a cache; and the admission limits. */
  datatype Config = Config(clients: nat, jobs: seq<Job>, programs: string -> seq<string>, uses: string -> seq<string>,
                           path: (string, string) -> Option<string>, lim: A.Limits)

  ghost predicate ValidConfig(cfg: Config) {
    cfg.lim.cap >= 1 && forall t: nat {:trigger cfg.jobs[t]} | t < |cfg.jobs| :: cfg.jobs[t].client < cfg.clients
  }

  /** A load under way: the programs in so far, the next one, and whether all went well. */
  datatype Work = Work(exes: set<string>, i: nat, ok: bool)

  datatype Pc =
    | AtArtifact                                              // about to look for the artifact
    | ReadyWait(asleep: bool)                                 // another thread is loading the key
    | LoadManifest                                            // this thread has marked the key
    | Load(w: Work)                                           // about to take the next program, or finish
    | AtLoadGate(w: Work)
    | LoadGateWait(w: Work, asleep: bool)
    | AtEntry(w: Work)                                        // in the gate
    | EntryWait(w: Work, asleep: bool)
    | Compile(w: Work, locked: bool)                          // in the gate, and holding the cache entry if there is one
    | DropEntry(w: Work, panicked: bool)
    | NotifyEntry(w: Work, panicked: bool)                    // the entry is free, its notify still to come
    | DropLoadGate(w: Work, panicked: bool)
    | FinishLoad(exes: set<string>, ok: bool)
    | AtAdmit(exes: set<string>)
    | AdmitWait(exes: set<string>, ticket: nat, asleep: bool)
    | Upload(exes: set<string>, ticket: nat)                  // admitted: uploads, and the fixed sections' read-ahead
    | AtSlot(exes: set<string>, ticket: nat)
    | AtProveGate(exes: set<string>, ticket: nat)             // holding the slot
    | ProveGateWait(exes: set<string>, ticket: nat, asleep: bool)
    | Run(exes: set<string>, ticket: nat, k: nat)             // proving; about to run the k-th program
    | Reenter(exes: set<string>, ticket: nat, k: nat)         // proving, and at the load gate for a missing program
    | DropProveGate(ticket: nat)
    | DropSlot(ticket: nat)
    | DropAdmit(ticket: nat)
    | NotifyAdmit                                             // the place is free, its notify still to come
    | Done

  datatype Client = Client(ready: map<string, set<string>>, inFlight: set<string>, gate: G.GateState,
                           queue: A.Queue, who: seq<nat>, slot: Option<nat>)

  datatype State = State(pcs: seq<Pc>, clients: seq<Client>, busy: set<string>)

  /** The condition variables: a client's loaded map, gate and queue, and the entries'. */
  datatype Cv = LoadedCv(client: nat) | GateCv(client: nat) | QueueCv(client: nat) | EntryCv | NoCv

  function WakePc(cv: Cv, client: nat, pc: Pc): Pc {
    match pc
    case ReadyWait(_) => if cv == LoadedCv(client) then ReadyWait(false) else pc
    case LoadGateWait(w, _) => if cv == GateCv(client) then LoadGateWait(w, false) else pc
    case ProveGateWait(e, k, _) => if cv == GateCv(client) then ProveGateWait(e, k, false) else pc
    case EntryWait(w, _) => if cv == EntryCv then EntryWait(w, false) else pc
    case AdmitWait(e, k, _) => if cv == QueueCv(client) then AdmitWait(e, k, false) else pc
    case _ => pc
  }

  function WakeAll(cfg: Config, cv: Cv, pcs: seq<Pc>): (r: seq<Pc>)
    requires |pcs| == |cfg.jobs|
    ensures |r| == |pcs|
  {
    seq(|pcs|, (t: nat) requires t < |pcs| => WakePc(cv, cfg.jobs[t].client, pcs[t]))
  }

  predicate Asleep(pc: Pc) {
    (pc.ReadyWait? || pc.LoadGateWait? || pc.EntryWait? || pc.AdmitWait? || pc.ProveGateWait?) && pc.asleep
  }

  // ----------------------------------------------------------------------- steps

  /** What one thread's step does: its next place, its client, the busy entries, and
      the condition variable it notifies. */
  datatype Effect = Effect(pc: Pc, client: Client, busy: set<string>, wake: Cv)

  function Program(cfg: Config, key: string, w: Work): string {
    if w.i < |cfg.programs(key)| then cfg.programs(key)[w.i] else ""
  }

  function EntryOf(cfg: Config, key: string, w: Work): Option<string> { cfg.path(key, Program(cfg, key, w)) }

  function WithArtifact(job: Job, exes: set<string>): Pc { if job.prove then AtAdmit(exes) else Done }

  function LookEffect(job: Job, cl: Client, busy: set<string>): Effect {
    if job.key in cl.ready then Effect(WithArtifact(job, cl.ready[job.key]), cl, busy, NoCv)
    else if job.key !in cl.inFlight then Effect(LoadManifest, cl.(inFlight := cl.inFlight + {job.key}), busy, NoCv)
    else Effect(ReadyWait(true), cl, busy, NoCv)
  }

  function LoadGateEffect(cl: Client, busy: set<string>, w: Work): Effect {
    if G.LoadMayEnter(cl.gate) then Effect(AtEntry(w), cl.(gate := cl.gate.(loads := cl.gate.loads + 1)), busy, NoCv)
    else Effect(LoadGateWait(w, true), cl, busy, NoCv)
  }

  function EntryEffect(cfg: Config, job: Job, cl: Client, busy: set<string>, w: Work): Effect {
    match EntryOf(cfg, job.key, w)
    case None => Effect(Compile(w, false), cl, busy, NoCv)
    case Some(p) => if p !in busy then Effect(Compile(w, true), cl, busy + {p}, NoCv)
                    else Effect(EntryWait(w, true), cl, busy, NoCv)
  }

  function AdmitEffect(cfg: Config, job: Job, t: nat, cl: Client, busy: set<string>, exes: set<string>, ticket: nat): Effect {
    if A.Turn(cl.queue, cfg.lim, ticket, job.bytes) then
      Effect(Upload(exes, ticket), cl.(queue := A.Enter(cl.queue, ticket, job.bytes)), busy, QueueCv(job.client))
    else Effect(AdmitWait(exes, ticket, true), cl, busy, NoCv)
  }

  function ProveGateEffect(cl: Client, busy: set<string>, exes: set<string>, ticket: nat, arriving: bool): Effect {
    var g := cl.gate;
    if G.ProveMayEnter(g) && (arriving || g.waiting > 0) then
      var waiting := if arriving then g.waiting else g.waiting - 1;
      Effect(Run(exes, ticket, 0), cl.(gate := g.(waiting := waiting, proving := true, started := true)), busy, NoCv)
    else
      var waiting := if arriving then g.waiting + 1 else g.waiting;
      Effect(ProveGateWait(exes, ticket, true), cl.(gate := g.(waiting := waiting)), busy, NoCv)
  }

  /** The effect of thread `t`'s next step; `fail` is the outcome of the stretches
      that may fail or panic. */
  function EffectOf(cfg: Config, s: State, t: nat, fail: bool): Effect
    requires |s.pcs| == |cfg.jobs| && t < |s.pcs| && cfg.jobs[t].client < |s.clients|
  {
    var job := cfg.jobs[t];
    var cl := s.clients[job.client];
    var same := Effect(s.pcs[t], cl, s.busy, NoCv);
    match s.pcs[t]
    case AtArtifact => LookEffect(job, cl, s.busy)
    case ReadyWait(_) => LookEffect(job, cl, s.busy)
    case LoadManifest => same.(pc := if fail then FinishLoad({}, false) else Load(Work({}, 0, true)))
    case Load(w) =>
      if w.i >= |cfg.programs(job.key)| then same.(pc := FinishLoad(w.exes, w.ok))
      else if Program(cfg, job.key, w) in w.exes then same.(pc := Load(w.(i := w.i + 1)))
      else if fail then same.(pc := Load(w.(i := w.i + 1, ok := false)))
      else same.(pc := AtLoadGate(w))
    case AtLoadGate(w) => LoadGateEffect(cl, s.busy, w)
    case LoadGateWait(w, _) => LoadGateEffect(cl, s.busy, w)
    case AtEntry(w) => EntryEffect(cfg, job, cl, s.busy, w)
    case EntryWait(w, _) => EntryEffect(cfg, job, cl, s.busy, w)
    case Compile(w, locked) =>
      var w' := if fail then w else w.(exes := w.exes + {Program(cfg, job.key, w)});
      same.(pc := if locked then DropEntry(w', fail) else DropLoadGate(w', fail))
    case DropEntry(w, panicked) =>
      var entry := EntryOf(cfg, job.key, w);
      same.(pc := NotifyEntry(w, panicked), busy := if entry.Some? then s.busy - {entry.value} else s.busy)
    case NotifyEntry(w, panicked) => same.(pc := DropLoadGate(w, panicked), wake := EntryCv)
    case DropLoadGate(w, panicked) =>
      var loads := if cl.gate.loads > 0 then cl.gate.loads - 1 else 0;
      Effect(if panicked then FinishLoad(w.exes, false) else Load(w.(i := w.i + 1)),
             cl.(gate := cl.gate.(loads := loads)), s.busy, GateCv(job.client))
    case FinishLoad(exes, ok) =>
      Effect(if ok then WithArtifact(job, exes) else Done,
             cl.(inFlight := cl.inFlight - {job.key}, ready := if ok then cl.ready[job.key := exes] else cl.ready),
             s.busy, LoadedCv(job.client))
    case AtAdmit(exes) =>
      AdmitEffect(cfg, job, t, cl.(queue := A.Take(cl.queue), who := cl.who + [t]), s.busy, exes, cl.queue.next)
    case AdmitWait(exes, ticket, _) => AdmitEffect(cfg, job, t, cl, s.busy, exes, ticket)
    case Upload(exes, ticket) => same.(pc := if fail then DropAdmit(ticket) else AtSlot(exes, ticket))
    case AtSlot(exes, ticket) => same.(pc := AtProveGate(exes, ticket), client := cl.(slot := Some(t)))
    case AtProveGate(exes, ticket) => ProveGateEffect(cl, s.busy, exes, ticket, true)
    case ProveGateWait(exes, ticket, _) => ProveGateEffect(cl, s.busy, exes, ticket, false)
    case Run(exes, ticket, k) =>
      if fail || k >= |cfg.uses(job.key)| then same.(pc := DropProveGate(ticket))
      else if cfg.uses(job.key)[k] in exes then same.(pc := Run(exes, ticket, k + 1))
      else if cfg.uses(job.key)[k] !in cfg.programs(job.key) then same.(pc := DropProveGate(ticket))
      else same.(pc := Reenter(exes, ticket, k))
    case Reenter(exes, ticket, k) => same.(pc := Run(exes, ticket, k + 1))
    case DropProveGate(ticket) =>
      Effect(DropSlot(ticket), cl.(gate := cl.gate.(proving := false)), s.busy, GateCv(job.client))
    case DropSlot(ticket) => same.(pc := DropAdmit(ticket), client := cl.(slot := None))
    case DropAdmit(ticket) => same.(pc := NotifyAdmit, client := cl.(queue := A.Leave(cl.queue, ticket)))
    case NotifyAdmit => same.(pc := Done, wake := QueueCv(job.client))
    case Done => same
  }

  function Apply(cfg: Config, s: State, t: nat, e: Effect): (s': State)
    requires |s.pcs| == |cfg.jobs| && t < |s.pcs| && cfg.jobs[t].client < |s.clients|
    ensures |s'.pcs| == |s.pcs| && |s'.clients| == |s.clients|
  {
    State(WakeAll(cfg, e.wake, s.pcs[t := e.pc]), s.clients[cfg.jobs[t].client := e.client], e.busy)
  }

  /** Whether the thread can go on by itself: it is not asleep, not before a slot
      another thread holds, and not before a gate it cannot pass. */
  predicate Enabled(cfg: Config, s: State, t: nat)
    requires |s.pcs| == |cfg.jobs| && t < |s.pcs| && cfg.jobs[t].client < |s.clients|
  {
    var cl := s.clients[cfg.jobs[t].client];
    && !Asleep(s.pcs[t]) && !s.pcs[t].Done?
    && (s.pcs[t].AtSlot? ==> cl.slot.None?)
    && (s.pcs[t].Reenter? ==> G.LoadMayEnter(cl.gate))
  }

  ghost predicate Shaped(cfg: Config, s: State) {
    ValidConfig(cfg) && |s.pcs| == |cfg.jobs| && |s.clients| == cfg.clients
  }

  function Next(cfg: Config, s: State, t: nat, fail: bool): (s': State)
    requires |s.pcs| == |cfg.jobs| && t < |s.pcs| && cfg.jobs[t].client < |s.clients|
  {
    Apply(cfg, s, t, EffectOf(cfg, s, t, fail))
  }

  /** A wakeup nobody sent. */
  function Spurious(cfg: Config, s: State, t: nat): State
    requires |s.pcs| == |cfg.jobs| && t < |s.pcs|
  {
    s.(pcs := s.pcs[t := Awake(s.pcs[t])])
  }

  function Awake(pc: Pc): Pc {
    match pc
    case ReadyWait(_) => ReadyWait(false)
    case LoadGateWait(w, _) => LoadGateWait(w, false)
    case ProveGateWait(e, k, _) => ProveGateWait(e, k, false)
    case EntryWait(w, _) => EntryWait(w, false)
    case AdmitWait(e, k, _) => AdmitWait(e, k, false)
    case _ => pc
  }

  function NewClient(): Client {
    Client(map[], {}, G.GateState(0, false, 0, false), A.Queue([], 0, 0), [], None)
  }

  function Start(cfg: Config): State {
    State(seq(|cfg.jobs|, (t: nat) => AtArtifact), seq(cfg.clients, (c: nat) => NewClient()), {})
  }

  // -------------------------------------------------- each component's view of it

  function GateRole(pc: Pc): G.Role {
    match pc
    case LoadGateWait(_, asleep) => G.LoadWait(asleep)
    case AtEntry(_) | EntryWait(_, _) | Compile(_, _) | DropEntry(_, _) | NotifyEntry(_, _) | DropLoadGate(_, _) => G.Loading
    case ProveGateWait(_, _, asleep) => G.ProveWait(asleep)
    case Run(_, _, _) | Reenter(_, _, _) | DropProveGate(_) => G.Proving
    case _ => G.Out
  }

  function LoadRole(key: string, pc: Pc): L.Role<string> {
    match pc
    case ReadyWait(asleep) => L.Waiting(key, asleep)
    case LoadManifest | Load(_) | AtLoadGate(_) | LoadGateWait(_, _) | AtEntry(_) | EntryWait(_, _) => L.Loading(key)
    case Compile(_, _) | DropEntry(_, _) | NotifyEntry(_, _) | DropLoadGate(_, _) | FinishLoad(_, _) => L.Loading(key)
    case _ => L.Out
  }

  function QueueRole(bytes: nat, pc: Pc): A.Role {
    match pc
    case AdmitWait(_, ticket, asleep) => A.Waiting(ticket, bytes, asleep)
    case Upload(_, ticket) => A.In(ticket, bytes)
    case AtSlot(_, ticket) => A.In(ticket, bytes)
    case AtProveGate(_, ticket) => A.In(ticket, bytes)
    case ProveGateWait(_, ticket, _) => A.In(ticket, bytes)
    case Run(_, ticket, _) => A.In(ticket, bytes)
    case Reenter(_, ticket, _) => A.In(ticket, bytes)
    case DropProveGate(ticket) => A.In(ticket, bytes)
    case DropSlot(ticket) => A.In(ticket, bytes)
    case DropAdmit(ticket) => A.In(ticket, bytes)
    case NotifyAdmit => A.Notifying
    case _ => A.Out
  }

  function EntryPath(cfg: Config, key: string, w: Work): string {
    var p := EntryOf(cfg, key, w);
    if p.Some? then p.value else ""
  }

  function EntryRole(cfg: Config, key: string, pc: Pc): E.Role<string> {
    match pc
    case EntryWait(w, asleep) => E.Waiting(EntryPath(cfg, key, w), asleep)
    case Compile(w, locked) => if locked then E.Holding(EntryPath(cfg, key, w)) else E.Out
    case DropEntry(w, _) => E.Holding(EntryPath(cfg, key, w))
    case NotifyEntry(_, _) => E.Notifying
    case _ => E.Out
  }

  predicate HoldsSlot(pc: Pc) {
    pc.AtProveGate? || pc.ProveGateWait? || pc.Run? || pc.Reenter? || pc.DropProveGate? || pc.DropSlot?
  }

  function GateOf(cfg: Config, s: State, c: nat): (r: G.System)
    requires |s.pcs| == |cfg.jobs| && c < |s.clients|
    ensures |r.roles| == |s.pcs|
  {
    G.System(s.clients[c].gate,
             seq(|s.pcs|, (t: nat) requires t < |s.pcs| => if cfg.jobs[t].client == c then GateRole(s.pcs[t]) else G.Out))
  }

  function LoadingOf(cfg: Config, s: State, c: nat): (r: L.System<string>)
    requires |s.pcs| == |cfg.jobs| && c < |s.clients|
    ensures |r.roles| == |s.pcs|
  {
    L.System(s.clients[c].ready.Keys, s.clients[c].inFlight,
             seq(|s.pcs|, (t: nat) requires t < |s.pcs| =>
               if cfg.jobs[t].client == c then LoadRole(cfg.jobs[t].key, s.pcs[t]) else L.Out))
  }

  function QueueOf(cfg: Config, s: State, c: nat): (r: A.Pool)
    requires |s.pcs| == |cfg.jobs| && c < |s.clients|
    ensures |r.roles| == |s.pcs|
  {
    A.Pool(s.clients[c].queue,
           seq(|s.pcs|, (t: nat) requires t < |s.pcs| =>
             if cfg.jobs[t].client == c then QueueRole(cfg.jobs[t].bytes, s.pcs[t]) else A.Out),
           s.clients[c].who)
  }

  function EntriesOf(cfg: Config, s: State): (r: E.System<string>)
    requires |s.pcs| == |cfg.jobs|
    ensures |r.roles| == |s.pcs|
  {
    E.System(s.busy, seq(|s.pcs|, (t: nat) requires t < |s.pcs| => EntryRole(cfg, cfg.jobs[t].key, s.pcs[t])))
  }
}
