/** The load/prove gate of one client: loads enter together, a prove enters alone,
    and a waiting prove holds new loads back. */
module Gates {

  /** What the gate's mutex guards. */
  datatype GateState = GateState(loads: nat, proving: bool, waiting: nat, started: bool)

  predicate LoadMayEnter(g: GateState) { !g.proving && g.waiting == 0 }

  predicate ProveMayEnter(g: GateState) { !g.proving && g.loads == 0 }

  /** The gate as the program keeps it; each method is one stretch under the lock. */
  class Gate {
    var loads: nat
    var proving: bool
    var waiting: nat
    var started: bool

    function Value(): GateState
      reads this
    {
      GateState(loads, proving, waiting, started)
    }

    constructor ()
      ensures Value() == GateState(0, false, 0, false)
    {
      loads, proving, waiting, started := 0, false, 0, false;
    }

    /** A round of `enter_load`'s wait loop. */
    method TryEnterLoad() returns (entered: bool)
      modifies this
      ensures entered == LoadMayEnter(old(Value()))
      ensures Value() == if entered then old(Value()).(loads := old(loads) + 1) else old(Value())
    {
      entered := !(proving || waiting > 0);
      if entered {
        loads := loads + 1;
      }
    }

    /** `enter_prove` up to its first wait. */
    method ArriveProve() returns (entered: bool)
      modifies this
      ensures entered == ProveMayEnter(old(Value()))
      ensures Value() == if entered then old(Value()).(proving := true, started := true)
                         else old(Value()).(waiting := old(waiting) + 1)
    {
      waiting := waiting + 1;
      entered := RecheckProve();
    }

    /** One more round of `enter_prove`'s wait loop. */
    method RecheckProve() returns (entered: bool)
      requires waiting > 0
      modifies this
      ensures entered == ProveMayEnter(old(Value()))
      ensures Value() == if entered then old(Value()).(waiting := old(waiting) - 1, proving := true, started := true)
                         else old(Value())
    {
      entered := !(proving || loads > 0);
      if entered {
        waiting := waiting - 1;
        proving := true;
        started := true;
      }
    }

    /** The pass's drop, on either side. */
    method Drop(load: bool)
      requires load ==> loads > 0
      modifies this
      ensures Value() == if load then old(Value()).(loads := old(loads) - 1) else old(Value()).(proving := false)
    {
      if load {
        loads := loads - 1;
      } else {
        proving := false;
      }
    }
  }

  // ---------------------------------------------------------- threads at the gate

  datatype Role = Out | LoadWait(asleep: bool) | Loading | ProveWait(asleep: bool) | Proving

  /** The gate and its threads. */
  datatype System = System(g: GateState, roles: seq<Role>)

  function Wake(r: Role): Role {
    if r.LoadWait? || r.ProveWait? then r.(asleep := false) else r
  }

  /** notify_all */
  function WakeAll(roles: seq<Role>): (w: seq<Role>)
    ensures |w| == |roles|
  {
    seq(|roles|, (t: nat) requires t < |roles| => Wake(roles[t]))
  }

  /** A load's look at the gate, on arriving or on waking. */
  function LoadStep(s: System, t: nat): System
    requires t < |s.roles| && (s.roles[t].Out? || s.roles[t].LoadWait?)
  {
    if LoadMayEnter(s.g) then System(s.g.(loads := s.g.loads + 1), s.roles[t := Loading])
    else System(s.g, s.roles[t := LoadWait(true)])
  }

  function ArriveProveStep(s: System, t: nat): System
    requires t < |s.roles| && s.roles[t].Out?
  {
    if ProveMayEnter(s.g) then System(s.g.(proving := true, started := true), s.roles[t := Proving])
    else System(s.g.(waiting := s.g.waiting + 1), s.roles[t := ProveWait(true)])
  }

  function RecheckProveStep(s: System, t: nat): System
    requires t < |s.roles| && s.roles[t].ProveWait?
  {
    if ProveMayEnter(s.g) && s.g.waiting > 0 then
      System(s.g.(waiting := s.g.waiting - 1, proving := true, started := true), s.roles[t := Proving])
    else System(s.g, s.roles[t := ProveWait(true)])
  }

  function DropLoadStep(s: System, t: nat): System
    requires t < |s.roles| && s.roles[t].Loading?
  {
    System(s.g.(loads := if s.g.loads > 0 then s.g.loads - 1 else 0), WakeAll(s.roles[t := Out]))
  }

  function DropProveStep(s: System, t: nat): System
    requires t < |s.roles| && s.roles[t].Proving?
  {
    System(s.g.(proving := false), WakeAll(s.roles[t := Out]))
  }

  /** A wakeup nobody sent. */
  function SpuriousStep(s: System, t: nat): System
    requires t < |s.roles|
  {
    s.(roles := s.roles[t := Wake(s.roles[t])])
  }

  /** One thread's next move at the gate: out, it may come as a load or as a prove. */
  ghost predicate Step(s: System, t: nat, s': System) {
    t < |s.roles| &&
    match s.roles[t]
    case Out => s' == LoadStep(s, t) || s' == ArriveProveStep(s, t)
    case LoadWait(asleep) => s' == if asleep then SpuriousStep(s, t) else LoadStep(s, t)
    case Loading => s' == DropLoadStep(s, t)
    case ProveWait(asleep) => s' == if asleep then SpuriousStep(s, t) else RecheckProveStep(s, t)
    case Proving => s' == DropProveStep(s, t)
  }

  // ------------------------------------------------------------------- invariant

  /** How many of the threads are loading, waiting to prove, or proving. */
  function Loads(roles: seq<Role>): nat {
    if roles == [] then 0 else Loads(roles[..|roles| - 1]) + if roles[|roles| - 1].Loading? then 1 else 0
  }

  function Waits(roles: seq<Role>): nat {
    if roles == [] then 0 else Waits(roles[..|roles| - 1]) + if roles[|roles| - 1].ProveWait? then 1 else 0
  }

  function Proves(roles: seq<Role>): nat {
    if roles == [] then 0 else Proves(roles[..|roles| - 1]) + if roles[|roles| - 1].Proving? then 1 else 0
  }

  /** The counters count the threads, a prove is alone, and no sleeper could go. */
  ghost predicate Inv(s: System) {
    && s.g.loads == Loads(s.roles) && s.g.waiting == Waits(s.roles)
    && Proves(s.roles) == (if s.g.proving then 1 else 0)
    && (s.g.proving ==> s.g.loads == 0)
    && (forall t: nat {:trigger s.roles[t]} | t < |s.roles| :: !(s.roles[t] == LoadWait(true) && LoadMayEnter(s.g)))
    && (forall t: nat {:trigger s.roles[t]} | t < |s.roles| :: !(s.roles[t] == ProveWait(true) && ProveMayEnter(s.g)))
  }

  function One(b: bool): nat { if b then 1 else 0 }

  lemma {:induction false} CountUpdate(roles: seq<Role>, t: nat, r: Role)
    requires t < |roles|
    ensures Loads(roles[t := r]) + One(roles[t].Loading?) == Loads(roles) + One(r.Loading?)
    ensures Waits(roles[t := r]) + One(roles[t].ProveWait?) == Waits(roles) + One(r.ProveWait?)
    ensures Proves(roles[t := r]) + One(roles[t].Proving?) == Proves(roles) + One(r.Proving?)
    decreases |roles|
  {
    var n := |roles| - 1;
    if t == n {
      assert roles[t := r][..n] == roles[..n];
    } else {
      CountUpdate(roles[..n], t, r);
      assert roles[t := r][..n] == roles[..n][t := r];
    }
  }

  lemma {:induction false} CountWake(roles: seq<Role>)
    ensures Loads(WakeAll(roles)) == Loads(roles) && Waits(WakeAll(roles)) == Waits(roles)
    ensures Proves(WakeAll(roles)) == Proves(roles)
  {
    if roles != [] {
      var n := |roles| - 1;
      CountWake(roles[..n]);
      assert WakeAll(roles)[..n] == WakeAll(roles[..n]);
    }
  }

  /** A count is zero exactly when no thread has the role. */
  lemma {:induction false} CountZero(roles: seq<Role>)
    ensures Loads(roles) == 0 <==> forall t: nat {:trigger roles[t]} | t < |roles| :: !roles[t].Loading?
    ensures Waits(roles) == 0 <==> forall t: nat {:trigger roles[t]} | t < |roles| :: !roles[t].ProveWait?
    ensures Proves(roles) == 0 <==> forall t: nat {:trigger roles[t]} | t < |roles| :: !roles[t].Proving?
  {
    if roles != [] {
      var n := |roles| - 1;
      CountZero(roles[..n]);
      assert forall t: nat {:trigger roles[t]} | t < n :: roles[..n][t] == roles[t];
    }
  }

  /** A role some thread has counts at least once. */
  lemma CountHas(roles: seq<Role>, t: nat)
    requires t < |roles|
    ensures roles[t].Loading? ==> Loads(roles) > 0
    ensures roles[t].ProveWait? ==> Waits(roles) > 0
    ensures roles[t].Proving? ==> Proves(roles) > 0
  {
    CountZero(roles);
  }

  lemma {:induction false} CountOut(n: nat)
    ensures var roles := seq(n, (t: nat) => Out); Loads(roles) == Waits(roles) == Proves(roles) == 0
  {
    CountZero(seq(n, (t: nat) => Out));
  }

  function Start(n: nat): System { System(GateState(0, false, 0, false), seq(n, (t: nat) => Out)) }

  lemma StartInv(n: nat)
    ensures Inv(Start(n))
  {
    CountOut(n);
  }

  lemma LoadInv(s: System, t: nat)
    requires Inv(s) && t < |s.roles| && (s.roles[t].Out? || s.roles[t].LoadWait?)
    ensures Inv(LoadStep(s, t))
  {
    CountUpdate(s.roles, t, Loading);
    CountUpdate(s.roles, t, LoadWait(true));
  }

  lemma ArriveProveInv(s: System, t: nat)
    requires Inv(s) && t < |s.roles| && s.roles[t].Out?
    ensures Inv(ArriveProveStep(s, t))
  {
    CountUpdate(s.roles, t, Proving);
    CountUpdate(s.roles, t, ProveWait(true));
  }

  lemma RecheckProveInv(s: System, t: nat)
    requires Inv(s) && t < |s.roles| && s.roles[t].ProveWait?
    ensures Inv(RecheckProveStep(s, t)) && s.g.waiting > 0
  {
    CountUpdate(s.roles, t, Proving);
    CountUpdate(s.roles, t, ProveWait(true));
    CountHas(s.roles, t);
  }

  lemma DropLoadInv(s: System, t: nat)
    requires Inv(s) && t < |s.roles| && s.roles[t].Loading?
    ensures Inv(DropLoadStep(s, t)) && s.g.loads > 0
  {
    CountUpdate(s.roles, t, Out);
    CountWake(s.roles[t := Out]);
    CountHas(s.roles, t);
  }

  lemma DropProveInv(s: System, t: nat)
    requires Inv(s) && t < |s.roles| && s.roles[t].Proving?
    ensures Inv(DropProveStep(s, t))
  {
    CountUpdate(s.roles, t, Out);
    CountWake(s.roles[t := Out]);
    CountHas(s.roles, t);
  }

  lemma SpuriousInv(s: System, t: nat)
    requires Inv(s) && t < |s.roles|
    ensures Inv(SpuriousStep(s, t))
  {
    CountUpdate(s.roles, t, Wake(s.roles[t]));
  }

  lemma StepInv(s: System, t: nat, s': System)
    requires Inv(s) && Step(s, t, s')
    ensures Inv(s')
  {
    match s.roles[t]
    case Out =>
      LoadInv(s, t);
      ArriveProveInv(s, t);
    case LoadWait(asleep) => if asleep { SpuriousInv(s, t); } else { LoadInv(s, t); }
    case Loading => DropLoadInv(s, t);
    case ProveWait(asleep) => if asleep { SpuriousInv(s, t); } else { RecheckProveInv(s, t); }
    case Proving => DropProveInv(s, t);
  }

  // ------------------------------------------------------------- what it ensures

  /** A running prove is alone: no thread loads beside it, and no other proves. */
  lemma ProveIsAlone(s: System, t: nat, u: nat)
    requires Inv(s) && t < |s.roles| && s.roles[t].Proving? && u < |s.roles| && u != t
    ensures s.g.proving && s.g.loads == 0 && !s.roles[u].Loading? && !s.roles[u].Proving?
  {
    CountHas(s.roles, t);
    CountHas(s.roles, u);
    CountUpdate(s.roles, t, Out);
    CountHas(s.roles[t := Out], u);
  }

  /** While a prove waits, whatever step anyone takes, the loads in flight do not grow. */
  lemma LoadsOnlyFall(s: System, t: nat, s': System)
    requires Inv(s) && Step(s, t, s') && s.g.waiting > 0
    ensures s'.g.loads <= s.g.loads
  {
    CountZero(s.roles);
  }
}
