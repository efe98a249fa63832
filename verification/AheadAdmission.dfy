/** A client's admission queue and its read-ahead together: a prove plans, takes the slot
    and gives its permit back while it is admitted, so the permits out are among the
    admitted proves. */
module AheadAdmission {
  import A = Admission
  import R = Residency

  /** The admission queue with its threads, and the client the same threads prove on. */
  datatype Joint = Joint(pool: A.Pool, client: R.Client)

  /** The queue's limits and the read-ahead's. */
  datatype Limits = Limits(queue: A.Limits, ahead: R.Limits)

  function Entered(client: R.Client, t: nat, inside: bool): R.Client
    requires t < |client.pcs|
  {
    if inside then client.(pcs := client.pcs[t := R.Admitted]) else client
  }

  /** One step of thread `t`: at the queue until it is in, then its prove, then the
      pass's drop and its notify. */
  ghost predicate Step(j: Joint, lim: Limits, proves: seq<R.Prove>, t: nat, j': Joint) {
    && t < |proves| && |j.pool.roles| == |j.client.pcs| == |proves|
    && match j.client.pcs[t]
       case Outside =>
         && A.Step(j.pool, lim.queue, t, j'.pool) && t < |j'.pool.roles|
         && j'.client == Entered(j.client, t, j'.pool.roles[t].In?)
       case Done =>
         && !j.pool.roles[t].Out? && A.Step(j.pool, lim.queue, t, j'.pool)
         && j'.client == j.client
       case _ =>
         j'.pool == j.pool && R.Step(j.client, lim.ahead, proves[t], t, j'.client)
  }

  function Start(proves: seq<R.Prove>): Joint { Joint(A.Start(|proves|), R.Start(proves)) }

  ghost predicate Moves(j: Joint, lim: Limits, proves: seq<R.Prove>, j': Joint) {
    exists t: nat :: Step(j, lim, proves, t, j')
  }

  /** Any proves on one client, their steps at the queue and in the prove in any order. */
  ghost predicate IsRun(proves: seq<R.Prove>, lim: Limits, run: seq<Joint>) {
    && lim.ahead.airs > 0 && |run| > 0 && run[0] == Start(proves)
    && forall i: nat {:trigger run[i]} | i + 1 < |run| :: Moves(run[i], lim, proves, run[i + 1])
  }

  /** A thread's place at the queue and its place in the prove. */
  ghost predicate Agrees(role: A.Role, pc: R.Pc) {
    match pc
    case Outside => role.Out? || role.Waiting?
    case Done => !role.Waiting?
    case _ => role.In?
  }

  ghost predicate AllAgree(j: Joint) {
    |j.pool.roles| == |j.client.pcs| && forall t: nat {:trigger j.client.pcs[t]} | t < |j.client.pcs| :: Agrees(j.pool.roles[t], j.client.pcs[t])
  }

  ghost predicate Inv(j: Joint, lim: Limits, proves: seq<R.Prove>) {
    A.Inv(j.pool, lim.queue) && R.Inv(j.client, lim.ahead, proves) && AllAgree(j)
  }

  // ------------------------------------------------------- a step at the queue

  /** A queue step wakes others, and moves only its own thread. */
  ghost predicate OnlyWakes(p: A.Pool, t: nat, p': A.Pool) {
    && |p'.roles| == |p.roles|
    && forall u: nat {:trigger p'.roles[u]} | u < |p.roles| && u != t :: p'.roles[u] == p.roles[u] || p'.roles[u] == A.Wake(p.roles[u])
  }

  /** Where a queue step can take its thread. */
  ghost predicate RoleMoves(r: A.Role, r': A.Role) {
    match r
    case Out => r'.Waiting? || r'.In?
    case Waiting(_, _, _) => r'.Waiting? || r'.In?
    case In(_, _) => r'.Notifying?
    case Notifying => r'.Out?
  }

  lemma CheckRoles(p: A.Pool, lim: A.Limits, t: nat, ticket: nat, bytes: nat)
    requires t < |p.roles|
    ensures var p' := A.AfterCheck(p, lim, t, ticket, bytes);
            OnlyWakes(p, t, p') && (p'.roles[t].Waiting? || p'.roles[t].In?)
  {
    hide A.Turn;
  }

  lemma QueueStep(p: A.Pool, lim: A.Limits, t: nat, p': A.Pool)
    requires A.Step(p, lim, t, p')
    ensures t < |p.roles| && OnlyWakes(p, t, p') && RoleMoves(p.roles[t], p'.roles[t])
  {
    hide A.AfterCheck;
    match p.roles[t]
    case Out =>
      var bytes: nat :| p' == A.ArriveStep(p, lim, t, bytes);
      CheckRoles(p.(q := A.Take(p.q), who := p.who + [t]), lim, t, p.q.next, bytes);
    case Waiting(ticket, bytes, _) => CheckRoles(p, lim, t, ticket, bytes);
    case _ =>
  }

  lemma NoWakes(p: A.Pool, t: nat)
    ensures OnlyWakes(p, t, p)
  {
  }

  lemma QueueAgrees(j: Joint, t: nat, j': Joint, pc: R.Pc)
    requires AllAgree(j) && t < |j.client.pcs| && OnlyWakes(j.pool, t, j'.pool)
    requires j'.client.pcs == j.client.pcs[t := pc] && Agrees(j'.pool.roles[t], pc)
    ensures AllAgree(j')
  {
    forall u: nat {:trigger j'.client.pcs[u]} | u < |j'.client.pcs| ensures Agrees(j'.pool.roles[u], j'.client.pcs[u]) {
      if u != t { assert Agrees(j.pool.roles[u], j.client.pcs[u]); }
    }
  }

  // -------------------------------------------------------- a step of the prove

  lemma ProveMoves(c: R.Client, lim: R.Limits, p: R.Prove, t: nat, c': R.Client)
    requires t < |c.pcs| && R.Step(c, lim, p, t, c')
    ensures |c'.pcs| == |c.pcs| && c'.pcs == c.pcs[t := c'.pcs[t]] && !c'.pcs[t].Outside?
  {
    hide R.Evicts, R.Return, R.PlanOf, R.Holders;
    if c.pcs[t].Planned? && c.holder < 0 && R.EnterSlot(c, lim, p, t, c.pcs[t].plan, c') {
      var victims: seq<string> :| R.EnterWith(c, lim, p, t, c.pcs[t].plan, victims, c');
    }
  }

  lemma ProveInv(c: R.Client, lim: R.Limits, proves: seq<R.Prove>, t: nat, c': R.Client)
    requires lim.airs > 0 && R.Inv(c, lim, proves) && t < |proves| && R.Step(c, lim, proves[t], t, c')
    ensures R.Inv(c', lim, proves)
  {
    hide R.Step, R.Inv;
    assert R.StepOf(c, lim, proves, t, c');
    assert R.Moves(c, lim, proves, c');
    R.MoveInv(c, lim, proves, c');
  }

  // ---------------------------------------------------------------- whole runs

  lemma EnteredInv(c: R.Client, lim: R.Limits, proves: seq<R.Prove>, t: nat, inside: bool)
    requires lim.airs > 0 && R.Inv(c, lim, proves) && t < |proves| && |c.pcs| == |proves| && c.pcs[t].Outside?
    ensures R.Inv(Entered(c, t, inside), lim, proves)
  {
    hide R.Inv;
    if inside { ProveInv(c, lim, proves, t, Entered(c, t, true)); }
  }

  lemma StepInv(j: Joint, lim: Limits, proves: seq<R.Prove>, t: nat, j': Joint)
    requires lim.ahead.airs > 0 && Inv(j, lim, proves) && Step(j, lim, proves, t, j')
    ensures Inv(j', lim, proves)
  {
    hide A.Inv, R.Inv, A.Step, R.Step, OnlyWakes;
    var pc, role := j.client.pcs[t], j.pool.roles[t];
    assert Agrees(role, pc);
    if pc.Outside? || pc.Done? {
      A.StepInv(j.pool, lim.queue, t, j'.pool);
      QueueStep(j.pool, lim.queue, t, j'.pool);
      if pc.Outside? {
        EnteredInv(j.client, lim.ahead, proves, t, j'.pool.roles[t].In?);
        QueueAgrees(j, t, j', if j'.pool.roles[t].In? then R.Admitted else pc);
      } else {
        QueueAgrees(j, t, j', pc);
      }
    } else {
      ProveInv(j.client, lim.ahead, proves, t, j'.client);
      ProveMoves(j.client, lim.ahead, proves[t], t, j'.client);
      NoWakes(j.pool, t);
      QueueAgrees(j, t, j', j'.client.pcs[t]);
    }
  }

  lemma {:induction false} RunInv(proves: seq<R.Prove>, lim: Limits, run: seq<Joint>, i: nat)
    requires IsRun(proves, lim, run) && i < |run|
    ensures Inv(run[i], lim, proves)
  {
    hide Step, A.Inv, R.SlotInv, R.AgesInv;
    if i == 0 {
      A.StartInv(|proves|, lim.queue);
      R.StartInv(proves, lim.ahead);
    } else {
      RunInv(proves, lim, run, i - 1);
      assert Moves(run[i - 1], lim, proves, run[i - 1 + 1]);
      var t: nat :| Step(run[i - 1], lim, proves, t, run[i]);
      StepInv(run[i - 1], lim, proves, t, run[i]);
    }
  }

  lemma HoldersAreIn(j: Joint, t: nat)
    requires AllAgree(j) && t in R.Holding(j.client.pcs)
    ensures t in A.Inside(j.pool)
  {
    assert Agrees(j.pool.roles[t], j.client.pcs[t]);
  }

  /** Who holds a permit is admitted, and so is who is about to plan, and it holds none:
      the permits out leave room for it under the queue's own cap. */
  lemma PlannerLeftOver(j: Joint, lim: Limits, proves: seq<R.Prove>, t: nat)
    requires Inv(j, lim, proves) && t < |proves| && j.client.pcs[t].Admitted?
    ensures |j.client.permits.admitted| < lim.queue.cap
  {
    hide R.SlotInv, R.AgesInv, A.NoneMissed;
    var held, inside := R.Holding(j.client.pcs), A.Inside(j.pool);
    R.PermitsHeld(j.client.permits, j.client.pcs, lim.ahead.depth);
    forall u: nat | u in held ensures u in inside - {t} { HoldersAreIn(j, u); }
    assert Agrees(j.pool.roles[t], j.client.pcs[t]);
    Smaller(held, inside - {t});
    A.InsideSmall(j.pool, j.pool.q.admitted, inside);
  }

  lemma {:induction false} Smaller(a: set<nat>, b: set<nat>)
    requires a <= b
    ensures |a| <= |b|
  {
    if a != {} {
      var x :| x in a;
      Smaller(a - {x}, b - {x});
    }
  }

  /** In every reachable state, whoever holds a read-ahead permit is admitted, with its
      entry in the queue's list; so no more permits are out than proves are admitted. */
  lemma PermitsInsideAdmission(proves: seq<R.Prove>, lim: Limits, run: seq<Joint>, i: nat)
    requires IsRun(proves, lim, run) && i < |run|
    ensures |run[i].pool.roles| == |run[i].client.pcs| == |proves|
    ensures forall t: nat {:trigger run[i].pool.roles[t]} | t < |proves| && R.Ticket(run[i].client.pcs[t]) != {} ::
              && run[i].pool.roles[t].In?
              && A.Admitted(run[i].pool.roles[t].ticket, run[i].pool.roles[t].bytes) in run[i].pool.q.admitted
    ensures |run[i].client.permits.admitted| <= |R.Holding(run[i].client.pcs)| <= |A.Inside(run[i].pool)| <= lim.queue.cap
  {
    hide R.SlotInv, R.AgesInv, A.NoneMissed;
    RunInv(proves, lim, run, i);
    var j := run[i];
    forall t: nat {:trigger j.pool.roles[t]} | t < |proves| && R.Ticket(j.client.pcs[t]) != {}
      ensures j.pool.roles[t].In? && A.Admitted(j.pool.roles[t].ticket, j.pool.roles[t].bytes) in j.pool.q.admitted
    {
      HoldersAreIn(j, t);
    }
    R.PermitsHeld(j.client.permits, j.client.pcs, lim.ahead.depth);
    forall t: nat | t in R.Holding(j.client.pcs) ensures t in A.Inside(j.pool) { HoldersAreIn(j, t); }
    Smaller(R.Holding(j.client.pcs), A.Inside(j.pool));
    A.InsideSmall(j.pool, j.pool.q.admitted, A.Inside(j.pool));
  }

  /** A depth at or above the admission's cap refuses nobody, and is no different from the
      cap itself: capping the depth there changes no plan. */
  lemma DepthAtCapNeverRefuses(proves: seq<R.Prove>, lim: Limits, run: seq<Joint>, i: nat, t: nat, depth: nat)
    requires IsRun(proves, lim, run) && i < |run| && t < |proves| && |run[i].client.pcs| == |proves| && run[i].client.pcs[t].Admitted?
    requires depth >= lim.queue.cap
    ensures R.PlanOf(run[i].client.mirror, run[i].client.permits, depth, proves[t].key).0 != R.ReadOnly
    ensures R.PlanOf(run[i].client.mirror, run[i].client.permits, depth, proves[t].key)
         == R.PlanOf(run[i].client.mirror, run[i].client.permits, lim.queue.cap, proves[t].key)
  {
    hide Inv;
    RunInv(proves, lim, run, i);
    PlannerLeftOver(run[i], lim, proves, t);
  }
}
