/** A client's admission queue: tickets served in order, a ceiling on how many
    instances are in, and a byte budget for the uploads beside the running prove. */
module Admission {

  /** An instance that has been counted in. */
  datatype Admitted = Admitted(ticket: nat, uploads: nat)

  /** What the queue's mutex guards: who is in, the tickets handed out, and the
      ticket whose turn it is. */
  datatype Queue = Queue(admitted: seq<Admitted>, next: nat, serving: nat)

  /** The ceiling on instances and the byte budget, fixed for a pool. */
  datatype Limits = Limits(cap: nat, budget: nat)

  function Total(a: seq<Admitted>): nat {
    if a == [] then 0 else Total(a[..|a| - 1]) + a[|a| - 1].uploads
  }

  /** The least of `bytes` and the uploads in `a`. */
  function Smallest(a: seq<Admitted>, bytes: nat): nat {
    if a == [] then bytes
    else
      var rest := Smallest(a[..|a| - 1], bytes);
      if a[|a| - 1].uploads < rest then a[|a| - 1].uploads else rest
  }

  /** Room under the ceiling, and either nobody in or everything but the smallest
      upload within the budget. */
  predicate Admits(q: Queue, lim: Limits, bytes: nat) {
    && |q.admitted| < lim.cap
    && (q.admitted == [] || Total(q.admitted) + bytes - Smallest(q.admitted, bytes) <= lim.budget)
  }

  /** The entries whose ticket is not `ticket`. */
  function Without(a: seq<Admitted>, ticket: nat): (r: seq<Admitted>)
    ensures |r| <= |a| && Total(r) <= Total(a)
    ensures forall x: Admitted :: x in r <==> x in a && x.ticket != ticket
  {
    if a == [] then []
    else
      var last := a[|a| - 1];
      var rest := Without(a[..|a| - 1], ticket);
      assert a == a[..|a| - 1] + [last];
      if last.ticket == ticket then rest
      else
        assert (rest + [last])[..|rest|] == rest;
        rest + [last]
  }

  // --------------------------------------------------- the queue under its lock

  function Take(q: Queue): Queue { q.(next := q.next + 1) }

  function Enter(q: Queue, ticket: nat, bytes: nat): Queue {
    q.(serving := q.serving + 1, admitted := q.admitted + [Admitted(ticket, bytes)])
  }

  function Leave(q: Queue, ticket: nat): Queue { q.(admitted := Without(q.admitted, ticket)) }

  /** The wait loop's exit: this ticket's turn, and room for it. */
  predicate Turn(q: Queue, lim: Limits, ticket: nat, bytes: nat) {
    ticket == q.serving && Admits(q, lim, bytes)
  }

  /** The queue as the program keeps it; each method is one stretch under the lock. */
  class Pending {
    var admitted: seq<Admitted>
    var next: nat
    var serving: nat

    function Value(): Queue
      reads this
    {
      Queue(admitted, next, serving)
    }

    constructor ()
      ensures Value() == Queue([], 0, 0)
    {
      admitted, next, serving := [], 0, 0;
    }

    method AdmitsNow(lim: Limits, bytes: nat) returns (ok: bool)
      ensures ok == Admits(Value(), lim, bytes)
    {
      if |admitted| >= lim.cap {
        return false;
      }
      if |admitted| == 0 {
        return true;
      }
      var total, smallest := bytes, bytes;
      for i := 0 to |admitted|
        invariant total == Total(admitted[..i]) + bytes && smallest == Smallest(admitted[..i], bytes)
      {
        assert admitted[..i + 1][..i] == admitted[..i];
        total := total + admitted[i].uploads;
        smallest := if admitted[i].uploads < smallest then admitted[i].uploads else smallest;
      }
      assert admitted[..|admitted|] == admitted;
      ok := total - smallest <= lim.budget;
    }

    /** `acquire` up to its first wait: draw a ticket, and enter if it may. */
    method Arrive(lim: Limits, bytes: nat) returns (ticket: nat, entered: bool)
      modifies this
      ensures ticket == old(next) && entered == Turn(Take(old(Value())), lim, ticket, bytes)
      ensures Value() == if entered then Enter(Take(old(Value())), ticket, bytes) else Take(old(Value()))
    {
      ticket := next;
      next := next + 1;
      entered := Recheck(lim, ticket, bytes);
    }

    /** One more round of the wait loop. */
    method Recheck(lim: Limits, ticket: nat, bytes: nat) returns (entered: bool)
      modifies this
      ensures entered == Turn(old(Value()), lim, ticket, bytes)
      ensures Value() == if entered then Enter(old(Value()), ticket, bytes) else old(Value())
    {
      var room := AdmitsNow(lim, bytes);
      entered := ticket == serving && room;
      if entered {
        serving := serving + 1;
        admitted := admitted + [Admitted(ticket, bytes)];
      }
    }

    /** `try_acquire`: no budget, no turn to wait for. */
    method TryAcquire(cap: nat) returns (entered: bool, ticket: nat)
      modifies this
      ensures entered <==> |old(admitted)| < cap
      ensures entered ==> ticket == old(next) && Value() == Enter(Take(old(Value())), ticket, 0)
      ensures !entered ==> Value() == old(Value())
    {
      ticket := next;
      if |admitted| >= cap {
        return false, ticket;
      }
      next := next + 1;
      serving := serving + 1;
      admitted := admitted + [Admitted(ticket, 0)];
      entered := true;
    }

    /** The pass's drop, while it holds the lock. */
    method Release(ticket: nat)
      modifies this
      ensures Value() == Leave(old(Value()), ticket)
    {
      var kept: seq<Admitted> := [];
      for i := 0 to |admitted|
        invariant kept == Without(admitted[..i], ticket)
        invariant Value() == old(Value())
      {
        assert admitted[..i + 1][..i] == admitted[..i];
        if admitted[i].ticket != ticket {
          kept := kept + [admitted[i]];
        }
      }
      assert admitted[..|admitted|] == admitted;
      admitted := kept;
    }
  }

  // ------------------------------------------------------------ what admits means

  lemma {:induction false} SmallestIsLeast(a: seq<Admitted>, bytes: nat)
    ensures Smallest(a, bytes) <= bytes
    ensures forall i: nat {:trigger a[i]} | i < |a| :: Smallest(a, bytes) <= a[i].uploads
    ensures Smallest(a, bytes) == bytes || exists i: nat {:trigger a[i]} :: i < |a| && Smallest(a, bytes) == a[i].uploads
  {
    if a != [] {
      var init := a[..|a| - 1];
      SmallestIsLeast(init, bytes);
      forall i: nat {:trigger a[i]} | i < |a| - 1 ensures a[i] == init[i] { }
      if Smallest(a, bytes) == a[|a| - 1].uploads {
      } else if Smallest(init, bytes) != bytes {
        var i: nat :| i < |init| && Smallest(init, bytes) == init[i].uploads;
        assert a[i] == init[i];
      }
    }
  }

  lemma TotalPush(a: seq<Admitted>, e: Admitted)
    ensures Total(a + [e]) == Total(a) + e.uploads
  {
    assert (a + [e])[..|a|] == a;
  }

  /** Whichever of them proves, the others' uploads fit the budget. */
  ghost predicate WithinBudget(a: seq<Admitted>, budget: nat) {
    |a| >= 2 ==> forall i: nat {:trigger a[i]} | i < |a| :: Total(a) - a[i].uploads <= budget
  }

  /** A non-empty client admits exactly the instances that leave it under its
      ceiling and within its budget whichever member proves; an empty client
      admits any size. */
  lemma AdmitsExactly(q: Queue, lim: Limits, ticket: nat, bytes: nat)
    ensures q.admitted != [] ==>
      (Admits(q, lim, bytes) <==> |q.admitted| < lim.cap && WithinBudget(q.admitted + [Admitted(ticket, bytes)], lim.budget))
    ensures q.admitted == [] ==> (Admits(q, lim, bytes) <==> lim.cap >= 1)
  {
    var e := Admitted(ticket, bytes);
    var a := q.admitted + [e];
    TotalPush(q.admitted, e);
    SmallestIsLeast(q.admitted, bytes);
    forall i: nat {:trigger a[i]} | i < |q.admitted| ensures a[i] == q.admitted[i] { }
    assert a[|q.admitted|] == e;
    if q.admitted != [] && WithinBudget(a, lim.budget) && Smallest(q.admitted, bytes) != bytes {
      var i: nat :| i < |q.admitted| && Smallest(q.admitted, bytes) == q.admitted[i].uploads;
      assert a[i] == q.admitted[i];
    }
  }

  /** The sums `admits` forms stay below the budget plus the two largest uploads:
      64 bits hold them whenever that does. */
  lemma SumsStaySmall(q: Queue, lim: Limits, bytes: nat, most: nat)
    requires WithinBudget(q.admitted, lim.budget) && bytes <= most
    requires forall i: nat {:trigger q.admitted[i]} | i < |q.admitted| :: q.admitted[i].uploads <= most
    ensures Total(q.admitted) + bytes <= lim.budget + most + most
  {
    if |q.admitted| == 1 {
      TotalPush([], q.admitted[0]);
      assert q.admitted == [] + [q.admitted[0]];
    } else if |q.admitted| >= 2 {
      assert q.admitted[0].uploads <= most;
    }
  }

  // --------------------------------------------------------- threads at the queue

  /** Where a thread stands with the queue. `Notifying` is a dropped pass between
      releasing the lock and its notify. */
  datatype Role = Out | Waiting(ticket: nat, bytes: nat, asleep: bool) | In(ticket: nat, bytes: nat) | Notifying

  /** The queue, its threads, and who drew each ticket. */
  datatype Pool = Pool(q: Queue, roles: seq<Role>, who: seq<nat>)

  function Wake(r: Role): Role {
    if r.Waiting? then r.(asleep := false) else r
  }

  /** notify_all */
  function WakeAll(roles: seq<Role>): (w: seq<Role>)
    ensures |w| == |roles|
  {
    seq(|roles|, (t: nat) requires t < |roles| => Wake(roles[t]))
  }

  function AfterEnter(p: Pool, t: nat, ticket: nat, bytes: nat): Pool
    requires t < |p.roles|
  {
    p.(q := Enter(p.q, ticket, bytes), roles := WakeAll(p.roles[t := In(ticket, bytes)]))
  }

  function AfterCheck(p: Pool, lim: Limits, t: nat, ticket: nat, bytes: nat): Pool
    requires t < |p.roles|
  {
    if Turn(p.q, lim, ticket, bytes) then AfterEnter(p, t, ticket, bytes)
    else p.(roles := p.roles[t := Waiting(ticket, bytes, true)])
  }

  function ArriveStep(p: Pool, lim: Limits, t: nat, bytes: nat): Pool
    requires t < |p.roles| && p.roles[t].Out?
  {
    AfterCheck(p.(q := Take(p.q), who := p.who + [t]), lim, t, p.q.next, bytes)
  }

  function RecheckStep(p: Pool, lim: Limits, t: nat): Pool
    requires t < |p.roles| && p.roles[t].Waiting?
  {
    AfterCheck(p, lim, t, p.roles[t].ticket, p.roles[t].bytes)
  }

  function DropStep(p: Pool, t: nat): Pool
    requires t < |p.roles| && p.roles[t].In?
  {
    p.(q := Leave(p.q, p.roles[t].ticket), roles := p.roles[t := Notifying])
  }

  function NotifyStep(p: Pool, t: nat): Pool
    requires t < |p.roles| && p.roles[t].Notifying?
  {
    p.(roles := WakeAll(p.roles[t := Out]))
  }

  /** A wakeup nobody sent. */
  function SpuriousStep(p: Pool, t: nat): Pool
    requires t < |p.roles|
  {
    p.(roles := p.roles[t := Wake(p.roles[t])])
  }

  /** One thread's next move on the pool, any thread, any interleaving. */
  ghost predicate Step(p: Pool, lim: Limits, t: nat, p': Pool) {
    t < |p.roles| &&
    match p.roles[t]
    case Out => exists bytes: nat :: p' == ArriveStep(p, lim, t, bytes)
    case Waiting(_, _, asleep) => if asleep then p' == SpuriousStep(p, t) else p' == RecheckStep(p, lim, t)
    case In(_, _) => p' == DropStep(p, t)
    case Notifying => p' == NotifyStep(p, t)
  }

  function Start(n: nat): Pool { Pool(Queue([], 0, 0), seq(n, (t: nat) => Out), []) }

  // ------------------------------------------------------------------- invariant

  ghost predicate Sorted(a: seq<Admitted>) {
    forall i: nat, j: nat {:trigger a[i], a[j]} | i < j < |a| :: a[i].ticket < a[j].ticket
  }

  /** Tickets at and past `serving` wait, each at the thread that drew it; tickets
      before it are in, or gone. */
  ghost predicate Ticketed(p: Pool) {
    && p.q.serving <= p.q.next == |p.who|
    && (forall k: nat {:trigger p.who[k]} | k < |p.who| :: p.who[k] < |p.roles|)
    && (forall k: nat {:trigger p.who[k]} | p.q.serving <= k < |p.who| ::
          p.roles[p.who[k]].Waiting? && p.roles[p.who[k]].ticket == k)
    && (forall t: nat {:trigger p.roles[t]} | t < |p.roles| && p.roles[t].Waiting? ::
          p.q.serving <= p.roles[t].ticket < |p.who| && p.who[p.roles[t].ticket] == t)
    && (forall t: nat {:trigger p.roles[t]} | t < |p.roles| && p.roles[t].In? ::
          p.roles[t].ticket < p.q.serving && p.who[p.roles[t].ticket] == t)
  }

  /** The list of who is in is exactly the threads that are in. */
  ghost predicate Listed(p: Pool)
    requires Ticketed(p)
  {
    && Sorted(p.q.admitted)
    && (forall e: Admitted {:trigger e in p.q.admitted} | e in p.q.admitted ::
          e.ticket < p.q.serving && p.roles[p.who[e.ticket]] == In(e.ticket, e.uploads))
    && (forall t: nat {:trigger p.roles[t]} | t < |p.roles| && p.roles[t].In? ::
          Admitted(p.roles[t].ticket, p.roles[t].bytes) in p.q.admitted)
  }

  ghost predicate Bounded(q: Queue, lim: Limits) {
    |q.admitted| <= lim.cap && WithinBudget(q.admitted, lim.budget)
  }

  ghost predicate NotifyPending(p: Pool) {
    exists u: nat {:trigger p.roles[u]} :: u < |p.roles| && p.roles[u].Notifying?
  }

  /** No wakeup is lost: a sleeper that could go has a notify on its way. */
  ghost predicate NoneMissed(p: Pool, lim: Limits) {
    forall t: nat {:trigger p.roles[t]} | t < |p.roles| && p.roles[t].Waiting? && p.roles[t].asleep
      && Turn(p.q, lim, p.roles[t].ticket, p.roles[t].bytes) :: NotifyPending(p)
  }

  ghost predicate Inv(p: Pool, lim: Limits) {
    Ticketed(p) && Listed(p) && Bounded(p.q, lim) && NoneMissed(p, lim)
  }

  lemma PushSorted(a: seq<Admitted>, e: Admitted)
    requires Sorted(a) && forall x: Admitted :: x in a ==> x.ticket < e.ticket
    ensures Sorted(a + [e])
  {
    var r := a + [e];
    forall i: nat, j: nat {:trigger r[i], r[j]} | i < j < |r| ensures r[i].ticket < r[j].ticket {
      assert r[i] == a[i] && a[i] in a;
      if j < |a| { assert r[j] == a[j]; }
    }
  }

  lemma InitSorted(a: seq<Admitted>)
    requires Sorted(a) && a != []
    ensures Sorted(a[..|a| - 1])
    ensures forall x: Admitted :: x in a[..|a| - 1] ==> x.ticket < a[|a| - 1].ticket
  {
    var init := a[..|a| - 1];
    forall i: nat, j: nat {:trigger init[i], init[j]} | i < j < |init| ensures init[i].ticket < init[j].ticket {
      assert init[i] == a[i] && init[j] == a[j];
    }
    forall x: Admitted | x in init ensures x.ticket < a[|a| - 1].ticket {
      var i: nat :| i < |init| && init[i] == x;
      assert a[i] == x;
    }
  }

  lemma {:induction false} WithoutSorted(a: seq<Admitted>, ticket: nat)
    requires Sorted(a)
    ensures Sorted(Without(a, ticket))
    decreases |a|
  {
    if a != [] {
      InitSorted(a);
      WithoutSorted(a[..|a| - 1], ticket);
      if a[|a| - 1].ticket != ticket {
        PushSorted(Without(a[..|a| - 1], ticket), a[|a| - 1]);
      }
    }
  }

  lemma {:induction false} WithoutTotal(a: seq<Admitted>, ticket: nat, budget: nat)
    requires WithinBudget(a, budget)
    ensures WithinBudget(Without(a, ticket), budget)
  {
    var r := Without(a, ticket);
    if |r| >= 2 {
      forall i: nat {:trigger r[i]} | i < |r| ensures Total(r) - r[i].uploads <= budget {
        assert r[i] in a;
        var j: nat :| j < |a| && a[j] == r[i];
      }
    }
  }

  lemma StartInv(n: nat, lim: Limits)
    ensures Inv(Start(n), lim)
  {
  }

  lemma EnterTicketed(p: Pool, t: nat, ticket: nat, bytes: nat)
    requires t < |p.roles| && Ticketed(p) && p.roles[t].Waiting? && p.roles[t].ticket == ticket == p.q.serving
    ensures Ticketed(AfterEnter(p, t, ticket, bytes))
  {
    var p' := AfterEnter(p, t, ticket, bytes);
    forall u: nat {:trigger p'.roles[u]} | u < |p.roles|
      ensures p'.roles[u] == if u == t then In(ticket, bytes) else Wake(p.roles[u])
    { }
  }

  lemma EnterListed(p: Pool, t: nat, ticket: nat, bytes: nat)
    requires t < |p.roles| && Ticketed(p) && Listed(p) && p.roles[t].Waiting? && p.roles[t].ticket == ticket == p.q.serving
    requires Ticketed(AfterEnter(p, t, ticket, bytes))
    ensures Listed(AfterEnter(p, t, ticket, bytes))
  {
    var p' := AfterEnter(p, t, ticket, bytes);
    forall u: nat {:trigger p'.roles[u]} | u < |p.roles|
      ensures p'.roles[u] == if u == t then In(ticket, bytes) else Wake(p.roles[u])
    { }
    PushSorted(p.q.admitted, Admitted(ticket, bytes));
  }

  lemma EnterNoneMissed(p: Pool, lim: Limits, t: nat, ticket: nat, bytes: nat)
    requires t < |p.roles|
    ensures NoneMissed(AfterEnter(p, t, ticket, bytes), lim)
  {
    hide Turn;
    var p' := AfterEnter(p, t, ticket, bytes);
    forall u: nat {:trigger p'.roles[u]} | u < |p.roles| ensures !(p'.roles[u].Waiting? && p'.roles[u].asleep) { }
  }

  lemma EnterInv(p: Pool, lim: Limits, t: nat, ticket: nat, bytes: nat)
    requires t < |p.roles| && Inv(p, lim) && Turn(p.q, lim, ticket, bytes)
    requires p.roles[t].Waiting? && p.roles[t].ticket == ticket && p.roles[t].bytes == bytes
    ensures Inv(AfterEnter(p, t, ticket, bytes), lim)
  {
    hide Ticketed, Listed, NoneMissed;
    AdmitsExactly(p.q, lim, ticket, bytes);
    EnterTicketed(p, t, ticket, bytes);
    EnterListed(p, t, ticket, bytes);
    EnterNoneMissed(p, lim, t, ticket, bytes);
  }

  lemma ArrivedInv(p: Pool, lim: Limits, t: nat, bytes: nat)
    requires t < |p.roles| && p.roles[t].Out? && Inv(p, lim)
    ensures var w := p.(q := Take(p.q), who := p.who + [t], roles := p.roles[t := Waiting(p.q.next, bytes, false)]);
            Inv(w, lim)
  {
    var w := p.(q := Take(p.q), who := p.who + [t], roles := p.roles[t := Waiting(p.q.next, bytes, false)]);
    assert Ticketed(w);
    assert Listed(w);
    if NotifyPending(p) {
      var u: nat :| u < |p.roles| && p.roles[u].Notifying?;
      assert w.roles[u].Notifying?;
    }
  }

  lemma AsleepInv(p: Pool, lim: Limits, t: nat)
    requires t < |p.roles| && p.roles[t].Waiting? && Inv(p, lim)
    requires !Turn(p.q, lim, p.roles[t].ticket, p.roles[t].bytes)
    ensures Inv(p.(roles := p.roles[t := p.roles[t].(asleep := true)]), lim)
  {
    var w := p.(roles := p.roles[t := p.roles[t].(asleep := true)]);
    assert Ticketed(w) && Listed(w);
    if NotifyPending(p) {
      var u: nat :| u < |p.roles| && p.roles[u].Notifying?;
      assert w.roles[u].Notifying?;
    }
  }

  lemma ArriveInv(p: Pool, lim: Limits, t: nat, bytes: nat)
    requires t < |p.roles| && p.roles[t].Out? && Inv(p, lim)
    ensures Inv(ArriveStep(p, lim, t, bytes), lim)
  {
    var w := p.(q := Take(p.q), who := p.who + [t], roles := p.roles[t := Waiting(p.q.next, bytes, false)]);
    ArrivedInv(p, lim, t, bytes);
    if Turn(w.q, lim, p.q.next, bytes) {
      EnterInv(w, lim, t, p.q.next, bytes);
      assert w.roles[t := In(p.q.next, bytes)] == p.roles[t := In(p.q.next, bytes)];
    } else {
      AsleepInv(w, lim, t);
      assert w.roles[t := Waiting(p.q.next, bytes, true)] == p.roles[t := Waiting(p.q.next, bytes, true)];
    }
  }

  lemma RecheckInv(p: Pool, lim: Limits, t: nat)
    requires t < |p.roles| && p.roles[t].Waiting? && Inv(p, lim)
    ensures Inv(RecheckStep(p, lim, t), lim)
  {
    if Turn(p.q, lim, p.roles[t].ticket, p.roles[t].bytes) {
      EnterInv(p, lim, t, p.roles[t].ticket, p.roles[t].bytes);
    } else {
      AsleepInv(p, lim, t);
    }
  }

  lemma DropTicketed(p: Pool, t: nat)
    requires t < |p.roles| && p.roles[t].In? && Ticketed(p)
    ensures Ticketed(DropStep(p, t))
  {
    var p' := DropStep(p, t);
    forall u: nat {:trigger p'.roles[u]} | u < |p.roles| ensures p'.roles[u] == if u == t then Notifying else p.roles[u] { }
  }

  lemma DropListed(p: Pool, t: nat)
    requires t < |p.roles| && p.roles[t].In? && Ticketed(p) && Listed(p)
    ensures Ticketed(DropStep(p, t)) && Listed(DropStep(p, t))
  {
    var p' := DropStep(p, t);
    DropTicketed(p, t);
    WithoutSorted(p.q.admitted, p.roles[t].ticket);
    forall u: nat {:trigger p'.roles[u]} | u < |p.roles| && p'.roles[u].In?
      ensures Admitted(p'.roles[u].ticket, p'.roles[u].bytes) in p'.q.admitted
    {
      assert p'.roles[u] == p.roles[u];
    }
  }

  lemma DropInv(p: Pool, lim: Limits, t: nat)
    requires t < |p.roles| && p.roles[t].In? && Inv(p, lim)
    ensures Inv(DropStep(p, t), lim)
  {
    DropListed(p, t);
    WithoutTotal(p.q.admitted, p.roles[t].ticket, lim.budget);
    assert DropStep(p, t).roles[t].Notifying?;
  }

  lemma NotifyInv(p: Pool, lim: Limits, t: nat)
    requires t < |p.roles| && p.roles[t].Notifying? && Inv(p, lim)
    ensures Inv(NotifyStep(p, t), lim)
  {
    var p' := NotifyStep(p, t);
    forall u: nat {:trigger p'.roles[u]} | u < |p.roles| ensures p'.roles[u] == if u == t then Out else Wake(p.roles[u]) { }
    assert Ticketed(p') && Listed(p');
  }

  lemma SpuriousInv(p: Pool, lim: Limits, t: nat)
    requires t < |p.roles| && Inv(p, lim)
    ensures Inv(SpuriousStep(p, t), lim)
  {
    var p' := SpuriousStep(p, t);
    assert Ticketed(p') && Listed(p');
    if NotifyPending(p) {
      var u: nat :| u < |p.roles| && p.roles[u].Notifying?;
      assert p'.roles[u].Notifying?;
    }
  }

  lemma StepInv(p: Pool, lim: Limits, t: nat, p': Pool)
    requires Inv(p, lim) && Step(p, lim, t, p')
    ensures Inv(p', lim)
  {
    match p.roles[t]
    case Out =>
      var bytes: nat :| p' == ArriveStep(p, lim, t, bytes);
      ArriveInv(p, lim, t, bytes);
    case Waiting(_, _, asleep) => if asleep { SpuriousInv(p, lim, t); } else { RecheckInv(p, lim, t); }
    case In(_, _) => DropInv(p, lim, t);
    case Notifying => NotifyInv(p, lim, t);
  }

  // ---------------------------------------------------------------- whole runs

  /** A run from an empty pool of `n` threads: any threads' steps in any order. */
  ghost predicate Run(n: nat, lim: Limits, run: seq<Pool>) {
    && |run| > 0 && run[0] == Start(n)
    && forall i: nat {:trigger run[i]} | i + 1 < |run| :: Moves(run[i], lim, run[i + 1])
  }

  ghost predicate Moves(p: Pool, lim: Limits, p': Pool) { exists t: nat :: Step(p, lim, t, p') }

  lemma {:induction false} RunInv(n: nat, lim: Limits, run: seq<Pool>, i: nat)
    requires Run(n, lim, run) && i < |run|
    ensures Inv(run[i], lim)
  {
    if i == 0 {
      StartInv(n, lim);
    } else {
      RunInv(n, lim, run, i - 1);
      assert Moves(run[i - 1], lim, run[i - 1 + 1]);
      var t: nat :| Step(run[i - 1], lim, t, run[i]);
      StepInv(run[i - 1], lim, t, run[i]);
    }
  }

  /** The threads that are in. */
  ghost function Inside(p: Pool): set<nat> { set t: nat | t < |p.roles| && p.roles[t].In? }

  /** Threads found through distinct list entries are no more than the entries. */
  lemma {:induction false} InsideSmall(p: Pool, a: seq<Admitted>, s: set<nat>)
    requires Ticketed(p)
    requires forall t: nat :: t in s ==> t < |p.roles| && p.roles[t].In? && Admitted(p.roles[t].ticket, p.roles[t].bytes) in a
    ensures |s| <= |a|
    decreases |a|
  {
    if a == [] {
      assert s == {};
    } else {
      var last := a[|a| - 1];
      assert a == a[..|a| - 1] + [last];
      var t := if last.ticket < |p.who| then p.who[last.ticket] else 0;
      InsideSmall(p, a[..|a| - 1], s - {t});
    }
  }

  /** In every reachable state: never more threads in than the ceiling, and with two
      or more in, all uploads but any one member's within the budget. */
  lemma AdmissionBoundsMemory(n: nat, lim: Limits, run: seq<Pool>, i: nat)
    requires Run(n, lim, run) && i < |run|
    ensures |run[i].q.admitted| <= lim.cap && WithinBudget(run[i].q.admitted, lim.budget)
    ensures |Inside(run[i])| <= lim.cap
    ensures forall t: nat {:trigger run[i].roles[t]} | t < |run[i].roles| && run[i].roles[t].In? ::
              Admitted(run[i].roles[t].ticket, run[i].roles[t].bytes) in run[i].q.admitted
  {
    RunInv(n, lim, run, i);
    InsideSmall(run[i], run[i].q.admitted, Inside(run[i]));
  }

  /** No wakeup is lost: in every reachable state, a sleeping thread that could go
      has a notify on its way. */
  lemma NoWakeupLost(n: nat, lim: Limits, run: seq<Pool>, i: nat, t: nat)
    requires Run(n, lim, run) && i < |run| && t < |run[i].roles| && run[i].roles[t].Waiting? && run[i].roles[t].asleep
    requires Turn(run[i].q, lim, run[i].roles[t].ticket, run[i].roles[t].bytes)
    ensures NotifyPending(run[i])
  {
    RunInv(n, lim, run, i);
  }

  /** Nobody overtakes: whoever is in drew an earlier ticket than everyone waiting. */
  lemma TicketOrder(n: nat, lim: Limits, run: seq<Pool>, i: nat, inside: nat, waiting: nat)
    requires Run(n, lim, run) && i < |run|
    requires inside < |run[i].roles| && waiting < |run[i].roles|
    requires run[i].roles[inside].In? && run[i].roles[waiting].Waiting?
    ensures run[i].roles[inside].ticket < run[i].roles[waiting].ticket
  {
    RunInv(n, lim, run, i);
  }

  lemma AdmittedHasThread(p: Pool)
    requires Ticketed(p) && Listed(p) && p.q.admitted != []
    ensures exists t: nat {:trigger p.roles[t]} :: t < |p.roles| && p.roles[t].In?
  {
    var e := p.q.admitted[0];
    assert e in p.q.admitted;
    assert p.roles[p.who[e.ticket]].In?;
  }

  /** With nobody in and no notify on its way, the first in line is awake and its
      next look at the queue admits it, whatever its size. */
  lemma EmptyClientServesHead(p: Pool, lim: Limits)
    requires Inv(p, lim) && lim.cap >= 1 && p.q.serving < p.q.next
    requires forall t: nat {:trigger p.roles[t]} | t < |p.roles| :: !p.roles[t].In? && !p.roles[t].Notifying?
    ensures var h := p.who[p.q.serving];
            && h < |p.roles| && p.roles[h].Waiting? && !p.roles[h].asleep
            && RecheckStep(p, lim, h).roles[h] == In(p.roles[h].ticket, p.roles[h].bytes)
  {
    if p.q.admitted != [] {
      AdmittedHasThread(p);
    }
  }
}
