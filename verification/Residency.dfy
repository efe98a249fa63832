/** One client's fixed-section residency: which AIRs' sections are on the device, the
    mirror the read-ahead glances at, the permits that bound the read-ahead, and the
    eviction of the least recently used. */
module Residency {
  import A = Admission

  // ----------------------------------------------------- who goes, oldest first

  datatype Aged = Aged(tick: nat, key: string)

  /** The order of two strings, character by character. */
  predicate AtMost(a: string, b: string) {
    a == [] || (b != [] && (a[0] < b[0] || (a[0] == b[0] && AtMost(a[1..], b[1..]))))
  }

  /** The order of two entries: by age, then by key. */
  predicate Older(a: Aged, b: Aged) { a.tick < b.tick || (a.tick == b.tick && AtMost(a.key, b.key)) }

  lemma {:induction false} AtMostTotal(a: string, b: string)
    ensures AtMost(a, b) || AtMost(b, a)
  {
    if a != [] && b != [] && a[0] == b[0] { AtMostTotal(a[1..], b[1..]); }
  }

  lemma {:induction false} AtMostTrans(a: string, b: string, c: string)
    requires AtMost(a, b) && AtMost(b, c)
    ensures AtMost(a, c)
  {
    if a != [] && a[0] == b[0] == c[0] { AtMostTrans(a[1..], b[1..], c[1..]); }
  }

  lemma OlderTotal(a: Aged, b: Aged)
    ensures Older(a, b) || Older(b, a)
  {
    AtMostTotal(a.key, b.key);
  }

  lemma OlderTrans(a: Aged, b: Aged, c: Aged)
    requires Older(a, b) && Older(b, c)
    ensures Older(a, c)
  {
    if a.tick == b.tick == c.tick { AtMostTrans(a.key, b.key, c.key); }
  }

  ghost predicate SortedByAge(a: seq<Aged>) {
    forall i: nat, j: nat {:trigger a[i], a[j]} | i < j < |a| :: Older(a[i], a[j])
  }

  lemma InsertedSorted(a: seq<Aged>, i: nat, e: Aged)
    requires SortedByAge(a) && i <= |a| && (i > 0 ==> Older(a[i - 1], e)) && (i < |a| ==> Older(e, a[i]))
    ensures SortedByAge(a[..i] + [e] + a[i..])
  {
    hide Older;
    var r := a[..i] + [e] + a[i..];
    forall x: nat {:trigger r[x]} | x < |r|
      ensures r[x] == if x < i then a[x] else if x == i then e else a[x - 1]
    { }
    forall x: nat, y: nat {:trigger r[x], r[y]} | x < y < |r| ensures Older(r[x], r[y]) {
      InsertedOrder(a, i, e, x, y);
    }
  }

  lemma InsertedOrder(a: seq<Aged>, i: nat, e: Aged, x: nat, y: nat)
    requires SortedByAge(a) && i <= |a| && (i > 0 ==> Older(a[i - 1], e)) && (i < |a| ==> Older(e, a[i]))
    requires x < y <= |a|
    ensures Older(if x < i then a[x] else if x == i then e else a[x - 1], if y < i then a[y] else if y == i then e else a[y - 1])
  {
    hide Older;
    if x < i && y >= i {
      if x < i - 1 { OlderTrans(a[x], a[i - 1], e); }
      if y > i { OlderTrans(a[i - 1], e, a[i]); }
    }
    if x <= i && y > i {
      if y - 1 > i { OlderTrans(e, a[i], a[y - 1]); }
    }
  }

  /** Where a new entry goes: behind every entry that is not after it. */
  method InsertByAge(a: seq<Aged>, e: Aged) returns (r: seq<Aged>)
    requires SortedByAge(a)
    ensures SortedByAge(r) && multiset(r) == multiset(a) + multiset{e} && |r| == |a| + 1
  {
    hide Older;
    var i := |a|;
    while i > 0 && !Older(a[i - 1], e)
      invariant 0 <= i <= |a| && (i < |a| ==> Older(e, a[i]))
    {
      OlderTotal(a[i - 1], e);
      i := i - 1;
    }
    r := a[..i] + [e] + a[i..];
    InsertedAll(a, i, e);
    InsertedSorted(a, i, e);
  }

  lemma InsertedAll(a: seq<Aged>, i: nat, e: Aged)
    requires i <= |a|
    ensures multiset(a[..i] + [e] + a[i..]) == multiset(a) + multiset{e}
  {
    assert a == a[..i] + a[i..];
  }

  /** `by_age.sort()` */
  method SortByAge(entries: seq<Aged>) returns (r: seq<Aged>)
    ensures SortedByAge(r) && multiset(r) == multiset(entries) && |r| == |entries|
  {
    r := [];
    for i := 0 to |entries|
      invariant SortedByAge(r) && multiset(r) == multiset(entries[..i]) && |r| == i
    {
      assert entries[..i + 1] == entries[..i] + [entries[i]];
      r := InsertByAge(r, entries[i]);
    }
    assert entries[..|entries|] == entries;
  }

  /** The drivers that hold fixed sections. */
  function Holders(drivers: map<string, bool>): set<string> { set k: string | k in drivers && drivers[k] }

  function AgeOf(lastUsed: map<string, nat>, k: string): nat { if k in lastUsed then lastUsed[k] else 0 }

  function AgedOf(lastUsed: map<string, nat>, k: string): Aged { Aged(AgeOf(lastUsed, k), k) }

  /** What an eviction must be: as many as bring the holders, with the prove's own
      AIR, down to `cap`, in the order of their age and key, and each before every one
      that stays. */
  ghost predicate Evicts(drivers: map<string, bool>, lastUsed: map<string, nat>, key: string, cap: nat, victims: seq<string>) {
    var others := Holders(drivers) - {key};
    && (forall i: nat {:trigger victims[i]} | i < |victims| :: victims[i] in others)
    && (forall i: nat, j: nat {:trigger victims[i], victims[j]} | i < j < |victims| ::
          victims[i] != victims[j] && Older(AgedOf(lastUsed, victims[i]), AgedOf(lastUsed, victims[j])))
    && |victims| == (if |others| + 1 > cap then |others| + 1 - cap else 0)
    && (forall i: nat, k: string {:trigger victims[i], k in others} | i < |victims| && k in others && k !in victims ::
          Older(AgedOf(lastUsed, victims[i]), AgedOf(lastUsed, k)))
  }

  /** The residents' list with their ages, in whatever order the map gives them. */
  method AgeList(others: set<string>, lastUsed: map<string, nat>) returns (list: seq<Aged>)
    ensures |list| == |others|
    ensures forall i: nat {:trigger list[i]} | i < |list| :: list[i].key in others && list[i].tick == AgeOf(lastUsed, list[i].key)
    ensures forall i: nat, j: nat {:trigger list[i], list[j]} | i < j < |list| :: list[i].key != list[j].key
    ensures forall k: string :: k in others ==> Aged(AgeOf(lastUsed, k), k) in list
  {
    list := [];
    var rest := others;
    while rest != {}
      invariant rest <= others && |list| + |rest| == |others|
      invariant forall i: nat {:trigger list[i]} | i < |list| ::
        list[i].key in others && list[i].key !in rest && list[i].tick == AgeOf(lastUsed, list[i].key)
      invariant forall i: nat, j: nat {:trigger list[i], list[j]} | i < j < |list| :: list[i].key != list[j].key
      invariant forall k: string :: k in others && k !in rest ==> Aged(AgeOf(lastUsed, k), k) in list
      decreases |rest|
    {
      var k :| k in rest;
      list := list + [Aged(AgeOf(lastUsed, k), k)];
      rest := rest - {k};
    }
  }

  lemma SortedKeepsKeys(list: seq<Aged>, sorted: seq<Aged>)
    requires multiset(sorted) == multiset(list)
    requires forall i: nat, j: nat {:trigger list[i], list[j]} | i < j < |list| :: list[i].key != list[j].key
    ensures forall e: Aged :: e in sorted <==> e in list
    ensures forall i: nat, j: nat {:trigger sorted[i], sorted[j]} | i < j < |sorted| :: sorted[i].key != sorted[j].key
  {
    forall e: Aged ensures e in sorted <==> e in list {
      assert e in sorted <==> e in multiset(sorted);
      assert e in list <==> e in multiset(list);
    }
    forall i: nat, j: nat {:trigger sorted[i], sorted[j]} | i < j < |sorted| ensures sorted[i].key != sorted[j].key {
      assert sorted[i] in list && sorted[j] in list;
      var x: nat :| x < |list| && list[x] == sorted[i];
      var y: nat :| y < |list| && list[y] == sorted[j];
      Once(list, x);
      if sorted[i] == sorted[j] { Twice(sorted, i, j); }
    }
  }

  lemma Twice(s: seq<Aged>, i: nat, j: nat)
    requires i < j < |s| && s[i] == s[j]
    ensures multiset(s)[s[i]] >= 2
  {
    assert s == s[..j] + [s[j]] + s[j + 1..];
    assert s[..j][i] == s[i];
  }

  lemma Once(s: seq<Aged>, x: nat)
    requires x < |s| && forall a: nat, b: nat {:trigger s[a], s[b]} | a < b < |s| :: s[a].key != s[b].key
    ensures multiset(s)[s[x]] == 1
  {
    assert s == s[..x] + [s[x]] + s[x + 1..];
    assert s[x] !in s[..x];
    var tail := s[x + 1..];
    forall y: nat {:trigger tail[y]} | y < |tail| ensures tail[y] != s[x] { assert tail[y] == s[x + 1 + y]; }
    assert s[x] !in s[x + 1..];
  }

  /** The residents to release before this prove installs its own. */
  method ChooseVictims(drivers: map<string, bool>, lastUsed: map<string, nat>, key: string, cap: nat) returns (victims: seq<string>)
    requires cap > 0
    ensures Evicts(drivers, lastUsed, key, cap, victims)
  {
    var others := Holders(drivers) - {key};
    victims := [];
    if |others| + 1 > cap {
      var list := AgeList(others, lastUsed);
      var byAge := SortByAge(list);
      SortedKeepsKeys(list, byAge);
      var evict := |byAge| + 1 - cap;
      victims := seq(evict, (i: nat) requires i < evict => byAge[i].key);
      FirstAreVictims(drivers, lastUsed, key, cap, byAge, victims);
    }
  }

  /** The residents in the order of their age and key. */
  ghost predicate InOrder(others: set<string>, lastUsed: map<string, nat>, byAge: seq<Aged>) {
    && SortedByAge(byAge) && |byAge| == |others|
    && (forall e: Aged :: e in byAge ==> e.key in others && e == AgedOf(lastUsed, e.key))
    && (forall i: nat, j: nat {:trigger byAge[i], byAge[j]} | i < j < |byAge| :: byAge[i].key != byAge[j].key)
    && (forall k: string :: k in others ==> AgedOf(lastUsed, k) in byAge)
  }

  lemma FirstAreVictims(drivers: map<string, bool>, lastUsed: map<string, nat>, key: string, cap: nat,
                        byAge: seq<Aged>, victims: seq<string>)
    requires InOrder(Holders(drivers) - {key}, lastUsed, byAge) && cap > 0 && |byAge| + 1 > cap
    requires |victims| == |byAge| + 1 - cap
    requires forall i: nat {:trigger victims[i]} | i < |victims| :: victims[i] == byAge[i].key
    ensures Evicts(drivers, lastUsed, key, cap, victims)
  {
    hide Older, AgeOf, Holders;
    var others := Holders(drivers) - {key};
    forall i: nat {:trigger victims[i]} | i < |victims|
      ensures victims[i] in others && AgedOf(lastUsed, victims[i]) == byAge[i]
    {
      assert byAge[i] in byAge;
    }
    forall i: nat {:trigger byAge[i]} | i < |victims| ensures byAge[i].key in victims { assert victims[i] in victims; }
    forall i: nat, k: string {:trigger victims[i], k in others} | i < |victims| && k in others && k !in victims
      ensures Older(AgedOf(lastUsed, victims[i]), AgedOf(lastUsed, k))
    {
      var j: nat :| j < |byAge| && byAge[j] == AgedOf(lastUsed, k);
      assert Older(byAge[i], byAge[j]);
    }
    forall i: nat, j: nat {:trigger victims[i], victims[j]} | i < j < |victims|
      ensures victims[i] != victims[j] && Older(AgedOf(lastUsed, victims[i]), AgedOf(lastUsed, victims[j]))
    {
      assert byAge[i].key != byAge[j].key && Older(byAge[i], byAge[j]);
    }
  }

  // ------------------------------------------------------- proves on one client

  /** What a prove does with its AIR's sections on the way to the slot. */
  datatype Plan = Resident | ReadAndUpload(ticket: nat) | ReadOnly

  /** A prove's place: before and after its admission, and each stretch under the slot's
      lock between two changes that another thread could see. */
  datatype Pc =
    | Outside
    | Admitted
    | Planned(plan: Plan)
    | Evicting(plan: Plan, victims: seq<string>)       // under the slot from here
    | Dropped(plan: Plan, victim: string, victims: seq<string>)
    | Install(plan: Plan)
    | Installed(plan: Plan, stale: bool)
    | Mirror
    | Ready
    | Spent
    | Unlock
    | Failing(plan: Plan)                              // a failure before the slot
    | Done

  datatype Prove = Prove(key: string, keep: bool)

  /** The client: its slot, the mirror, the permit pool, and its proves. */
  datatype Client = Client(drivers: map<string, bool>, lastUsed: map<string, nat>, tick: nat, holder: int,
                           mirror: set<string>, permits: A.Queue, pcs: seq<Pc>)

  /** How many AIRs' sections may stay, and how many read-aheads may be out. */
  datatype Limits = Limits(airs: nat, depth: nat)

  predicate InSlot(pc: Pc) {
    pc.Evicting? || pc.Dropped? || pc.Install? || pc.Installed? || pc.Mirror? || pc.Ready? || pc.Spent? || pc.Unlock?
  }

  function Ticket(pc: Pc): set<nat> {
    match pc
    case Planned(ReadAndUpload(t)) => {t}
    case Evicting(ReadAndUpload(t), _) => {t}
    case Dropped(ReadAndUpload(t), _, _) => {t}
    case Install(ReadAndUpload(t)) => {t}
    case Installed(ReadAndUpload(t), _) => {t}
    case Failing(ReadAndUpload(t)) => {t}
    case _ => {}
  }

  function Return(q: A.Queue, plan: Plan): A.Queue { if plan.ReadAndUpload? then A.Leave(q, plan.ticket) else q }

  /** What `FixedAhead::plan` decides, and the permits after it: a glance at the mirror,
      then a permit if one is free. */
  function PlanOf(mirror: set<string>, permits: A.Queue, depth: nat, key: string): (Plan, A.Queue) {
    if key in mirror then (Resident, permits)
    else if |permits.admitted| >= depth then (ReadOnly, permits)
    else (ReadAndUpload(permits.next), A.Enter(A.Take(permits), permits.next, 0))
  }

  /** A plan, case by case: resident exactly when the mirror has the AIR, a permit taken
      exactly when it has not and fewer than `depth` are out, and only then do the permits
      change, by one entry under the next ticket. */
  lemma PlanIs(mirror: set<string>, permits: A.Queue, depth: nat, key: string)
    ensures var (plan, after) := PlanOf(mirror, permits, depth, key);
            && (plan == Resident <==> key in mirror)
            && (plan.ReadAndUpload? <==> key !in mirror && |permits.admitted| < depth)
            && (plan.ReadAndUpload? ==>
                  && plan.ticket == permits.next && after.next == permits.next + 1
                  && after.admitted == permits.admitted + [A.Admitted(permits.next, 0)])
            && (!plan.ReadAndUpload? ==> after == permits)
  {
  }

  /** The mirror and the permits as the program keeps them. */
  class FixedAhead {
    var resident: set<string>
    const permit: A.Pending
    const depth: nat

    constructor (depth: nat)
      ensures resident == {} && this.depth == depth && fresh(permit) && permit.Value() == A.Queue([], 0, 0)
    {
      this.depth := depth;
      resident := {};
      permit := new A.Pending();
    }

    method PlanFor(key: string) returns (plan: Plan)
      modifies permit
      ensures (plan, permit.Value()) == PlanOf(resident, old(permit.Value()), depth, key)
      ensures plan == Resident <==> key in resident
      ensures plan.ReadAndUpload? <==> key !in resident && |old(permit.admitted)| < depth
      ensures !plan.ReadAndUpload? ==> permit.Value() == old(permit.Value())
      ensures plan.ReadAndUpload? ==> permit.admitted == old(permit.admitted) + [A.Admitted(plan.ticket, 0)]
    {
      if key in resident {
        return Resident;
      }
      var entered, ticket := permit.TryAcquire(depth);
      plan := if entered then ReadAndUpload(ticket) else ReadOnly;
    }

    method Installed(key: string, plan: Plan)
      modifies `resident, permit
      ensures resident == old(resident) + {key} && permit.Value() == Return(old(permit.Value()), plan)
    {
      if plan.ReadAndUpload? {
        permit.Release(plan.ticket);
      }
      resident := resident + {key};
    }

    method Evicted(key: string)
      modifies `resident
      ensures resident == old(resident) - {key}
    {
      resident := resident - {key};
    }
  }

  /** A prove plans: its own read-ahead, before the slot. */
  function PlanStep(c: Client, lim: Limits, p: Prove, t: nat): Client
    requires t < |c.pcs|
  {
    var (plan, permits) := PlanOf(c.mirror, c.permits, lim.depth, p.key);
    c.(permits := permits, pcs := c.pcs[t := Planned(plan)])
  }

  /** This AIR's driver, there whether it was or not. */
  function WithDriver(drivers: map<string, bool>, key: string): map<string, bool> {
    if key in drivers then drivers else drivers[key := false]
  }

  /** The slot taken: the driver is there, its use recorded, and the victims chosen. */
  ghost predicate EnterWith(c: Client, lim: Limits, p: Prove, t: nat, plan: Plan, victims: seq<string>, c': Client)
    requires t < |c.pcs|
  {
    && Evicts(WithDriver(c.drivers, p.key), c.lastUsed[p.key := c.tick + 1], p.key, lim.airs, victims)
    && c' == c.(drivers := WithDriver(c.drivers, p.key), lastUsed := c.lastUsed[p.key := c.tick + 1], tick := c.tick + 1,
                holder := t, pcs := c.pcs[t := Evicting(plan, victims)])
  }

  ghost predicate EnterSlot(c: Client, lim: Limits, p: Prove, t: nat, plan: Plan, c': Client)
    requires t < |c.pcs|
  {
    exists victims: seq<string> :: EnterWith(c, lim, p, t, plan, victims, c')
  }

  /** One step of prove `t`. */
  ghost predicate Step(c: Client, lim: Limits, p: Prove, t: nat, c': Client) {
    t < |c.pcs| &&
    match c.pcs[t]
    case Outside => c' == c.(pcs := c.pcs[t := Admitted])
    case Admitted => c' == PlanStep(c, lim, p, t) || c' == c.(pcs := c.pcs[t := Done])
    case Planned(plan) =>
      // the upload gave way, the read failed, or the slot
      || (plan.ReadAndUpload? && c' == c.(permits := Return(c.permits, plan), pcs := c.pcs[t := Planned(ReadOnly)]))
      || c' == c.(pcs := c.pcs[t := Failing(plan)])
      || (c.holder < 0 && EnterSlot(c, lim, p, t, plan, c'))
    case Failing(plan) => c' == c.(permits := Return(c.permits, plan), pcs := c.pcs[t := Done])
    case Evicting(plan, victims) =>
      if victims == [] then c' == c.(pcs := c.pcs[t := Install(plan)])
      else c' == c.(drivers := c.drivers[victims[0] := false], pcs := c.pcs[t := Dropped(plan, victims[0], victims[1..])])
    case Dropped(plan, victim, victims) =>
      c' == c.(mirror := c.mirror - {victim}, pcs := c.pcs[t := Evicting(plan, victims)])
    case Install(plan) =>
      if p.key in c.drivers && c.drivers[p.key] then c' == c.(pcs := c.pcs[t := Installed(plan, true)])
      else
        || c' == c.(drivers := c.drivers[p.key := true], pcs := c.pcs[t := Installed(plan, false)])
        || c' == c.(permits := Return(c.permits, plan), pcs := c.pcs[t := Unlock])      // set_fixed failed
    case Installed(plan, _) => c' == c.(permits := Return(c.permits, plan), pcs := c.pcs[t := Mirror])
    case Mirror => c' == c.(mirror := c.mirror + {p.key}, pcs := c.pcs[t := Ready])
    case Ready =>
      || c' == c.(pcs := c.pcs[t := Unlock])                                            // a failure before the prove
      || c' == if p.keep then c.(pcs := c.pcs[t := Unlock])
               else c.(drivers := c.drivers[p.key := false], pcs := c.pcs[t := Spent])
    case Spent => c' == c.(mirror := c.mirror - {p.key}, pcs := c.pcs[t := Unlock])
    case Unlock => c' == c.(holder := -1, pcs := c.pcs[t := Done])
    case Done => false
  }

  // ------------------------------------------------------------ the mirror is exact

  /** What the slot's holder has done so far to the sections and to the mirror. */
  ghost predicate StageOk(c: Client, lim: Limits, key: string, pc: Pc) {
    var h := Holders(c.drivers);
    match pc
    case Evicting(_, victims) => c.mirror == h && VictimsOk(h, lim, key, victims)
    case Dropped(_, v, victims) => v !in h && v != key && c.mirror == h + {v} && VictimsOk(h, lim, key, victims)
    case Install(_) => c.mirror == h && |h - {key}| + 1 <= lim.airs
    case Installed(_, _) => key in h && c.mirror + {key} == h && |h| <= lim.airs
    case Mirror => key in h && c.mirror + {key} == h && |h| <= lim.airs
    case Ready => key in h && c.mirror == h && |h| <= lim.airs
    case Spent => key !in h && c.mirror == h + {key} && |h| <= lim.airs
    case Unlock => c.mirror == h && |h| <= lim.airs
    case _ => true
  }

  /** The victims left are enough to bring the holders down, and are among them. */
  ghost predicate VictimsOk(h: set<string>, lim: Limits, key: string, victims: seq<string>) {
    && (forall i: nat {:trigger victims[i]} | i < |victims| :: victims[i] in h && victims[i] != key)
    && (forall i: nat, j: nat {:trigger victims[i], victims[j]} | i < j < |victims| :: victims[i] != victims[j])
    && |h - {key}| + 1 <= lim.airs + |victims|
  }

  ghost predicate SlotInv(c: Client, lim: Limits, proves: seq<Prove>)
    requires |c.pcs| == |proves|
  {
    && c.holder < |c.pcs|
    && (c.holder < 0 ==> c.mirror == Holders(c.drivers) && |Holders(c.drivers)| <= lim.airs)
    && (c.holder >= 0 ==> InSlot(c.pcs[c.holder]) && StageOk(c, lim, proves[c.holder].key, c.pcs[c.holder]))
    && (forall t: nat {:trigger c.pcs[t]} | t < |c.pcs| && InSlot(c.pcs[t]) :: c.holder == t)
  }

  lemma HoldersAfter(drivers: map<string, bool>, k: string, fixedNow: bool)
    ensures Holders(drivers[k := fixedNow]) == if fixedNow then Holders(drivers) + {k} else Holders(drivers) - {k}
  {
  }

  lemma FirstVictim(h: set<string>, lim: Limits, key: string, victims: seq<string>)
    requires VictimsOk(h, lim, key, victims) && victims != []
    ensures victims[0] in h && victims[0] != key && VictimsOk(h - {victims[0]}, lim, key, victims[1..])
  {
    var rest := victims[1..];
    forall i: nat {:trigger rest[i]} | i < |rest| ensures rest[i] in h - {victims[0]} && rest[i] != key {
      assert rest[i] == victims[i + 1];
    }
    forall i: nat, j: nat {:trigger rest[i], rest[j]} | i < j < |rest| ensures rest[i] != rest[j] {
      assert rest[i] == victims[i + 1] && rest[j] == victims[j + 1];
    }
    assert h - {victims[0]} - {key} == (h - {key}) - {victims[0]};
  }

  lemma EnterOk(c: Client, lim: Limits, p: Prove, t: nat, plan: Plan, c': Client)
    requires t < |c.pcs| && lim.airs > 0 && c.mirror == Holders(c.drivers) && EnterSlot(c, lim, p, t, plan, c')
    ensures c'.holder == t && InSlot(c'.pcs[t]) && StageOk(c', lim, p.key, c'.pcs[t])
  {
    var victims: seq<string> :| EnterWith(c, lim, p, t, plan, victims, c');
    SameHolders(c.drivers, p.key);
    VictimsChosen(c'.drivers, c'.lastUsed, p.key, lim, victims);
  }

  lemma SameHolders(drivers: map<string, bool>, key: string)
    ensures Holders(WithDriver(drivers, key)) == Holders(drivers)
  {
  }

  lemma VictimsChosen(drivers: map<string, bool>, lastUsed: map<string, nat>, key: string, lim: Limits, victims: seq<string>)
    requires Evicts(drivers, lastUsed, key, lim.airs, victims)
    ensures VictimsOk(Holders(drivers), lim, key, victims)
  {
  }

  lemma EnoughGone(h: set<string>, lim: Limits, key: string, victims: seq<string>)
    requires VictimsOk(h, lim, key, victims) && victims == []
    ensures |h - {key}| + 1 <= lim.airs
  {
  }

  lemma DropStep(c: Client, lim: Limits, p: Prove, t: nat, c': Client)
    requires t < |c.pcs| && c.pcs[t].Evicting? && StageOk(c, lim, p.key, c.pcs[t]) && Step(c, lim, p, t, c')
    ensures StageOk(c', lim, p.key, c'.pcs[t])
  {
    hide VictimsOk, Holders;
    var victims := c.pcs[t].victims;
    if victims == [] {
      EnoughGone(Holders(c.drivers), lim, p.key, victims);
    } else {
      var h := Holders(c.drivers);
      FirstVictim(h, lim, p.key, victims);
      HoldersAfter(c.drivers, victims[0], false);
      assert h == (h - {victims[0]}) + {victims[0]};
    }
  }

  lemma ForgetStep(c: Client, lim: Limits, p: Prove, t: nat, c': Client)
    requires t < |c.pcs| && c.pcs[t].Dropped? && StageOk(c, lim, p.key, c.pcs[t]) && Step(c, lim, p, t, c')
    ensures StageOk(c', lim, p.key, c'.pcs[t])
  {
    assert c.mirror - {c.pcs[t].victim} == Holders(c.drivers);
  }

  lemma InstallCounts(h: set<string>, key: string)
    ensures |h + {key}| == |h - {key}| + 1
    ensures key in h ==> |h| == |h - {key}| + 1
    ensures key !in h ==> |h| == |h - {key}|
  {
    assert h + {key} == (h - {key}) + {key};
    if key in h { assert h == (h - {key}) + {key}; } else { assert h - {key} == h; }
  }

  lemma InstallSteps(c: Client, lim: Limits, p: Prove, t: nat, c': Client)
    requires t < |c.pcs| && (c.pcs[t].Install? || c.pcs[t].Installed? || c.pcs[t].Mirror?)
    requires StageOk(c, lim, p.key, c.pcs[t]) && Step(c, lim, p, t, c')
    ensures StageOk(c', lim, p.key, c'.pcs[t])
  {
    HoldersAfter(c.drivers, p.key, true);
    InstallCounts(Holders(c.drivers), p.key);
  }

  lemma ProveSteps(c: Client, lim: Limits, p: Prove, t: nat, c': Client)
    requires t < |c.pcs| && (c.pcs[t].Ready? || c.pcs[t].Spent?)
    requires StageOk(c, lim, p.key, c.pcs[t]) && Step(c, lim, p, t, c')
    ensures StageOk(c', lim, p.key, c'.pcs[t])
  {
    var h := Holders(c.drivers);
    HoldersAfter(c.drivers, p.key, false);
    if c.pcs[t].Ready? { assert h == (h - {p.key}) + {p.key}; } else { assert c.mirror - {p.key} == h; }
  }

  /** What the holder's next step leaves, while it still holds the slot. */
  lemma HolderSteps(c: Client, lim: Limits, p: Prove, t: nat, c': Client)
    requires t < |c.pcs| && InSlot(c.pcs[t]) && !c.pcs[t].Unlock? && StageOk(c, lim, p.key, c.pcs[t]) && Step(c, lim, p, t, c')
    ensures StageOk(c', lim, p.key, c'.pcs[t])
  {
    if c.pcs[t].Evicting? { DropStep(c, lim, p, t, c'); }
    else if c.pcs[t].Dropped? { ForgetStep(c, lim, p, t, c'); }
    else if c.pcs[t].Ready? || c.pcs[t].Spent? { ProveSteps(c, lim, p, t, c'); }
    else { InstallSteps(c, lim, p, t, c'); }
  }

  lemma HolderFrame(c: Client, lim: Limits, p: Prove, t: nat, c': Client)
    requires t < |c.pcs| && InSlot(c.pcs[t]) && !c.pcs[t].Unlock? && Step(c, lim, p, t, c')
    ensures |c'.pcs| == |c.pcs| && c'.holder == c.holder && InSlot(c'.pcs[t]) && c'.pcs == c.pcs[t := c'.pcs[t]]
  {
  }

  /** A step outside the slot leaves the sections and the mirror alone. */
  lemma OutsideFrame(c: Client, lim: Limits, p: Prove, t: nat, c': Client)
    requires t < |c.pcs| && !InSlot(c.pcs[t]) && Step(c, lim, p, t, c')
    ensures |c'.pcs| == |c.pcs| && c'.pcs == c.pcs[t := c'.pcs[t]]
    ensures c'.holder == c.holder ==> !InSlot(c'.pcs[t]) && c'.drivers == c.drivers && c'.mirror == c.mirror
    ensures c'.holder == c.holder ==> c'.lastUsed == c.lastUsed && c'.tick == c.tick
    ensures c'.holder != c.holder ==> c.holder < 0 && c.pcs[t].Planned? && EnterSlot(c, lim, p, t, c.pcs[t].plan, c')
  {
    hide Evicts, Return;
    if c.pcs[t].Planned? && c.holder < 0 && EnterSlot(c, lim, p, t, c.pcs[t].plan, c') {
      var victims: seq<string> :| EnterWith(c, lim, p, t, c.pcs[t].plan, victims, c');
    }
  }

  /** No thread but `t` is in the slot. */
  ghost predicate Alone(pcs: seq<Pc>, holder: int) {
    forall u: nat {:trigger pcs[u]} | u < |pcs| && InSlot(pcs[u]) :: holder == u
  }

  lemma AloneAfter(pcs: seq<Pc>, holder: int, t: nat, pc: Pc, holder': int)
    requires t < |pcs| && Alone(pcs, holder)
    requires holder' == holder || holder' == t || !InSlot(pc)
    requires holder != holder' ==> holder < 0 || holder == t
    requires InSlot(pc) ==> holder' == t
    ensures Alone(pcs[t := pc], holder')
  {
  }

  lemma InsideStep(c: Client, lim: Limits, proves: seq<Prove>, t: nat, c': Client)
    requires |c.pcs| == |proves| && t < |c.pcs| && SlotInv(c, lim, proves) && Step(c, lim, proves[t], t, c')
    requires InSlot(c.pcs[t]) && !c.pcs[t].Unlock?
    ensures |c'.pcs| == |proves| && SlotInv(c', lim, proves)
  {
    HolderSteps(c, lim, proves[t], t, c');
    HolderFrame(c, lim, proves[t], t, c');
    AloneAfter(c.pcs, c.holder, t, c'.pcs[t], c'.holder);
  }

  lemma UnlockStep(c: Client, lim: Limits, proves: seq<Prove>, t: nat, c': Client)
    requires |c.pcs| == |proves| && t < |c.pcs| && SlotInv(c, lim, proves) && Step(c, lim, proves[t], t, c') && c.pcs[t].Unlock?
    ensures |c'.pcs| == |proves| && SlotInv(c', lim, proves)
  {
    assert c.holder == t;
    AloneAfter(c.pcs, c.holder, t, Done, -1);
  }

  lemma OutsideStep(c: Client, lim: Limits, proves: seq<Prove>, t: nat, c': Client)
    requires |c.pcs| == |proves| && t < |c.pcs| && lim.airs > 0 && SlotInv(c, lim, proves) && Step(c, lim, proves[t], t, c')
    requires !InSlot(c.pcs[t])
    ensures |c'.pcs| == |proves| && SlotInv(c', lim, proves)
  {
    OutsideFrame(c, lim, proves[t], t, c');
    if c'.holder != c.holder { EnterOk(c, lim, proves[t], t, c.pcs[t].plan, c'); }
    AloneAfter(c.pcs, c.holder, t, c'.pcs[t], c'.holder);
  }

  lemma SlotStep(c: Client, lim: Limits, proves: seq<Prove>, t: nat, c': Client)
    requires |c.pcs| == |proves| && t < |c.pcs| && lim.airs > 0 && SlotInv(c, lim, proves) && Step(c, lim, proves[t], t, c')
    ensures |c'.pcs| == |proves| && SlotInv(c', lim, proves)
  {
    if !InSlot(c.pcs[t]) { OutsideStep(c, lim, proves, t, c'); }
    else if c.pcs[t].Unlock? { UnlockStep(c, lim, proves, t, c'); }
    else { InsideStep(c, lim, proves, t, c'); }
  }

  // ------------------------------------------------------------- the ages are apart

  /** Every use has its own tick, none past the clock, and who holds sections was used. */
  ghost predicate AgesInv(c: Client, proves: seq<Prove>) {
    && (forall k: string :: k in c.lastUsed ==> c.lastUsed[k] <= c.tick)
    && (forall k: string, j: string {:trigger c.lastUsed[k], c.lastUsed[j]} ::
          k in c.lastUsed && j in c.lastUsed && k != j ==> c.lastUsed[k] != c.lastUsed[j])
    && (forall k: string :: k in c.drivers ==> k in c.lastUsed)
    && (0 <= c.holder < |proves| ==> proves[c.holder].key in c.lastUsed)
  }

  lemma AgesEnter(c: Client, lim: Limits, proves: seq<Prove>, t: nat, plan: Plan, c': Client)
    requires |c.pcs| == |proves| && t < |c.pcs| && AgesInv(c, proves) && EnterSlot(c, lim, proves[t], t, plan, c')
    ensures AgesInv(c', proves)
  {
    hide Evicts, SlotInv;
    var victims: seq<string> :| EnterWith(c, lim, proves[t], t, plan, victims, c');
  }

  lemma AgesStep(c: Client, lim: Limits, proves: seq<Prove>, t: nat, c': Client)
    requires |c.pcs| == |proves| && t < |c.pcs| && SlotInv(c, lim, proves) && AgesInv(c, proves) && Step(c, lim, proves[t], t, c')
    ensures AgesInv(c', proves)
  {
    if !InSlot(c.pcs[t]) {
      OutsideFrame(c, lim, proves[t], t, c');
      if c'.holder != c.holder { AgesEnter(c, lim, proves, t, c.pcs[t].plan, c'); }
    } else {
      InsideAges(c, lim, proves, t, c');
    }
  }

  lemma InsideAges(c: Client, lim: Limits, proves: seq<Prove>, t: nat, c': Client)
    requires |c.pcs| == |proves| && t < |c.pcs| && c.holder == t && InSlot(c.pcs[t]) && StageOk(c, lim, proves[t].key, c.pcs[t])
    requires AgesInv(c, proves) && Step(c, lim, proves[t], t, c')
    ensures AgesInv(c', proves)
  {
    assert c'.lastUsed == c.lastUsed && c'.tick == c.tick;
    forall k: string | k in c'.drivers ensures k in c'.lastUsed {
      if c.pcs[t].Evicting? && c.pcs[t].victims != [] && k == c.pcs[t].victims[0] { assert k in Holders(c.drivers); }
    }
  }

  /** The sections released are those used longest ago: each victim's last use is
      before that of every section that stays. */
  lemma EvictsOldest(c: Client, lim: Limits, proves: seq<Prove>, p: Prove, t: nat, c': Client, i: nat, k: string)
    requires t < |c.pcs| && c.pcs[t].Planned? && AgesInv(c, proves) && EnterSlot(c, lim, p, t, c.pcs[t].plan, c')
    requires c'.pcs[t].Evicting? && i < |c'.pcs[t].victims|
    requires k in Holders(c'.drivers) && k !in c'.pcs[t].victims
    ensures c'.pcs[t].victims[i] in c'.lastUsed && k in c'.lastUsed && c'.lastUsed[c'.pcs[t].victims[i]] < c'.lastUsed[k]
  {
    var victims: seq<string> :| EnterWith(c, lim, p, t, c.pcs[t].plan, victims, c');
    SameHolders(c.drivers, p.key);
    var v := victims[i];
    assert v in Holders(c'.drivers) && v != p.key;
    if k != p.key {
      assert k in Holders(c'.drivers) - {p.key};
      assert AgeOf(c'.lastUsed, v) <= AgeOf(c'.lastUsed, k);
      assert c.lastUsed[v] != c.lastUsed[k];
    }
  }

  // ------------------------------------------------------- permits are conserved

  ghost predicate Listed(q: A.Queue, ticket: nat) {
    exists e: A.Admitted {:trigger e in q.admitted} :: e in q.admitted && e.ticket == ticket
  }

  ghost predicate HeldBySome(pcs: seq<Pc>, ticket: nat) {
    exists u: nat {:trigger pcs[u]} :: u < |pcs| && ticket in Ticket(pcs[u])
  }

  /** The permits out are exactly the ones some prove between its plan and its install
      holds, one each, and no more than the depth. */
  ghost predicate PermitInv(q: A.Queue, pcs: seq<Pc>, depth: nat) {
    && q.serving == q.next && |q.admitted| <= depth && A.Sorted(q.admitted)
    && (forall e: A.Admitted {:trigger e in q.admitted} | e in q.admitted :: e.ticket < q.next && HeldBySome(pcs, e.ticket))
    && (forall u: nat, k: nat {:trigger k in Ticket(pcs[u])} | u < |pcs| && k in Ticket(pcs[u]) :: Listed(q, k))
    && (forall u: nat, v: nat {:trigger Ticket(pcs[u]), Ticket(pcs[v])} | u < v < |pcs| :: Ticket(pcs[u]) !! Ticket(pcs[v]))
  }

  /** Nothing about the permits changes. */
  ghost predicate Untouched(q: A.Queue, pc: Pc, q': A.Queue, pc': Pc) { q' == q && Ticket(pc') == Ticket(pc) }

  ghost predicate Took(q: A.Queue, pc: Pc, q': A.Queue, pc': Pc, depth: nat) {
    Ticket(pc) == {} && Ticket(pc') == {q.next} && |q.admitted| < depth && q' == A.Enter(A.Take(q), q.next, 0)
  }

  ghost predicate GaveBack(q: A.Queue, pc: Pc, q': A.Queue, pc': Pc) {
    exists k: nat {:trigger A.Leave(q, k)} :: Ticket(pc) == {k} && Ticket(pc') == {} && q' == A.Leave(q, k)
  }

  lemma GivesBack(q: A.Queue, pc: Pc, plan: Plan, pc': Pc)
    requires Ticket(pc) == (if plan.ReadAndUpload? then {plan.ticket} else {}) && Ticket(pc') == {}
    ensures Untouched(q, pc, Return(q, plan), pc') || GaveBack(q, pc, Return(q, plan), pc')
  {
    if plan.ReadAndUpload? { assert Return(q, plan) == A.Leave(q, plan.ticket); }
  }

  ghost predicate Permitted(q: A.Queue, pc: Pc, q': A.Queue, pc': Pc, depth: nat) {
    Untouched(q, pc, q', pc') || Took(q, pc, q', pc', depth) || GaveBack(q, pc, q', pc')
  }

  lemma AdmittedPermits(c: Client, lim: Limits, p: Prove, t: nat, c': Client)
    requires t < |c.pcs| && c.pcs[t].Admitted? && Step(c, lim, p, t, c')
    ensures t < |c'.pcs| && c'.pcs == c.pcs[t := c'.pcs[t]]
    ensures Permitted(c.permits, c.pcs[t], c'.permits, c'.pcs[t], lim.depth)
  {
  }

  lemma EnterPermits(c: Client, lim: Limits, p: Prove, t: nat, c': Client)
    requires t < |c.pcs| && c.pcs[t].Planned? && EnterSlot(c, lim, p, t, c.pcs[t].plan, c')
    ensures t < |c'.pcs| && c'.pcs == c.pcs[t := c'.pcs[t]]
    ensures Untouched(c.permits, c.pcs[t], c'.permits, c'.pcs[t])
  {
    var victims: seq<string> :| EnterWith(c, lim, p, t, c.pcs[t].plan, victims, c');
  }

  lemma PlannedPermits(c: Client, lim: Limits, p: Prove, t: nat, c': Client)
    requires t < |c.pcs| && c.pcs[t].Planned? && Step(c, lim, p, t, c')
    ensures t < |c'.pcs| && c'.pcs == c.pcs[t := c'.pcs[t]]
    ensures Permitted(c.permits, c.pcs[t], c'.permits, c'.pcs[t], lim.depth)
  {
    if c.holder < 0 && EnterSlot(c, lim, p, t, c.pcs[t].plan, c') {
      EnterPermits(c, lim, p, t, c');
    } else {
      GivesBack(c.permits, c.pcs[t], c.pcs[t].plan, Planned(ReadOnly));
    }
  }

  lemma SlotPermits(c: Client, lim: Limits, p: Prove, t: nat, c': Client)
    requires t < |c.pcs| && (c.pcs[t].Failing? || c.pcs[t].Install? || c.pcs[t].Installed?) && Step(c, lim, p, t, c')
    ensures t < |c'.pcs| && c'.pcs == c.pcs[t := c'.pcs[t]]
    ensures Permitted(c.permits, c.pcs[t], c'.permits, c'.pcs[t], lim.depth)
  {
    if Ticket(c'.pcs[t]) == {} { GivesBack(c.permits, c.pcs[t], c.pcs[t].plan, c'.pcs[t]); }
  }

  /** Every step takes a permit, gives its own back, or leaves them be. */
  lemma PermitMoves(c: Client, lim: Limits, p: Prove, t: nat, c': Client)
    requires t < |c.pcs| && Step(c, lim, p, t, c')
    ensures t < |c'.pcs| && c'.pcs == c.pcs[t := c'.pcs[t]]
    ensures Permitted(c.permits, c.pcs[t], c'.permits, c'.pcs[t], lim.depth)
  {
    if c.pcs[t].Admitted? { AdmittedPermits(c, lim, p, t, c'); }
    else if c.pcs[t].Planned? { PlannedPermits(c, lim, p, t, c'); }
    else if c.pcs[t].Failing? || c.pcs[t].Install? || c.pcs[t].Installed? { SlotPermits(c, lim, p, t, c'); }
  }

  lemma HeldStays(pcs: seq<Pc>, t: nat, pc: Pc, k: nat)
    requires t < |pcs| && HeldBySome(pcs, k) && (k in Ticket(pcs[t]) ==> k in Ticket(pc))
    ensures HeldBySome(pcs[t := pc], k)
  {
    var u: nat :| u < |pcs| && k in Ticket(pcs[u]);
    assert k in Ticket(pcs[t := pc][u]);
  }

  lemma UntouchedKeeps(q: A.Queue, pcs: seq<Pc>, depth: nat, t: nat, pc: Pc)
    requires t < |pcs| && PermitInv(q, pcs, depth) && Ticket(pc) == Ticket(pcs[t])
    ensures PermitInv(q, pcs[t := pc], depth)
  {
    forall e: A.Admitted {:trigger e in q.admitted} | e in q.admitted ensures HeldBySome(pcs[t := pc], e.ticket) {
      HeldStays(pcs, t, pc, e.ticket);
    }
  }

  lemma TookKeeps(q: A.Queue, pcs: seq<Pc>, depth: nat, t: nat, pc: Pc, q': A.Queue)
    requires t < |pcs| && PermitInv(q, pcs, depth) && Took(q, pcs[t], q', pc, depth)
    ensures PermitInv(q', pcs[t := pc], depth)
  {
    hide A.Sorted;
    var e0 := A.Admitted(q.next, 0);
    var pcs' := pcs[t := pc];
    A.PushSorted(q.admitted, e0);
    forall e: A.Admitted {:trigger e in q'.admitted} | e in q'.admitted ensures e.ticket < q'.next && HeldBySome(pcs', e.ticket) {
      if e in q.admitted { HeldStays(pcs, t, pc, e.ticket); } else { assert q.next in Ticket(pcs'[t]); }
    }
    forall u: nat, k: nat {:trigger k in Ticket(pcs'[u])} | u < |pcs'| && k in Ticket(pcs'[u]) ensures Listed(q', k) {
      if u == t { assert e0 in q'.admitted; } else {
        assert k in Ticket(pcs[u]);
        var e :| e in q.admitted && e.ticket == k;
        assert e in q'.admitted;
      }
    }
    forall u: nat | u < |pcs| && u != t ensures q.next !in Ticket(pcs[u]) { NotDrawn(q, pcs, depth, u); }
  }

  /** The next ticket is nobody's yet. */
  lemma NotDrawn(q: A.Queue, pcs: seq<Pc>, depth: nat, u: nat)
    requires PermitInv(q, pcs, depth) && u < |pcs|
    ensures q.next !in Ticket(pcs[u])
  {
    if q.next in Ticket(pcs[u]) { DrawnBelow(q, pcs, depth, u, q.next); }
  }

  lemma DrawnBelow(q: A.Queue, pcs: seq<Pc>, depth: nat, u: nat, k: nat)
    requires PermitInv(q, pcs, depth) && u < |pcs| && k in Ticket(pcs[u])
    ensures k < q.next
  {
    assert Listed(q, k);
  }

  lemma GaveBackKeeps(q: A.Queue, pcs: seq<Pc>, depth: nat, t: nat, pc: Pc, k: nat)
    requires t < |pcs| && PermitInv(q, pcs, depth) && Ticket(pcs[t]) == {k} && Ticket(pc) == {}
    ensures PermitInv(A.Leave(q, k), pcs[t := pc], depth)
  {
    hide A.Sorted;
    var q', pcs' := A.Leave(q, k), pcs[t := pc];
    A.WithoutSorted(q.admitted, k);
    forall e: A.Admitted {:trigger e in q'.admitted} | e in q'.admitted ensures HeldBySome(pcs', e.ticket) {
      assert e in q.admitted && e.ticket != k;
      HeldStays(pcs, t, pc, e.ticket);
    }
    forall u: nat, j: nat {:trigger j in Ticket(pcs'[u])} | u < |pcs'| && j in Ticket(pcs'[u]) ensures Listed(q', j) {
      assert j in Ticket(pcs[u]) && u != t;
      Apart(q, pcs, depth, t, u, k, j);
      var e :| e in q.admitted && e.ticket == j;
      assert e in q'.admitted;
    }
  }

  lemma Apart(q: A.Queue, pcs: seq<Pc>, depth: nat, t: nat, u: nat, k: nat, j: nat)
    requires PermitInv(q, pcs, depth) && t < |pcs| && u < |pcs| && t != u && k in Ticket(pcs[t]) && j in Ticket(pcs[u])
    ensures j != k
  {
    var a, b := if t < u then t else u, if t < u then u else t;
    assert Ticket(pcs[a]) !! Ticket(pcs[b]);
  }

  lemma PermitStep(c: Client, lim: Limits, p: Prove, t: nat, c': Client)
    requires t < |c.pcs| && PermitInv(c.permits, c.pcs, lim.depth) && Step(c, lim, p, t, c')
    ensures PermitInv(c'.permits, c'.pcs, lim.depth)
  {
    PermitMoves(c, lim, p, t, c');
    var q, q', pc, pc' := c.permits, c'.permits, c.pcs[t], c'.pcs[t];
    if Untouched(q, pc, q', pc') {
      UntouchedKeeps(q, c.pcs, lim.depth, t, pc');
    } else if Took(q, pc, q', pc', lim.depth) {
      TookKeeps(q, c.pcs, lim.depth, t, pc', q');
    } else {
      var k: nat :| Ticket(pc) == {k} && Ticket(pc') == {} && q' == A.Leave(q, k);
      GaveBackKeeps(q, c.pcs, lim.depth, t, pc', k);
    }
  }

  // ---------------------------------------------------------------- whole runs

  ghost predicate Inv(c: Client, lim: Limits, proves: seq<Prove>) {
    |c.pcs| == |proves| && SlotInv(c, lim, proves) && AgesInv(c, proves) && PermitInv(c.permits, c.pcs, lim.depth)
  }

  function Start(proves: seq<Prove>): Client {
    Client(map[], map[], 0, -1, {}, A.Queue([], 0, 0), seq(|proves|, (t: nat) => Outside))
  }

  ghost predicate Moves(c: Client, lim: Limits, proves: seq<Prove>, c': Client) {
    exists t: nat :: StepOf(c, lim, proves, t, c')
  }

  ghost predicate StepOf(c: Client, lim: Limits, proves: seq<Prove>, t: nat, c': Client) {
    t < |proves| && Step(c, lim, proves[t], t, c')
  }

  /** Any proves on one client, their steps in any order. */
  ghost predicate IsRun(proves: seq<Prove>, lim: Limits, run: seq<Client>) {
    && lim.airs > 0 && |run| > 0 && run[0] == Start(proves)
    && forall i: nat {:trigger run[i]} | i + 1 < |run| :: Moves(run[i], lim, proves, run[i + 1])
  }

  lemma MoveInv(c: Client, lim: Limits, proves: seq<Prove>, c': Client)
    requires lim.airs > 0 && Inv(c, lim, proves) && Moves(c, lim, proves, c')
    ensures Inv(c', lim, proves)
  {
    hide Step, SlotInv, AgesInv, PermitInv;
    var t: nat :| StepOf(c, lim, proves, t, c');
    SlotStep(c, lim, proves, t, c');
    AgesStep(c, lim, proves, t, c');
    PermitStep(c, lim, proves[t], t, c');
  }

  lemma StartInv(proves: seq<Prove>, lim: Limits)
    ensures Inv(Start(proves), lim, proves)
  {
    assert Holders(Start(proves).drivers) == {};
  }

  lemma {:induction false} RunInv(proves: seq<Prove>, lim: Limits, run: seq<Client>, i: nat)
    requires IsRun(proves, lim, run) && i < |run|
    ensures Inv(run[i], lim, proves)
  {
    hide Moves;
    if i == 0 {
      StartInv(proves, lim);
    } else {
      RunInv(proves, lim, run, i - 1);
      assert Moves(run[i - 1], lim, proves, run[i - 1 + 1]);
      MoveInv(run[i - 1], lim, proves, run[i]);
    }
  }

  /** Whenever the slot is free, the mirror is exactly the AIRs whose driver holds
      sections, and they are within the limit. */
  lemma MirrorIsExact(proves: seq<Prove>, lim: Limits, run: seq<Client>, i: nat)
    requires IsRun(proves, lim, run) && i < |run| && run[i].holder < 0
    ensures run[i].mirror == Holders(run[i].drivers) && |Holders(run[i].drivers)| <= lim.airs
  {
    RunInv(proves, lim, run, i);
  }

  /** While the slot is free, a prove that plans reads nothing exactly when its AIR's driver
      holds the sections. */
  lemma PlansByWhatIsHeld(proves: seq<Prove>, lim: Limits, run: seq<Client>, i: nat, key: string)
    requires IsRun(proves, lim, run) && i < |run| && run[i].holder < 0
    ensures PlanOf(run[i].mirror, run[i].permits, lim.depth, key).0 == Resident <==> key in run[i].drivers && run[i].drivers[key]
  {
    MirrorIsExact(proves, lim, run, i);
  }

  /** The proves that hold a permit. */
  ghost function Holding(pcs: seq<Pc>): set<nat> { set u: nat | u < |pcs| && Ticket(pcs[u]) != {} }

  /** Permits found at distinct threads are no more than the threads. */
  lemma {:induction false} HoldersEnough(pcs: seq<Pc>, a: seq<A.Admitted>, s: set<nat>)
    requires A.Sorted(a)
    requires forall e: A.Admitted {:trigger e in a} | e in a :: exists u: nat {:trigger pcs[u]} :: u in s && u < |pcs| && e.ticket in Ticket(pcs[u])
    ensures |a| <= |s|
    decreases |a|
  {
    if a != [] {
      var last, init := a[|a| - 1], a[..|a| - 1];
      assert last in a;
      var u: nat :| u in s && u < |pcs| && last.ticket in Ticket(pcs[u]);
      A.InitSorted(a);
      forall e: A.Admitted {:trigger e in init} | e in init
        ensures exists v: nat {:trigger pcs[v]} :: v in s - {u} && v < |pcs| && e.ticket in Ticket(pcs[v])
      {
        assert e in a && e.ticket < last.ticket;
        var v: nat :| v in s && v < |pcs| && e.ticket in Ticket(pcs[v]);
        OneTicket(pcs[u], last.ticket, e.ticket);
        assert v in s - {u};
      }
      HoldersEnough(pcs, init, s - {u});
    }
  }

  lemma OneTicket(pc: Pc, k: nat, j: nat)
    requires k in Ticket(pc) && k != j
    ensures j !in Ticket(pc)
  {
  }

  lemma PermitsHeld(q: A.Queue, pcs: seq<Pc>, depth: nat)
    requires PermitInv(q, pcs, depth)
    ensures |q.admitted| <= |Holding(pcs)|
  {
    forall e: A.Admitted {:trigger e in q.admitted} | e in q.admitted
      ensures exists u: nat {:trigger pcs[u]} :: u in Holding(pcs) && u < |pcs| && e.ticket in Ticket(pcs[u])
    {
      var u: nat :| u < |pcs| && e.ticket in Ticket(pcs[u]);
      assert u in Holding(pcs);
    }
    HoldersEnough(pcs, q.admitted, Holding(pcs));
  }

  /** Permits out: never more than the depth, each listed once and with exactly the one
      prove that holds it, so none once no prove is between its plan and its install. */
  lemma PermitsReturn(proves: seq<Prove>, lim: Limits, run: seq<Client>, i: nat)
    requires IsRun(proves, lim, run) && i < |run|
    ensures |run[i].permits.admitted| <= lim.depth && A.Sorted(run[i].permits.admitted)
    ensures forall k: nat :: Listed(run[i].permits, k) <==> HeldBySome(run[i].pcs, k)
    ensures forall u: nat, v: nat {:trigger Ticket(run[i].pcs[u]), Ticket(run[i].pcs[v])} | u < v < |run[i].pcs| ::
              Ticket(run[i].pcs[u]) !! Ticket(run[i].pcs[v])
    ensures (forall u: nat {:trigger run[i].pcs[u]} | u < |run[i].pcs| :: Ticket(run[i].pcs[u]) == {}) ==> run[i].permits.admitted == []
  {
    hide SlotInv, AgesInv;
    RunInv(proves, lim, run, i);
    var c := run[i];
    forall k: nat ensures Listed(c.permits, k) <==> HeldBySome(c.pcs, k) {
      if HeldBySome(c.pcs, k) {
        var u: nat :| u < |c.pcs| && k in Ticket(c.pcs[u]);
        assert Listed(c.permits, k);
      }
    }
    PermitsHeld(c.permits, c.pcs, lim.depth);
    if forall u: nat {:trigger c.pcs[u]} | u < |c.pcs| :: Ticket(c.pcs[u]) == {} {
      assert Holding(c.pcs) == {};
    }
  }
}
