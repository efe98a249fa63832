/** Process-wide exclusion per executable-cache file: the clients of one bridge do
    not compile, and write, the same entry at once. */
module EntryLocks {

  /** The set of busy paths, as the program keeps it; each method is one stretch
      under the lock. */
  class CacheEntryLock<Path(==, !new)> {
    var busy: set<Path>

    constructor ()
      ensures busy == {}
    {
      busy := {};
    }

    /** A round of `take`'s wait loop. */
    method TryTake(path: Path) returns (taken: bool)
      modifies this
      ensures taken <==> path !in old(busy)
      ensures busy == if taken then old(busy) + {path} else old(busy)
    {
      taken := path !in busy;
      if taken {
        busy := busy + {path};
      }
    }

    /** The lock's drop, before its notify. */
    method Release(path: Path)
      modifies this
      ensures busy == old(busy) - {path}
    {
      busy := busy - {path};
    }
  }

  // -------------------------------------------------------- threads at the entries

  datatype Role<Path> = Out | Waiting(path: Path, asleep: bool) | Holding(path: Path) | Notifying

  datatype System<Path> = System(busy: set<Path>, roles: seq<Role<Path>>)

  function Wake<Path>(r: Role<Path>): Role<Path> {
    if r.Waiting? then r.(asleep := false) else r
  }

  function WakeAll<Path>(roles: seq<Role<Path>>): (w: seq<Role<Path>>)
    ensures |w| == |roles|
  {
    seq(|roles|, (t: nat) requires t < |roles| => Wake(roles[t]))
  }

  /** A look at the busy set for `path`, on arriving or on waking. */
  function TakeStep<Path(==)>(s: System<Path>, t: nat, path: Path): System<Path>
    requires t < |s.roles| && (s.roles[t].Out? || s.roles[t].Waiting?)
  {
    if path !in s.busy then System(s.busy + {path}, s.roles[t := Holding(path)])
    else System(s.busy, s.roles[t := Waiting(path, true)])
  }

  function DropStep<Path(==)>(s: System<Path>, t: nat): System<Path>
    requires t < |s.roles| && s.roles[t].Holding?
  {
    System(s.busy - {s.roles[t].path}, s.roles[t := Notifying])
  }

  function NotifyStep<Path>(s: System<Path>, t: nat): System<Path>
    requires t < |s.roles| && s.roles[t].Notifying?
  {
    System(s.busy, WakeAll(s.roles[t := Out]))
  }

  function SpuriousStep<Path>(s: System<Path>, t: nat): System<Path>
    requires t < |s.roles|
  {
    System(s.busy, s.roles[t := Wake(s.roles[t])])
  }

  ghost predicate NotifyPending<Path>(s: System<Path>) {
    exists u: nat {:trigger s.roles[u]} :: u < |s.roles| && s.roles[u].Notifying?
  }

  /** Each busy path has exactly one holder, and a sleeper whose path is free has a
      notify on its way. */
  ghost predicate Inv<Path(!new)>(s: System<Path>) {
    && (forall t: nat {:trigger s.roles[t]} | t < |s.roles| && s.roles[t].Holding? :: s.roles[t].path in s.busy)
    && (forall t: nat, u: nat {:trigger s.roles[t], s.roles[u]} | t < u < |s.roles| && s.roles[t].Holding? ::
          s.roles[u] != s.roles[t])
    && (forall p: Path :: p in s.busy ==> HasHolder(s, p))
    && (forall t: nat {:trigger s.roles[t]} | t < |s.roles| && s.roles[t].Waiting? && s.roles[t].asleep
          && s.roles[t].path !in s.busy :: NotifyPending(s))
  }

  ghost predicate HasHolder<Path>(s: System<Path>, p: Path) {
    exists t: nat {:trigger s.roles[t]} :: t < |s.roles| && s.roles[t] == Holding(p)
  }

  function Start<Path>(n: nat): System<Path> { System({}, seq(n, (t: nat) => Out)) }

  lemma StartInv<Path(!new)>(n: nat)
    ensures Inv(Start<Path>(n))
  {
  }

  /** A holder other than thread `t` still holds after `t`'s role changes. */
  lemma HolderStays<Path(!new)>(s: System<Path>, t: nat, r: Role<Path>, p: Path)
    requires t < |s.roles| && HasHolder(s, p) && s.roles[t] != Holding(p)
    ensures HasHolder(System(s.busy, s.roles[t := r]), p)
  {
    var u: nat :| u < |s.roles| && s.roles[u] == Holding(p);
    assert s.roles[t := r][u] == Holding(p);
  }

  lemma NotifyStays<Path(!new)>(s: System<Path>, t: nat, r: Role<Path>)
    requires t < |s.roles| && NotifyPending(s) && !s.roles[t].Notifying?
    ensures NotifyPending(System(s.busy, s.roles[t := r]))
  {
    var u: nat :| u < |s.roles| && s.roles[u].Notifying?;
    assert s.roles[t := r][u].Notifying?;
  }

  lemma TakeInv<Path(!new)>(s: System<Path>, t: nat, path: Path)
    requires Inv(s) && t < |s.roles| && (s.roles[t].Out? || s.roles[t].Waiting?)
    ensures Inv(TakeStep(s, t, path))
  {
    var s' := TakeStep(s, t, path);
    var r := s'.roles[t];
    forall p: Path | p in s'.busy ensures HasHolder(s', p) {
      if p in s.busy { HolderStays(s, t, r, p); } else { assert s'.roles[t] == Holding(p); }
    }
    if NotifyPending(s) { NotifyStays(s, t, r); }
    forall u: nat {:trigger s'.roles[u]} | u < |s.roles| ensures s'.roles[u] == if u == t then r else s.roles[u] { }
  }

  lemma DropInv<Path(!new)>(s: System<Path>, t: nat)
    requires Inv(s) && t < |s.roles| && s.roles[t].Holding?
    ensures Inv(DropStep(s, t))
  {
    var s' := DropStep(s, t);
    assert s'.roles[t].Notifying?;
    forall p: Path | p in s'.busy ensures HasHolder(s', p) { HolderStays(s, t, Notifying, p); }
    forall u: nat {:trigger s'.roles[u]} | u < |s.roles| ensures s'.roles[u] == if u == t then Notifying else s.roles[u] { }
  }

  lemma WakeHolders<Path(!new)>(s: System<Path>)
    requires forall p: Path :: p in s.busy ==> HasHolder(s, p)
    ensures forall p: Path :: p in s.busy ==> HasHolder(System(s.busy, WakeAll(s.roles)), p)
  {
    forall p: Path | p in s.busy ensures HasHolder(System(s.busy, WakeAll(s.roles)), p) {
      var u: nat :| u < |s.roles| && s.roles[u] == Holding(p);
      assert WakeAll(s.roles)[u] == Holding(p);
    }
  }

  lemma NotifyInv<Path(!new)>(s: System<Path>, t: nat)
    requires Inv(s) && t < |s.roles| && s.roles[t].Notifying?
    ensures Inv(NotifyStep(s, t))
  {
    var out := System(s.busy, s.roles[t := Out]);
    forall p: Path | p in s.busy ensures HasHolder(out, p) { HolderStays(s, t, Out, p); }
    WakeHolders(out);
    var s' := NotifyStep(s, t);
    forall u: nat {:trigger s'.roles[u]} | u < |s.roles| ensures s'.roles[u] == if u == t then Out else Wake(s.roles[u]) { }
  }

  lemma SpuriousInv<Path(!new)>(s: System<Path>, t: nat)
    requires Inv(s) && t < |s.roles|
    ensures Inv(SpuriousStep(s, t))
  {
    var r := Wake(s.roles[t]);
    var s' := SpuriousStep(s, t);
    if s.roles[t] != r {
      forall p: Path | p in s.busy ensures HasHolder(s', p) { HolderStays(s, t, r, p); }
      if NotifyPending(s) { NotifyStays(s, t, r); }
    } else {
      assert s'.roles == s.roles;
    }
  }

  /** Two threads never hold the same entry. */
  lemma OneHolder<Path(!new)>(s: System<Path>, t: nat, u: nat)
    requires Inv(s) && t < |s.roles| && u < |s.roles| && t != u
    requires s.roles[t].Holding? && s.roles[u].Holding?
    ensures s.roles[t].path != s.roles[u].path
  {
    assert s.roles[if t < u then t else u] != s.roles[if t < u then u else t];
  }

  /** With nobody holding, nothing is busy. */
  lemma NoHolders<Path(!new)>(s: System<Path>)
    requires Inv(s)
    ensures (forall t: nat {:trigger s.roles[t]} | t < |s.roles| :: !s.roles[t].Holding?) ==> s.busy == {}
  {
    if s.busy != {} {
      var p :| p in s.busy;
      assert HasHolder(s, p);
    }
  }
}
