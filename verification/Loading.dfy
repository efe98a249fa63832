/** One client's loaded AIRs: each key is loaded by one thread at a time, and the
    threads that want it meanwhile wait for that load to end. */
module Loading {

  /** The map of ready artifacts and the keys being loaded, as the program keeps
      them; each method is one stretch under the lock. */
  class Loaded<Key(==, !new), Art> {
    var ready: map<Key, Art>
    var inFlight: set<Key>

    constructor ()
      ensures ready == map[] && inFlight == {}
    {
      ready, inFlight := map[], {};
    }

    /** A round of `artifact`'s loop: the artifact is there, or this thread marks the
        key as its own to load, or another thread has and this one waits. */
    method Look(key: Key) returns (found: bool, mine: bool)
      modifies this
      ensures found <==> key in old(ready)
      ensures mine <==> key !in old(ready) && key !in old(inFlight)
      ensures ready == old(ready) && inFlight == if mine then old(inFlight) + {key} else old(inFlight)
    {
      found, mine := key in ready, false;
      if !found && key !in inFlight {
        inFlight := inFlight + {key};
        mine := true;
      }
    }

    method FinishOk(key: Key, art: Art)
      modifies this
      ensures ready == old(ready)[key := art] && inFlight == old(inFlight) - {key}
    {
      inFlight := inFlight - {key};
      ready := ready[key := art];
    }

    method FinishErr(key: Key)
      modifies this
      ensures ready == old(ready) && inFlight == old(inFlight) - {key}
    {
      inFlight := inFlight - {key};
    }
  }

  // ------------------------------------------------------------ threads that load

  datatype Role<Key> = Out | Waiting(key: Key, asleep: bool) | Loading(key: Key)

  /** `ready` is the keys whose artifact is there. */
  datatype System<Key> = System(ready: set<Key>, inFlight: set<Key>, roles: seq<Role<Key>>)

  function Wake<Key>(r: Role<Key>): Role<Key> {
    if r.Waiting? then r.(asleep := false) else r
  }

  function WakeAll<Key>(roles: seq<Role<Key>>): (w: seq<Role<Key>>)
    ensures |w| == |roles|
  {
    seq(|roles|, (t: nat) requires t < |roles| => Wake(roles[t]))
  }

  function LookStep<Key(==)>(s: System<Key>, t: nat, key: Key): System<Key>
    requires t < |s.roles| && (s.roles[t].Out? || s.roles[t].Waiting?)
  {
    if key in s.ready then s.(roles := s.roles[t := Out])
    else if key !in s.inFlight then s.(inFlight := s.inFlight + {key}, roles := s.roles[t := Loading(key)])
    else s.(roles := s.roles[t := Waiting(key, true)])
  }

  function FinishStep<Key(==)>(s: System<Key>, t: nat, ok: bool): System<Key>
    requires t < |s.roles| && s.roles[t].Loading?
  {
    var key := s.roles[t].key;
    System(if ok then s.ready + {key} else s.ready, s.inFlight - {key}, WakeAll(s.roles[t := Out]))
  }

  function SpuriousStep<Key>(s: System<Key>, t: nat): System<Key>
    requires t < |s.roles|
  {
    s.(roles := s.roles[t := Wake(s.roles[t])])
  }

  ghost predicate HasLoader<Key>(s: System<Key>, key: Key) {
    exists t: nat {:trigger s.roles[t]} :: t < |s.roles| && s.roles[t] == Loading(key)
  }

  /** Each marked key has one loader and is not ready; a sleeper's key is marked. */
  ghost predicate Inv<Key(!new)>(s: System<Key>) {
    && (forall t: nat {:trigger s.roles[t]} | t < |s.roles| && s.roles[t].Loading? :: s.roles[t].key in s.inFlight)
    && (forall t: nat, u: nat {:trigger s.roles[t], s.roles[u]} | t < u < |s.roles| && s.roles[t].Loading? ::
          s.roles[u] != s.roles[t])
    && (forall k: Key :: k in s.inFlight ==> HasLoader(s, k) && k !in s.ready)
    && (forall t: nat {:trigger s.roles[t]} | t < |s.roles| && s.roles[t].Waiting? && s.roles[t].asleep ::
          s.roles[t].key in s.inFlight)
  }

  function Start<Key>(n: nat): System<Key> { System({}, {}, seq(n, (t: nat) => Out)) }

  lemma StartInv<Key(!new)>(n: nat)
    ensures Inv(Start<Key>(n))
  {
  }

  lemma LoaderStays<Key(!new)>(s: System<Key>, t: nat, r: Role<Key>, k: Key)
    requires t < |s.roles| && HasLoader(s, k) && s.roles[t] != Loading(k)
    ensures HasLoader(s.(roles := s.roles[t := r]), k)
  {
    var u: nat :| u < |s.roles| && s.roles[u] == Loading(k);
    assert s.roles[t := r][u] == Loading(k);
  }

  lemma WakeKeeps<Key(!new)>(s: System<Key>, k: Key)
    requires HasLoader(s, k)
    ensures HasLoader(s.(roles := WakeAll(s.roles)), k)
  {
    var u: nat :| u < |s.roles| && s.roles[u] == Loading(k);
    assert WakeAll(s.roles)[u] == Loading(k);
  }

  lemma LookInv<Key(!new)>(s: System<Key>, t: nat, key: Key)
    requires Inv(s) && t < |s.roles| && (s.roles[t].Out? || s.roles[t].Waiting?)
    ensures Inv(LookStep(s, t, key))
  {
    var s' := LookStep(s, t, key);
    var r := s'.roles[t];
    forall k: Key | k in s'.inFlight ensures HasLoader(s', k) {
      if k in s.inFlight { LoaderStays(s, t, r, k); } else { assert s'.roles[t] == Loading(k); }
    }
    forall u: nat {:trigger s'.roles[u]} | u < |s.roles| ensures s'.roles[u] == if u == t then r else s.roles[u] { }
  }

  lemma FinishInv<Key(!new)>(s: System<Key>, t: nat, ok: bool)
    requires Inv(s) && t < |s.roles| && s.roles[t].Loading?
    ensures Inv(FinishStep(s, t, ok))
  {
    var s' := FinishStep(s, t, ok);
    var out := s.(roles := s.roles[t := Out]);
    forall k: Key | k in s'.inFlight ensures HasLoader(s', k) {
      LoaderStays(s, t, Out, k);
      WakeKeeps(out, k);
    }
    forall u: nat {:trigger s'.roles[u]} | u < |s.roles| ensures s'.roles[u] == if u == t then Out else Wake(s.roles[u]) { }
  }

  lemma SpuriousInv<Key(!new)>(s: System<Key>, t: nat)
    requires Inv(s) && t < |s.roles|
    ensures Inv(SpuriousStep(s, t))
  {
    var r := Wake(s.roles[t]);
    var s' := SpuriousStep(s, t);
    if s.roles[t] != r {
      forall k: Key | k in s.inFlight ensures HasLoader(s', k) { LoaderStays(s, t, r, k); }
    } else {
      assert s'.roles == s.roles;
    }
  }

  /** A key is loaded by at most one thread at a time. */
  lemma OneLoader<Key(!new)>(s: System<Key>, t: nat, u: nat)
    requires Inv(s) && t < |s.roles| && u < |s.roles| && t != u
    requires s.roles[t].Loading? && s.roles[u].Loading?
    ensures s.roles[t].key != s.roles[u].key
  {
    assert s.roles[if t < u then t else u] != s.roles[if t < u then u else t];
  }

  /** With nobody loading, no key is marked. */
  lemma NoLoaders<Key(!new)>(s: System<Key>)
    requires Inv(s)
    ensures (forall t: nat {:trigger s.roles[t]} | t < |s.roles| :: !s.roles[t].Loading?) ==> s.inFlight == {}
  {
    if s.inFlight != {} {
      var k :| k in s.inFlight;
      assert HasLoader(s, k);
    }
  }
}
