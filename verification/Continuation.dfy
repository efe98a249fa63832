/** Main's continuation bus: each segment consumes the state it inherits and produces the
    state it leaves, and the two global updates close the ends. */
module Continuation {

  const P: nat := 0xFFFF_FFFF_0000_0001
  const BOOT_ADDR: nat := 0x1000
  const END_PC_ADDR: nat := 0x1004

  /** A field element. */
  type Word = x: nat | x < P

  /** The air values of one Main segment that reach the continuation bus. */
  datatype Segment = Segment(
    id: Word, last: Word, initialPc: Word, nextPc: Word, previousC: (Word, Word), lastC: (Word, Word))

  /** One bus tuple. */
  datatype State = State(segment: Word, last: Word, pc: Word, c: (Word, Word))

  const BOOT := State(0, 0, BOOT_ADDR, (0, 0))
  const END := State(0, 1, END_PC_ADDR, (0, 0))

  /** `main_next_segment`, in the field. */
  function NextSegment(s: Segment): Word {
    var next := (s.id + 1) * (1 - s.last) % P;
    next
  }

  function Assumed(s: Segment): State { State(s.id, 0, s.initialPc, s.previousC) }

  function Proved(s: Segment): State { State(NextSegment(s), s.last, s.nextPc, s.lastC) }

  // ------------------------------------------------------------------------- the bus

  /** How often tuple `t` is proved, and how often assumed. */
  function Proofs(segs: seq<Segment>, t: State): nat {
    if segs == [] then 0 else (if Proved(segs[0]) == t then 1 else 0) + Proofs(segs[1..], t)
  }

  function Uses(segs: seq<Segment>, t: State): nat {
    if segs == [] then 0 else (if Assumed(segs[0]) == t then 1 else 0) + Uses(segs[1..], t)
  }

  /** +1 if the tuple is this one. */
  function Once(s: State, t: State): nat { if s == t then 1 else 0 }

  /** The signed multiplicity of `t` over the segments and a chain opened at `from`. */
  function Net(segs: seq<Segment>, from: State, t: State): int {
    Once(from, t) - Once(END, t) + Proofs(segs, t) - Uses(segs, t)
  }

  /** Every tuple's numerators add to zero in the field. */
  ghost predicate Cancels(segs: seq<Segment>) {
    forall t: State :: Net(segs, BOOT, t) % P == 0
  }

  ghost predicate Zero(segs: seq<Segment>, from: State) {
    forall t: State :: Net(segs, from, t) == 0
  }

  lemma {:induction false} CountsBounded(segs: seq<Segment>, t: State)
    ensures Proofs(segs, t) <= |segs| && Uses(segs, t) <= |segs|
  {
    if segs != [] { CountsBounded(segs[1..], t); }
  }

  /** Fewer numerators than the field has elements: zero in the field is zero. */
  lemma CancelsIsZero(segs: seq<Segment>)
    requires |segs| + 1 < P
    ensures Cancels(segs) <==> Zero(segs, BOOT)
  {
    if Cancels(segs) {
      forall t: State ensures Net(segs, BOOT, t) == 0 {
        CountsBounded(segs, t);
        assert Net(segs, BOOT, t) % P == 0;
      }
    }
  }

  // --------------------------------------------------------------------- one segment out

  function Without(segs: seq<Segment>, i: nat): seq<Segment>
    requires i < |segs|
  {
    segs[..i] + segs[i + 1..]
  }

  lemma {:induction false} CountsWithout(segs: seq<Segment>, i: nat, t: State)
    requires i < |segs|
    ensures Proofs(segs, t) == Once(Proved(segs[i]), t) + Proofs(Without(segs, i), t)
    ensures Uses(segs, t) == Once(Assumed(segs[i]), t) + Uses(Without(segs, i), t)
    decreases i
  {
    if i == 0 {
      assert Without(segs, 0) == segs[1..];
    } else {
      CountsWithout(segs[1..], i - 1, t);
      assert Without(segs, i) == [segs[0]] + Without(segs[1..], i - 1);
    }
  }

  lemma WithoutMultiset(segs: seq<Segment>, i: nat)
    requires i < |segs|
    ensures multiset(segs) == multiset{segs[i]} + multiset(Without(segs, i))
  {
    assert segs == segs[..i] + [segs[i]] + segs[i + 1..];
  }

  lemma {:induction false} User(segs: seq<Segment>, t: State) returns (i: nat)
    requires Uses(segs, t) > 0
    ensures i < |segs| && Assumed(segs[i]) == t
  {
    if Assumed(segs[0]) == t {
      i := 0;
    } else {
      var j := User(segs[1..], t);
      i := j + 1;
    }
  }

  lemma {:induction false} ProverCounts(segs: seq<Segment>, i: nat)
    requires i < |segs|
    ensures Proofs(segs, Proved(segs[i])) > 0
    decreases i
  {
    if i > 0 { ProverCounts(segs[1..], i - 1); }
  }

  // ------------------------------------------------------------------------- no cycles

  /** The segments alone cancel. */
  ghost predicate Closed(segs: seq<Segment>) {
    forall t: State :: Proofs(segs, t) == Uses(segs, t)
  }

  ghost predicate HasId(segs: seq<Segment>, id: nat) {
    exists i: nat :: i < |segs| && segs[i].id == id
  }

  /** In a closed set every segment's proved tuple is inherited: no segment is last, and
      the next id is there too. */
  lemma ClosedSteps(segs: seq<Segment>, id: nat)
    requires Closed(segs) && HasId(segs, id)
    ensures HasId(segs, (id + 1) % P)
  {
    var i: nat :| i < |segs| && segs[i].id == id;
    var t := Proved(segs[i]);
    ProverCounts(segs, i);
    assert Uses(segs, t) > 0;
    var j := User(segs, t);
    assert segs[i].last == 0;
    assert segs[j].id == (id + 1) % P;
  }

  lemma {:induction false} ClosedReaches(segs: seq<Segment>, id: nat, n: nat)
    requires Closed(segs) && HasId(segs, id)
    ensures HasId(segs, (id + n) % P)
  {
    if n == 0 {
      var i: nat :| i < |segs| && segs[i].id == id;
    } else {
      ClosedReaches(segs, id, n - 1);
      ClosedSteps(segs, (id + n - 1) % P);
      StepMod(id + n - 1);
    }
  }

  lemma StepMod(x: nat)
    ensures (x % P + 1) % P == (x + 1) % P
  {
  }

  /** The ids that occur. */
  function Ids(segs: seq<Segment>): set<nat> {
    if segs == [] then {} else {segs[0].id} + Ids(segs[1..])
  }

  lemma {:induction false} IdsHold(segs: seq<Segment>, i: nat)
    requires i < |segs|
    ensures segs[i].id in Ids(segs)
    decreases i
  {
    if i > 0 { IdsHold(segs[1..], i - 1); }
  }

  lemma {:induction false} IdsBounded(segs: seq<Segment>)
    ensures |Ids(segs)| <= |segs|
  {
    if segs != [] { IdsBounded(segs[1..]); }
  }

  lemma {:induction false} AllBelow(n: nat, s: set<nat>)
    requires forall k: nat :: k < n ==> k in s
    ensures n <= |s|
  {
    if n > 0 {
      AllBelow(n - 1, s - {n - 1});
    }
  }

  /** A closed set of segments would need every id of the field. */
  lemma ClosedIsEmpty(segs: seq<Segment>)
    requires Closed(segs) && |segs| < P
    ensures segs == []
  {
    if segs != [] {
      forall k: nat | k < P ensures k in Ids(segs) {
        var id := segs[0].id;
        assert HasId(segs, id);
        var n := if k >= id then k - id else k + P - id;
        ClosedReaches(segs, id, n);
        assert (id + n) % P == k;
        var i: nat :| i < |segs| && segs[i].id == k;
        IdsHold(segs, i);
      }
      AllBelow(P, Ids(segs));
      IdsBounded(segs);
    }
  }

  // ------------------------------------------------------------------------- the chain

  /** One run of segments from state `from` to the end: each inherits what the one before
      it left, and only the last is marked last. */
  ghost predicate ChainFrom(order: seq<Segment>, from: State) {
    && order != []
    && Assumed(order[0]) == from
    && if |order| == 1 then Proved(order[0]) == END
       else order[0].last == 0 && ChainFrom(order[1..], Proved(order[0]))
  }

  ghost predicate ChainOf(order: seq<Segment>, segs: seq<Segment>, from: State) {
    multiset(order) == multiset(segs) && ChainFrom(order, from)
  }

  /** Taking out the segment that inherits `from` leaves a chain opened at what it proves. */
  lemma Advance(segs: seq<Segment>, from: State, i: nat)
    requires i < |segs| && Assumed(segs[i]) == from && Zero(segs, from)
    ensures Zero(Without(segs, i), Proved(segs[i]))
  {
    forall t: State ensures Net(Without(segs, i), Proved(segs[i]), t) == 0 {
      CountsWithout(segs, i, t);
      assert Net(segs, from, t) == 0;
    }
  }

  lemma OpenedIsUsed(segs: seq<Segment>, from: State) returns (i: nat)
    requires Zero(segs, from) && from != END
    ensures i < |segs| && Assumed(segs[i]) == from
  {
    assert Net(segs, from, from) == 0;
    i := User(segs, from);
  }

  lemma OpenedAtEnd(segs: seq<Segment>)
    requires Zero(segs, END)
    ensures Closed(segs)
  {
    forall t: State ensures Proofs(segs, t) == Uses(segs, t) { assert Net(segs, END, t) == 0; }
  }

  lemma MarkedIsEnd(segs: seq<Segment>, from: State)
    requires Zero(segs, from) && from.last != 0
    ensures from == END
  {
    if from != END {
      var i := OpenedIsUsed(segs, from);
    }
  }

  /** Cancelling walks: from the open state to the end, using every segment. */
  lemma {:induction false} Walk(segs: seq<Segment>, from: State) returns (order: seq<Segment>)
    requires |segs| < P && Zero(segs, from) && from != END
    ensures ChainOf(order, segs, from)
    decreases |segs|
  {
    var i := OpenedIsUsed(segs, from);
    var s, rest := segs[i], Without(segs, i);
    Advance(segs, from, i);
    WithoutMultiset(segs, i);
    if Proved(s).last != 0 { MarkedIsEnd(rest, Proved(s)); }
    if Proved(s) == END {
      OpenedAtEnd(rest);
      ClosedIsEmpty(rest);
      order := [s];
    } else {
      var tail := Walk(rest, Proved(s));
      order := [s] + tail;
      assert order[1..] == tail;
    }
  }

  lemma {:induction false} CountsOfMultiset(a: seq<Segment>, b: seq<Segment>, t: State)
    requires multiset(a) == multiset(b)
    ensures Proofs(a, t) == Proofs(b, t) && Uses(a, t) == Uses(b, t)
    decreases |a|
  {
    if a != [] {
      assert a[0] in multiset(b);
      var i: nat :| i < |b| && b[i] == a[0];
      WithoutMultiset(a, 0);
      WithoutMultiset(b, i);
      assert Without(a, 0) == a[1..];
      assert multiset(a[1..]) == multiset(a) - multiset{a[0]};
      assert multiset(Without(b, i)) == multiset(b) - multiset{a[0]};
      CountsOfMultiset(a[1..], Without(b, i), t);
      CountsWithout(b, i, t);
    } else {
      assert |multiset(b)| == |b|;
    }
  }

  lemma NetStep(order: seq<Segment>, from: State, t: State)
    requires order != [] && Assumed(order[0]) == from
    ensures Net(order, from, t) == Net(order[1..], Proved(order[0]), t)
  {
  }

  /** A chain cancels. */
  lemma {:induction false} ChainIsZero(order: seq<Segment>, from: State)
    requires ChainFrom(order, from)
    ensures Zero(order, from)
    decreases |order|
  {
    if |order| > 1 { ChainIsZero(order[1..], Proved(order[0])); }
    forall t: State ensures Net(order, from, t) == 0 {
      NetStep(order, from, t);
      if |order| > 1 {
        assert Net(order[1..], Proved(order[0]), t) == 0;
      } else {
        assert order[1..] == [];
      }
    }
  }

  // --------------------------------------------------------------- the chain, by index

  /** Segment `i` has id `i`, only the final one is marked last, each leaves what the next
      inherits, and the ends are the boot state and the end state. */
  ghost predicate Chain(order: seq<Segment>) {
    && order != []
    && (forall i: nat {:trigger order[i]} | i < |order| :: order[i].id == i && order[i].last == if i + 1 == |order| then 1 else 0)
    && (forall i: nat, j: nat {:trigger order[i], order[j]} | j < |order| && i + 1 == j :: Links(order[i], order[j]))
    && order[0].initialPc == BOOT_ADDR && order[0].previousC == (0, 0)
    && order[|order| - 1].nextPc == END_PC_ADDR && order[|order| - 1].lastC == (0, 0)
  }

  predicate Links(s: Segment, next: Segment) { s.nextPc == next.initialPc && s.lastC == next.previousC }

  /** A chain, field by field. */
  ghost predicate ChainByField(order: seq<Segment>) {
    && |order| > 0 && order[0].initialPc == 0x1000 && order[0].previousC == (0, 0)
    && order[|order| - 1].nextPc == 0x1004 && order[|order| - 1].lastC == (0, 0) && order[|order| - 1].last == 1
    && (forall i: nat {:trigger order[i]} | i < |order| :: order[i].id == i)
    && (forall i: nat, j: nat {:trigger order[i], order[j]} | i + 1 == j < |order| ::
          order[i].last == 0 && order[j].initialPc == order[i].nextPc && order[j].previousC == order[i].lastC)
  }

  lemma ChainFields(order: seq<Segment>)
    requires Chain(order)
    ensures ChainByField(order)
  {
    forall i: nat, j: nat {:trigger order[i], order[j]} | i + 1 == j < |order|
      ensures order[i].last == 0 && order[j].initialPc == order[i].nextPc && order[j].previousC == order[i].lastC
    {
      assert Links(order[i], order[j]);
    }
  }

  lemma FieldsChain(order: seq<Segment>)
    requires ChainByField(order)
    ensures Chain(order)
  {
    forall i: nat {:trigger order[i]} | i < |order| ensures order[i].last == if i + 1 == |order| then 1 else 0 {
      if i + 1 < |order| { assert order[i + 1].initialPc == order[i].nextPc; }
    }
    forall i: nat, j: nat {:trigger order[i], order[j]} | j < |order| && i + 1 == j ensures Links(order[i], order[j]) { }
  }

  lemma ChainIs(order: seq<Segment>)
    ensures Chain(order) <==> ChainByField(order)
  {
    hide Chain, ChainByField;
    if Chain(order) { ChainFields(order); }
    if ChainByField(order) { FieldsChain(order); }
  }

  /** The same from segment `k` on. */
  ghost predicate Suffix(order: seq<Segment>, k: nat) {
    && k < |order|
    && (forall i: nat {:trigger order[i]} | k <= i < |order| :: order[i].id == i && order[i].last == if i + 1 == |order| then 1 else 0)
    && (forall i: nat, j: nat {:trigger order[i], order[j]} | k <= i && j < |order| && i + 1 == j :: Links(order[i], order[j]))
    && order[|order| - 1].nextPc == END_PC_ADDR && order[|order| - 1].lastC == (0, 0)
  }

  lemma NextOf(s: Segment)
    ensures s.last == 0 && s.id + 1 < P ==> Proved(s) == State(s.id + 1, 0, s.nextPc, s.lastC)
    ensures s.last == 1 ==> Proved(s) == State(0, 1, s.nextPc, s.lastC)
  {
    if s.last == 1 {
      assert (s.id + 1) * (1 - s.last) == 0;
    }
  }

  lemma {:induction false} SuffixIsChain(order: seq<Segment>, k: nat)
    requires |order| < P && Suffix(order, k)
    ensures ChainFrom(order[k..], Assumed(order[k]))
    decreases |order| - k
  {
    NextOf(order[k]);
    if k + 1 < |order| {
      SuffixIsChain(order, k + 1);
      assert order[k..][1..] == order[k + 1..];
      assert Links(order[k], order[k + 1]);
    }
  }

  lemma {:induction false} ChainIsSuffix(order: seq<Segment>, k: nat)
    requires |order| < P && k < |order| && order[k].id == k && ChainFrom(order[k..], Assumed(order[k]))
    ensures Suffix(order, k)
    decreases |order| - k
  {
    NextOf(order[k]);
    if k + 1 < |order| {
      assert order[k..][1..] == order[k + 1..];
      assert Proved(order[k]) == Assumed(order[k + 1]);
      ChainIsSuffix(order, k + 1);
    }
  }

  lemma ChainAgrees(order: seq<Segment>)
    requires |order| < P
    ensures Chain(order) <==> ChainFrom(order, BOOT)
  {
    if order != [] {
      assert order[0..] == order;
      if Chain(order) { SuffixIsChain(order, 0); }
      if ChainFrom(order, BOOT) { ChainIsSuffix(order, 0); }
    }
  }

  /** The bus cancels exactly when the segments are one chain: ids 0 to k - 1 once each,
      handed over state by state from boot to end. */
  lemma BusForcesOneChain(segs: seq<Segment>)
    requires |segs| + 1 < P
    ensures Cancels(segs) <==> exists order: seq<Segment> :: multiset(order) == multiset(segs) && Chain(order)
  {
    CancelsIsZero(segs);
    if Cancels(segs) {
      var order := Walk(segs, BOOT);
      assert |multiset(order)| == |order| && |multiset(segs)| == |segs|;
      ChainAgrees(order);
    }
    if exists order: seq<Segment> :: multiset(order) == multiset(segs) && Chain(order) {
      var order: seq<Segment> :| multiset(order) == multiset(segs) && Chain(order);
      assert |multiset(order)| == |order| && |multiset(segs)| == |segs|;
      ChainAgrees(order);
      ChainIsZero(order, BOOT);
      forall t: State ensures Net(segs, BOOT, t) == 0 {
        CountsOfMultiset(order, segs, t);
        assert Net(order, BOOT, t) == 0;
      }
    }
  }
}
