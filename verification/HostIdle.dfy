/** Device idle, charged to the host ranges that were running: each range keeps its own
    time less that of the ranges nested in it. */
module HostIdle {
  import opened Spans

  /** One range instance: `parentId` is empty for a range nested in none. */
  datatype RangeRow = RangeRow(name: string, span: Span, tid: string, rangeId: string, parentId: string)

  predicate ChildOf(c: RangeRow, id: string) { c.parentId != "" && c.parentId == id }

  type Pick = RangeRow -> bool

  function NestedIn(id: string): Pick { (c: RangeRow) => ChildOf(c, id) }

  /** The spans of the ranges picked. */
  function Picked(rows: seq<RangeRow>, pick: Pick): seq<Span> {
    if rows == [] then [] else (if pick(rows[0]) then [rows[0].span] else []) + Picked(rows[1..], pick)
  }

  /** The spans of the ranges nested directly in range `id`. */
  function Children(rows: seq<RangeRow>, id: string): seq<Span> { Picked(rows, NestedIn(id)) }

  ghost predicate ForwardRows(rows: seq<RangeRow>) {
    forall i: nat {:trigger rows[i]} | i < |rows| :: rows[i].span.0 <= rows[i].span.1
  }

  lemma {:induction false} PickedForward(rows: seq<RangeRow>, pick: Pick)
    requires ForwardRows(rows)
    ensures Forward(Picked(rows, pick))
    decreases |rows|
  {
    if rows != [] {
      var tail := rows[1..];
      assert forall i: nat {:trigger tail[i]} | i < |tail| :: tail[i] == rows[i + 1];
      PickedForward(tail, pick);
    }
  }

  /** A range's own time. */
  function Own(rows: seq<RangeRow>, row: RangeRow): set<int> {
    Range(row.span) - Times(Children(rows, row.rangeId))
  }

  /** Each thread's turns holding the client. */
  type Turns = map<string, seq<Span>>

  ghost predicate AreTurns(turns: Turns) {
    forall tid: string | tid in turns :: IsCover(turns[tid])
  }

  /** The turns of the thread; none is no time. */
  function TurnOf(turns: Turns, tid: string): seq<Span> {
    if tid in turns then turns[tid] else []
  }

  /** The idle inside the thread's turns. */
  function IdleIn(turns: Turns, idle: seq<Span>, tid: string): set<int> {
    Times(idle) * Times(TurnOf(turns, tid))
  }

  // ---------------------------------------------------------------------- the shares

  /** Idle under one range while its own thread held the client. */
  function Held(rows: seq<RangeRow>, turns: Turns, idle: seq<Span>, row: RangeRow): nat {
    |Own(rows, row) * IdleIn(turns, idle, row.tid)|
  }

  /** Idle under it while its thread did not. */
  function Other(rows: seq<RangeRow>, turns: Turns, idle: seq<Span>, row: RangeRow): nat {
    |Own(rows, row) * Times(idle) - IdleIn(turns, idle, row.tid)|
  }

  type Weight = RangeRow -> nat

  function HeldWeight(rows: seq<RangeRow>, turns: Turns, idle: seq<Span>): Weight {
    (row: RangeRow) => Held(rows, turns, idle, row)
  }

  function OtherWeight(rows: seq<RangeRow>, turns: Turns, idle: seq<Span>): Weight {
    (row: RangeRow) => Other(rows, turns, idle, row)
  }

  /** A weight over the ranges of one name, and over all ranges. */
  function SumNamed(some: seq<RangeRow>, name: string, w: Weight): nat {
    if some == [] then 0 else (if some[0].name == name then w(some[0]) else 0) + SumNamed(some[1..], name, w)
  }

  function Sum(some: seq<RangeRow>, w: Weight): nat {
    if some == [] then 0 else w(some[0]) + Sum(some[1..], w)
  }

  lemma {:induction false} SumNamedPush(some: seq<RangeRow>, row: RangeRow, name: string, w: Weight)
    ensures SumNamed(some + [row], name, w) == SumNamed(some, name, w) + if row.name == name then w(row) else 0
    decreases |some|
  {
    if some != [] {
      SumNamedPush(some[1..], row, name, w);
      assert (some + [row])[1..] == some[1..] + [row];
    }
  }

  function Get(share: map<string, int>, name: string): int {
    if name in share then share[name] else 0
  }

  function Add(share: map<string, int>, name: string, n: int): map<string, int> {
    share[name := Get(share, name) + n]
  }

  /** `share` is the weight, name by name. */
  ghost predicate Tallies(share: map<string, int>, some: seq<RangeRow>, w: Weight) {
    forall name: string :: Get(share, name) == SumNamed(some, name, w)
  }

  lemma NothingTallied(w: Weight)
    ensures Tallies(map[], [], w)
  {
  }

  lemma TallyStep(share: map<string, int>, some: seq<RangeRow>, row: RangeRow, w: Weight)
    requires Tallies(share, some, w)
    ensures Tallies(Add(share, row.name, w(row)), some + [row], w)
  {
    forall name: string ensures Get(Add(share, row.name, w(row)), name) == SumNamed(some + [row], name, w) {
      SumNamedPush(some, row, name, w);
      assert Get(share, name) == SumNamed(some, name, w);
    }
  }

  lemma OneSpan(span: Span)
    ensures Times([span]) == Range(span)
  {
  }

  lemma ShareSizes(rows: seq<RangeRow>, turns: Turns, idle: seq<Span>, row: RangeRow, hit: set<int>, held: set<int>)
    requires hit == Own(rows, row) * Times(idle) && held == hit * Times(TurnOf(turns, row.tid))
    ensures |held| == Held(rows, turns, idle, row) && |hit| - |held| == Other(rows, turns, idle, row)
  {
    hide Times, Own, TurnOf;
    var inTurn := IdleIn(turns, idle, row.tid);
    assert held == Own(rows, row) * inTurn;
    SizeOfParts(hit, inTurn);
    assert hit * inTurn == held;
  }

  /** One range's share, from the sweeps. */
  method ShareOf(rows: seq<RangeRow>, row: RangeRow, turns: Turns, idle: seq<Span>) returns (hit: int, held: int)
    requires ForwardRows(rows) && row.span.0 <= row.span.1 && AreTurns(turns) && IsCover(idle)
    ensures held == Held(rows, turns, idle, row)
    ensures hit - held == Other(rows, turns, idle, row)
  {
    hide Picked, Held, Other, Covered;
    PickedForward(rows, NestedIn(row.rangeId));
    var nested := Merge(Children(rows, row.rangeId));
    var self := Subtract([row.span], nested);
    OneSpan(row.span);
    var own := Merge(self);
    assert Times(own) == Own(rows, row);
    var idleHit := Intersect(own, idle);
    var idleHeld := Intersect(idleHit, TurnOf(turns, row.tid));
    CoveredIsSize(idleHit);
    CoveredIsSize(idleHeld);
    ShareSizes(rows, turns, idle, row, Times(idleHit), Times(idleHeld));
    hit, held := Covered(idleHit), Covered(idleHeld);
  }

  lemma {:induction false} PickedAt(rows: seq<RangeRow>, pick: Pick, t: int)
    ensures t in Times(Picked(rows, pick))
       <==> exists i: nat {:trigger rows[i]} :: i < |rows| && pick(rows[i]) && rows[i].span.0 <= t < rows[i].span.1
    decreases |rows|
  {
    if rows != [] {
      PickedAt(rows[1..], pick, t);
      PickedHead(rows, pick);
      if i: nat :| i < |rows| && pick(rows[i]) && rows[i].span.0 <= t < rows[i].span.1 {
        if i > 0 { assert rows[1..][i - 1] == rows[i]; }
      }
      if i: nat :| i < |rows| - 1 && pick(rows[1..][i]) && rows[1..][i].span.0 <= t < rows[1..][i].span.1 {
        assert rows[1..][i] == rows[i + 1];
      }
    }
  }

  /** In one of these spans. */
  ghost predicate In(spans: seq<Span>, t: int) { exists i: nat :: i < |spans| && spans[i].0 <= t < spans[i].1 }

  /** In the range, and in none of those that name it as their parent. */
  ghost predicate InOwn(rows: seq<RangeRow>, row: RangeRow, t: int) {
    && row.span.0 <= t < row.span.1
    && forall i: nat {:trigger rows[i]} | i < |rows| && rows[i].parentId == row.rangeId && row.rangeId != "" ::
         !(rows[i].span.0 <= t < rows[i].span.1)
  }

  lemma OwnAt(rows: seq<RangeRow>, row: RangeRow, t: int)
    ensures t in Own(rows, row) <==> InOwn(rows, row, t)
  {
    PickedAt(rows, NestedIn(row.rangeId), t);
  }

  /** A range's share, instant by instant: `held` are those of its own time that are idle
      and in its own thread's turns, `other` those that are idle and in none. */
  lemma ShareIs(rows: seq<RangeRow>, row: RangeRow, turns: Turns, idle: seq<Span>, held: set<int>, other: set<int>)
    requires forall t: int :: t in held <==> InOwn(rows, row, t) && In(idle, t) && row.tid in turns && In(turns[row.tid], t)
    requires forall t: int :: t in other <==> InOwn(rows, row, t) && In(idle, t) && !(row.tid in turns && In(turns[row.tid], t))
    ensures Held(rows, turns, idle, row) == |held| && Other(rows, turns, idle, row) == |other|
  {
    hide Own, Times, InOwn, In;
    var inTurn := IdleIn(turns, idle, row.tid);
    forall t: int
      ensures t in held <==> t in Own(rows, row) * inTurn
      ensures t in other <==> t in Own(rows, row) * Times(idle) - inTurn
    {
      ShareAt(rows, row, turns, idle, t);
    }
    assert held == Own(rows, row) * inTurn && other == Own(rows, row) * Times(idle) - inTurn;
  }

  lemma ShareAt(rows: seq<RangeRow>, row: RangeRow, turns: Turns, idle: seq<Span>, t: int)
    ensures t in Own(rows, row) <==> InOwn(rows, row, t)
    ensures t in Times(idle) <==> In(idle, t)
    ensures t in Times(TurnOf(turns, row.tid)) <==> row.tid in turns && In(turns[row.tid], t)
  {
    OwnAt(rows, row, t);
    InTimes(idle, t);
    InTimes(TurnOf(turns, row.tid), t);
  }

  /** `shares`: for every name, the idle its ranges hold, and what they saw besides. */
  method Shares(rows: seq<RangeRow>, turns: Turns, idle: seq<Span>) returns (holding: map<string, int>, other: map<string, int>)
    requires ForwardRows(rows) && AreTurns(turns) && IsCover(idle)
    ensures Tallies(holding, rows, HeldWeight(rows, turns, idle))
    ensures Tallies(other, rows, OtherWeight(rows, turns, idle))
  {
    hide IsCover, AreTurns, Tallies, Held, Other, Add;
    NothingTallied(HeldWeight(rows, turns, idle));
    NothingTallied(OtherWeight(rows, turns, idle));
    holding, other := map[], map[];
    assert rows[..0] == [];
    for i := 0 to |rows|
      invariant Tallies(holding, rows[..i], HeldWeight(rows, turns, idle))
      invariant Tallies(other, rows[..i], OtherWeight(rows, turns, idle))
    {
      var row := rows[i];
      var hit, held := ShareOf(rows, row, turns, idle);
      assert rows[..i + 1] == rows[..i] + [row];
      TallyStep(holding, rows[..i], row, HeldWeight(rows, turns, idle));
      TallyStep(other, rows[..i], row, OtherWeight(rows, turns, idle));
      holding := Add(holding, row.name, held);
      other := Add(other, row.name, hit - held);
    }
    assert rows[..|rows|] == rows;
  }

  // -------------------------------------------------- own times tile the outermost ranges

  /** Ranges that nest: ids are unique, a nested range is inside the one its parent id
      names, on the same thread, and ranges nested in one range are apart. */
  ghost predicate Nested(rows: seq<RangeRow>) {
    && (forall i: nat, j: nat {:trigger rows[i], rows[j]} | i < j < |rows| :: rows[i].rangeId != rows[j].rangeId)
    && (forall i: nat {:trigger rows[i]} | i < |rows| && rows[i].parentId != "" :: HasParent(rows, rows[i]))
    && (forall i: nat, j: nat {:trigger rows[i], rows[j]} | i < |rows| && j < |rows| && ChildOf(rows[j], rows[i].rangeId) ::
          Encloses(rows[i], rows[j]))
    && (forall i: nat, j: nat {:trigger rows[i], rows[j]} | i < j < |rows| && rows[i].parentId != "" && rows[i].parentId == rows[j].parentId ::
          Apart(rows[i], rows[j]))
  }

  ghost predicate HasParent(rows: seq<RangeRow>, c: RangeRow) {
    exists i: nat :: i < |rows| && rows[i].rangeId == c.parentId
  }

  predicate Encloses(parent: RangeRow, c: RangeRow) {
    c.tid == parent.tid && parent.span.0 <= c.span.0 && c.span.1 <= parent.span.1
  }

  predicate Apart(c: RangeRow, d: RangeRow) { Range(c.span) !! Range(d.span) }

  /** A range's whole time within the idle of its thread's turns. */
  function SpanWeight(turns: Turns, idle: seq<Span>): Weight {
    (row: RangeRow) => |Range(row.span) * IdleIn(turns, idle, row.tid)|
  }

  /** The weight of the ranges picked. */
  function PickedSum(some: seq<RangeRow>, pick: Pick, w: Weight): nat {
    if some == [] then 0 else (if pick(some[0]) then w(some[0]) else 0) + PickedSum(some[1..], pick, w)
  }

  function ChildSum(some: seq<RangeRow>, id: string, w: Weight): nat { PickedSum(some, NestedIn(id), w) }

  /** Over every range, the weight nested in it. */
  function NestedSum(parents: seq<RangeRow>, some: seq<RangeRow>, w: Weight): nat {
    if parents == [] then 0 else ChildSum(some, parents[0].rangeId, w) + NestedSum(parents[1..], some, w)
  }

  /** The weight of the ranges nested in some range, and of the outermost ones. */
  function InnerSum(some: seq<RangeRow>, w: Weight): nat {
    if some == [] then 0 else (if some[0].parentId != "" then w(some[0]) else 0) + InnerSum(some[1..], w)
  }

  function OuterSum(some: seq<RangeRow>, w: Weight): nat {
    if some == [] then 0 else (if some[0].parentId == "" then w(some[0]) else 0) + OuterSum(some[1..], w)
  }

  lemma {:induction false} InnerAndOuter(some: seq<RangeRow>, w: Weight)
    ensures Sum(some, w) == InnerSum(some, w) + OuterSum(some, w)
    decreases |some|
  {
    if some != [] { InnerAndOuter(some[1..], w); }
  }

  /** How many of `parents` have the id. */
  function CountId(parents: seq<RangeRow>, id: string): nat {
    if parents == [] then 0 else (if parents[0].rangeId == id then 1 else 0) + CountId(parents[1..], id)
  }

  lemma {:induction false} NestedSumEmpty(parents: seq<RangeRow>, w: Weight)
    ensures NestedSum(parents, [], w) == 0
    decreases |parents|
  {
    if parents != [] { NestedSumEmpty(parents[1..], w); }
  }

  lemma OneMore(n: nat, v: nat)
    ensures (1 + n) * v == v + n * v
  {
  }

  lemma {:induction false} NestedSumHead(parents: seq<RangeRow>, some: seq<RangeRow>, w: Weight)
    requires some != []
    ensures NestedSum(parents, some, w)
         == NestedSum(parents, some[1..], w) + if some[0].parentId != "" then CountId(parents, some[0].parentId) * w(some[0]) else 0
    decreases |parents|
  {
    if parents != [] {
      NestedSumHead(parents[1..], some, w);
      var n, v := CountId(parents[1..], some[0].parentId), w(some[0]);
      OneMore(n, v);
    }
  }

  /** Each nested range is counted once, under its one parent. */
  lemma {:induction false} NestedSumIsInner(parents: seq<RangeRow>, some: seq<RangeRow>, w: Weight)
    requires forall c: RangeRow | c in some && c.parentId != "" :: CountId(parents, c.parentId) == 1
    ensures NestedSum(parents, some, w) == InnerSum(some, w)
    decreases |some|
  {
    if some == [] {
      NestedSumEmpty(parents, w);
    } else {
      NestedSumHead(parents, some, w);
      assert some[0] in some;
      NestedSumIsInner(parents, some[1..], w);
    }
  }

  lemma {:induction false} CountNone(parents: seq<RangeRow>, id: string)
    requires forall i: nat {:trigger parents[i]} | i < |parents| :: parents[i].rangeId != id
    ensures CountId(parents, id) == 0
    decreases |parents|
  {
    if parents != [] {
      var tail := parents[1..];
      assert forall i: nat {:trigger tail[i]} | i < |tail| :: tail[i] == parents[i + 1];
      CountNone(tail, id);
    }
  }

  ghost predicate UniqueIds(rows: seq<RangeRow>) {
    forall i: nat, j: nat {:trigger rows[i], rows[j]} | i < j < |rows| :: rows[i].rangeId != rows[j].rangeId
  }

  lemma {:induction false} CountOne(rows: seq<RangeRow>, k: nat)
    requires UniqueIds(rows) && k < |rows|
    ensures CountId(rows, rows[k].rangeId) == 1
    decreases k
  {
    var tail := rows[1..];
    assert forall i: nat {:trigger tail[i]} | i < |tail| :: tail[i] == rows[i + 1];
    if k == 0 { CountNone(tail, rows[0].rangeId); } else { CountOne(tail, k - 1); }
  }

  /** The ranges picked are apart, and on one thread. */
  ghost predicate PickedApart(rows: seq<RangeRow>, pick: Pick, tid: string) {
    && (forall i: nat {:trigger rows[i]} | i < |rows| && pick(rows[i]) :: rows[i].tid == tid)
    && (forall i: nat, j: nat {:trigger rows[i], rows[j]} | i < j < |rows| && pick(rows[i]) && pick(rows[j]) :: Apart(rows[i], rows[j]))
  }

  lemma {:induction false} ApartFromAll(s: Span, rows: seq<RangeRow>, pick: Pick)
    requires forall i: nat {:trigger rows[i]} | i < |rows| && pick(rows[i]) :: Range(s) !! Range(rows[i].span)
    ensures Range(s) !! Times(Picked(rows, pick))
    decreases |rows|
  {
    if rows != [] {
      var tail := rows[1..];
      assert forall i: nat {:trigger tail[i]} | i < |tail| :: tail[i] == rows[i + 1];
      ApartFromAll(s, tail, pick);
      PickedHead(rows, pick);
    }
  }

  lemma PickedHead(rows: seq<RangeRow>, pick: Pick)
    requires rows != []
    ensures Times(Picked(rows, pick)) == (if pick(rows[0]) then Range(rows[0].span) else {}) + Times(Picked(rows[1..], pick))
  {
    if pick(rows[0]) {
      TimesJoin([rows[0].span], Picked(rows[1..], pick));
      assert Times([rows[0].span]) == Range(rows[0].span);
    } else {
      assert Picked(rows, pick) == Picked(rows[1..], pick);
    }
  }

  lemma PickedApartTail(rows: seq<RangeRow>, pick: Pick, tid: string)
    requires rows != [] && PickedApart(rows, pick, tid)
    ensures PickedApart(rows[1..], pick, tid)
    ensures pick(rows[0]) ==> rows[0].tid == tid && Range(rows[0].span) !! Times(Picked(rows[1..], pick))
  {
    var tail := rows[1..];
    assert forall i: nat {:trigger tail[i]} | i < |tail| :: tail[i] == rows[i + 1];
    if pick(rows[0]) {
      assert forall i: nat {:trigger tail[i]} | i < |tail| && pick(tail[i]) :: Apart(rows[0], tail[i]);
      ApartFromAll(rows[0].span, tail, pick);
    }
  }

  /** Ranges that are apart add up to the time they hold together. */
  lemma {:induction false} PickedAddsUp(rows: seq<RangeRow>, pick: Pick, tid: string, turns: Turns, idle: seq<Span>)
    requires PickedApart(rows, pick, tid)
    ensures PickedSum(rows, pick, SpanWeight(turns, idle)) == |Times(Picked(rows, pick)) * IdleIn(turns, idle, tid)|
    decreases |rows|
  {
    if rows != [] {
      PickedApartTail(rows, pick, tid);
      PickedAddsUp(rows[1..], pick, tid, turns, idle);
      PickedHead(rows, pick);
      SizeOfCut(if pick(rows[0]) then Range(rows[0].span) else {}, Times(Picked(rows[1..], pick)), IdleIn(turns, idle, tid));
    } else {
      assert Times(Picked(rows, pick)) == {};
    }
  }

  lemma SizeOfCut(a: set<int>, b: set<int>, w: set<int>)
    requires a !! b
    ensures |(a + b) * w| == |a * w| + |b * w|
  {
    SizeOfUnion(a * w, b * w);
    assert (a + b) * w == a * w + b * w;
  }

  lemma NestedApart(rows: seq<RangeRow>, k: nat)
    requires Nested(rows) && k < |rows|
    ensures PickedApart(rows, NestedIn(rows[k].rangeId), rows[k].tid)
  {
    var pick := NestedIn(rows[k].rangeId);
    forall i: nat {:trigger rows[i]} | i < |rows| && pick(rows[i]) ensures rows[i].tid == rows[k].tid {
      assert Encloses(rows[k], rows[i]);
    }
    forall i: nat, j: nat {:trigger rows[i], rows[j]} | i < j < |rows| && pick(rows[i]) && pick(rows[j]) ensures Apart(rows[i], rows[j]) {
      assert rows[i].parentId != "" && rows[i].parentId == rows[j].parentId;
    }
  }

  lemma {:induction false} PickedWithin(rows: seq<RangeRow>, pick: Pick, s: Span)
    requires forall i: nat {:trigger rows[i]} | i < |rows| && pick(rows[i]) :: s.0 <= rows[i].span.0 && rows[i].span.1 <= s.1
    ensures Times(Picked(rows, pick)) <= Range(s)
    decreases |rows|
  {
    if rows != [] {
      var tail := rows[1..];
      assert forall i: nat {:trigger tail[i]} | i < |tail| :: tail[i] == rows[i + 1];
      PickedWithin(tail, pick, s);
      PickedHead(rows, pick);
    }
  }

  lemma ChildrenWithin(rows: seq<RangeRow>, k: nat)
    requires Nested(rows) && k < |rows|
    ensures Times(Children(rows, rows[k].rangeId)) <= Range(rows[k].span)
  {
    var pick := NestedIn(rows[k].rangeId);
    forall i: nat {:trigger rows[i]} | i < |rows| && pick(rows[i])
      ensures rows[k].span.0 <= rows[i].span.0 && rows[i].span.1 <= rows[k].span.1
    {
      assert Encloses(rows[k], rows[i]);
    }
    PickedWithin(rows, pick, rows[k].span);
  }

  lemma CutSize(whole: set<int>, part: set<int>, w: set<int>)
    requires part <= whole
    ensures |(whole - part) * w| + |part * w| == |whole * w|
  {
    SizeOfCut(whole - part, part, w);
    assert (whole - part) + part == whole;
  }

  /** What a range holds itself and what its nested ranges span make its span. */
  lemma HeldAndNested(rows: seq<RangeRow>, k: nat, turns: Turns, idle: seq<Span>)
    requires Nested(rows) && k < |rows|
    ensures Held(rows, turns, idle, rows[k]) + ChildSum(rows, rows[k].rangeId, SpanWeight(turns, idle))
         == SpanWeight(turns, idle)(rows[k])
  {
    hide Nested, PickedApart;
    var row := rows[k];
    NestedApart(rows, k);
    PickedAddsUp(rows, NestedIn(row.rangeId), row.tid, turns, idle);
    ChildrenWithin(rows, k);
    CutSize(Range(row.span), Times(Children(rows, row.rangeId)), IdleIn(turns, idle, row.tid));
  }

  lemma {:induction false} HeldTelescopes(rows: seq<RangeRow>, n: nat, turns: Turns, idle: seq<Span>)
    requires Nested(rows) && n <= |rows|
    ensures Sum(rows[n..], HeldWeight(rows, turns, idle)) + NestedSum(rows[n..], rows, SpanWeight(turns, idle))
         == Sum(rows[n..], SpanWeight(turns, idle))
    decreases |rows| - n
  {
    if n < |rows| {
      HeldTelescopes(rows, n + 1, turns, idle);
      HeldAndNested(rows, n, turns, idle);
      assert rows[n..][1..] == rows[n + 1..];
    }
  }

  lemma OneParent(rows: seq<RangeRow>, c: RangeRow)
    requires Nested(rows) && c in rows && c.parentId != ""
    ensures CountId(rows, c.parentId) == 1
  {
    var j: nat :| j < |rows| && rows[j] == c;
    assert HasParent(rows, rows[j]);
    var i: nat :| i < |rows| && rows[i].rangeId == c.parentId;
    CountOne(rows, i);
  }

  /** Over ranges that nest, what is charged is what the outermost ranges span. */
  lemma ChargesTheOutermost(rows: seq<RangeRow>, turns: Turns, idle: seq<Span>)
    requires Nested(rows)
    ensures Sum(rows, HeldWeight(rows, turns, idle)) == OuterSum(rows, SpanWeight(turns, idle))
  {
    hide Nested, SpanWeight, HeldWeight;
    HeldTelescopes(rows, 0, turns, idle);
    assert rows[0..] == rows;
    forall c: RangeRow | c in rows && c.parentId != "" ensures CountId(rows, c.parentId) == 1 { OneParent(rows, c); }
    NestedSumIsInner(rows, rows, SpanWeight(turns, idle));
    InnerAndOuter(rows, SpanWeight(turns, idle));
  }

  // ------------------------------------------------------------------- thread by thread

  function OutermostOn(tid: string): Pick { (c: RangeRow) => c.parentId == "" && c.tid == tid }

  ghost predicate Distinct(names: seq<string>) {
    forall i: nat, j: nat {:trigger names[i], names[j]} | i < j < |names| :: names[i] != names[j]
  }

  /** Each thread's outermost ranges are apart and cover the idle in its turns. */
  ghost predicate Tile(rows: seq<RangeRow>, turns: Turns, idle: seq<Span>) {
    forall tid: string | tid in turns ::
      PickedApart(rows, OutermostOn(tid), tid) && IdleIn(turns, idle, tid) <= Times(Picked(rows, OutermostOn(tid)))
  }

  /** The outermost ranges' weight, thread by thread. */
  function ByThread(rows: seq<RangeRow>, tids: seq<string>, w: Weight): nat {
    if tids == [] then 0 else PickedSum(rows, OutermostOn(tids[0]), w) + ByThread(rows, tids[1..], w)
  }

  lemma {:induction false} ByThreadEmpty(tids: seq<string>, w: Weight)
    ensures ByThread([], tids, w) == 0
    decreases |tids|
  {
    if tids != [] { ByThreadEmpty(tids[1..], w); }
  }

  lemma DistinctTail(tids: seq<string>)
    requires Distinct(tids) && tids != []
    ensures Distinct(tids[1..]) && tids[0] !in tids[1..]
  {
    var tail := tids[1..];
    assert forall i: nat {:trigger tail[i]} | i < |tail| :: tail[i] == tids[i + 1];
  }

  lemma {:induction false} ByThreadHead(rows: seq<RangeRow>, tids: seq<string>, w: Weight)
    requires rows != [] && Distinct(tids)
    ensures ByThread(rows, tids, w)
         == ByThread(rows[1..], tids, w) + if rows[0].parentId == "" && rows[0].tid in tids then w(rows[0]) else 0
    decreases |tids|
  {
    if tids != [] {
      DistinctTail(tids);
      ByThreadHead(rows, tids[1..], w);
    }
  }

  lemma {:induction false} OuterByThread(rows: seq<RangeRow>, tids: seq<string>, w: Weight)
    requires Distinct(tids) && forall c: RangeRow | c in rows && c.tid !in tids :: w(c) == 0
    ensures OuterSum(rows, w) == ByThread(rows, tids, w)
    decreases |rows|
  {
    if rows == [] {
      ByThreadEmpty(tids, w);
    } else {
      ByThreadHead(rows, tids, w);
      assert rows[0] in rows;
      OuterByThread(rows[1..], tids, w);
    }
  }

  /** The idle in each thread's turns, added up. */
  function IdleByThread(turns: Turns, idle: seq<Span>, tids: seq<string>): nat {
    if tids == [] then 0 else |IdleIn(turns, idle, tids[0])| + IdleByThread(turns, idle, tids[1..])
  }

  lemma {:induction false} ThreadsAddUp(rows: seq<RangeRow>, turns: Turns, idle: seq<Span>, tids: seq<string>)
    requires Tile(rows, turns, idle) && forall tid: string | tid in tids :: tid in turns
    ensures ByThread(rows, tids, SpanWeight(turns, idle)) == IdleByThread(turns, idle, tids)
    decreases |tids|
  {
    if tids != [] {
      var tid := tids[0];
      assert tid in turns;
      PickedAddsUp(rows, OutermostOn(tid), tid, turns, idle);
      assert Times(Picked(rows, OutermostOn(tid))) * IdleIn(turns, idle, tid) == IdleIn(turns, idle, tid);
      ThreadsAddUp(rows, turns, idle, tids[1..]);
    }
  }

  /** The listing of the threads that hold turns. */
  ghost predicate Lists(tids: seq<string>, turns: Turns) {
    Distinct(tids) && forall tid: string :: tid in tids <==> tid in turns
  }

  /** What is charged to holders is the idle inside turns, thread by thread. */
  lemma ChargedIsIdleInTurns(rows: seq<RangeRow>, turns: Turns, idle: seq<Span>, tids: seq<string>)
    requires Nested(rows) && Tile(rows, turns, idle) && Lists(tids, turns)
    ensures Sum(rows, HeldWeight(rows, turns, idle)) == IdleByThread(turns, idle, tids)
  {
    ChargesTheOutermost(rows, turns, idle);
    forall c: RangeRow | c in rows && c.tid !in tids ensures SpanWeight(turns, idle)(c) == 0 {
      assert TurnOf(turns, c.tid) == [];
      assert IdleIn(turns, idle, c.tid) == {};
    }
    OuterByThread(rows, tids, SpanWeight(turns, idle));
    ThreadsAddUp(rows, turns, idle, tids);
  }

  // --------------------------------------------------------------- inside, counted once

  /** The idle inside some turn, counted once. */
  function IdleInside(turns: Turns, idle: seq<Span>, tids: seq<string>): set<int> {
    if tids == [] then {} else IdleIn(turns, idle, tids[0]) + IdleInside(turns, idle, tids[1..])
  }

  /** No idle instant is inside two threads' turns. */
  ghost predicate TurnsApart(turns: Turns, idle: seq<Span>, tids: seq<string>) {
    tids != [] ==> IdleIn(turns, idle, tids[0]) !! IdleInside(turns, idle, tids[1..]) && TurnsApart(turns, idle, tids[1..])
  }

  lemma UnionSize(a: set<int>, b: set<int>)
    ensures |a + b| <= |a| + |b| && (|a + b| == |a| + |b| <==> a !! b)
  {
    SizeOfUnion(a - b, b);
    assert a + b == (a - b) + b;
    SizeOfParts(a, b);
    assert |a * b| == 0 <==> a * b == {};
  }

  lemma {:induction false} CountedTwice(turns: Turns, idle: seq<Span>, tids: seq<string>)
    ensures |IdleInside(turns, idle, tids)| <= IdleByThread(turns, idle, tids)
    ensures |IdleInside(turns, idle, tids)| == IdleByThread(turns, idle, tids) <==> TurnsApart(turns, idle, tids)
    decreases |tids|
  {
    if tids != [] {
      CountedTwice(turns, idle, tids[1..]);
      UnionSize(IdleIn(turns, idle, tids[0]), IdleInside(turns, idle, tids[1..]));
    }
  }

  /** The spans of every turn. */
  function AllTurns(turns: Turns, tids: seq<string>): seq<Span> {
    if tids == [] then [] else TurnOf(turns, tids[0]) + AllTurns(turns, tids[1..])
  }

  lemma {:induction false} InsideIsUnion(turns: Turns, idle: seq<Span>, tids: seq<string>)
    ensures IdleInside(turns, idle, tids) == Times(idle) * Times(AllTurns(turns, tids))
    decreases |tids|
  {
    if tids != [] {
      InsideIsUnion(turns, idle, tids[1..]);
      TimesJoin(TurnOf(turns, tids[0]), AllTurns(turns, tids[1..]));
    }
  }

  lemma {:induction false} AllTurnsForward(turns: Turns, tids: seq<string>)
    requires AreTurns(turns)
    ensures Forward(AllTurns(turns, tids))
    decreases |tids|
  {
    if tids != [] {
      AllTurnsForward(turns, tids[1..]);
      assert IsCover(TurnOf(turns, tids[0]));
    }
  }

  /** The report's split: idle inside turns, and what the ranges are charged with it. The
      charges are never less, and they are a split exactly when no idle instant is inside
      two turns. */
  method Report(rows: seq<RangeRow>, turns: Turns, idle: seq<Span>, tids: seq<string>) returns (inside: int, free: int, holding: map<string, int>)
    requires ForwardRows(rows) && AreTurns(turns) && IsCover(idle) && Lists(tids, turns)
    ensures inside + free == Covered(idle) && free == |Times(idle) - Times(AllTurns(turns, tids))|
    ensures Tallies(holding, rows, HeldWeight(rows, turns, idle))
    ensures Nested(rows) && Tile(rows, turns, idle) ==>
              var held := Sum(rows, HeldWeight(rows, turns, idle));
              inside <= held && (inside == held <==> TurnsApart(turns, idle, tids))
  {
    AllTurnsForward(turns, tids);
    var union := Merge(AllTurns(turns, tids));
    var both := Intersect(idle, union);
    CoveredIsSize(both);
    CoveredIsSize(idle);
    inside := Covered(both);
    free := Covered(idle) - inside;
    SizeOfParts(Times(idle), Times(AllTurns(turns, tids)));
    InsideIsUnion(turns, idle, tids);
    CountedTwice(turns, idle, tids);
    var other;
    holding, other := Shares(rows, turns, idle);
    if Nested(rows) && Tile(rows, turns, idle) { ChargedIsIdleInTurns(rows, turns, idle, tids); }
  }

  // ---------------------------------------------------------------------- name by name

  /** A tally's values over the names listed. */
  function Total(share: map<string, int>, names: seq<string>): int {
    if names == [] then 0 else Get(share, names[0]) + Total(share, names[1..])
  }

  function ByName(rows: seq<RangeRow>, names: seq<string>, w: Weight): nat {
    if names == [] then 0 else SumNamed(rows, names[0], w) + ByName(rows, names[1..], w)
  }

  lemma {:induction false} ByNameEmpty(names: seq<string>, w: Weight)
    ensures ByName([], names, w) == 0
    decreases |names|
  {
    if names != [] { ByNameEmpty(names[1..], w); }
  }

  lemma {:induction false} ByNameHead(rows: seq<RangeRow>, names: seq<string>, w: Weight)
    requires rows != [] && Distinct(names)
    ensures ByName(rows, names, w) == ByName(rows[1..], names, w) + if rows[0].name in names then w(rows[0]) else 0
    decreases |names|
  {
    if names != [] {
      DistinctTail(names);
      ByNameHead(rows, names[1..], w);
    }
  }

  lemma {:induction false} SumByName(rows: seq<RangeRow>, names: seq<string>, w: Weight)
    requires Distinct(names) && forall c: RangeRow | c in rows :: c.name in names
    ensures ByName(rows, names, w) == Sum(rows, w)
    decreases |rows|
  {
    if rows == [] {
      ByNameEmpty(names, w);
    } else {
      ByNameHead(rows, names, w);
      assert rows[0] in rows;
      SumByName(rows[1..], names, w);
    }
  }

  lemma {:induction false} TotalIsByName(share: map<string, int>, rows: seq<RangeRow>, names: seq<string>, w: Weight)
    requires Tallies(share, rows, w)
    ensures Total(share, names) == ByName(rows, names, w)
    decreases |names|
  {
    if names != [] {
      TotalIsByName(share, rows, names[1..], w);
      assert Get(share, names[0]) == SumNamed(rows, names[0], w);
    }
  }

  /** The printed shares add up to what the ranges were charged. */
  lemma SharesAddUp(share: map<string, int>, rows: seq<RangeRow>, names: seq<string>, w: Weight)
    requires Tallies(share, rows, w) && Distinct(names) && forall c: RangeRow | c in rows :: c.name in names
    ensures Total(share, names) == Sum(rows, w)
  {
    TotalIsByName(share, rows, names, w);
    SumByName(rows, names, w);
  }
}
