/** Half-open spans of time, and the sweeps over sorted covers of them. */
module Spans {

  type Span = (int, int)

  function Least(a: int, b: int): int { if a < b then a else b }

  function Most(a: int, b: int): int { if a < b then b else a }

  // -------------------------------------------------------------------- what spans hold

  /** The instants of a span. */
  function Range(s: Span): set<int> { set t: int {:trigger Inside(t, s)} | s.0 <= t < s.1 && Inside(t, s) }

  predicate Inside(t: int, s: Span) { s.0 <= t < s.1 }

  function Times(spans: seq<Span>): set<int> {
    if spans == [] then {} else Range(spans[0]) + Times(spans[1..])
  }

  /** No span ends before it starts. */
  ghost predicate Forward(spans: seq<Span>) {
    forall i: nat {:trigger spans[i]} | i < |spans| :: spans[i].0 <= spans[i].1
  }

  /** Sorted and non-overlapping. */
  ghost predicate IsCover(spans: seq<Span>) {
    && Forward(spans)
    && forall i: nat, j: nat {:trigger spans[i], spans[j]} | i < j < |spans| :: spans[i].1 <= spans[j].0
  }

  function Covered(spans: seq<Span>): int {
    if spans == [] then 0 else spans[0].1 - spans[0].0 + Covered(spans[1..])
  }

  lemma {:induction false} TimesJoin(a: seq<Span>, b: seq<Span>)
    ensures Times(a + b) == Times(a) + Times(b)
    decreases |a|
  {
    if a == [] {
      assert a + b == b;
    } else {
      assert (a + b)[1..] == a[1..] + b;
      TimesJoin(a[1..], b);
    }
  }

  lemma TimesPush(out: seq<Span>, s: Span)
    ensures Times(out + [s]) == Times(out) + Range(s)
  {
    TimesJoin(out, [s]);
  }

  lemma {:induction false} InTimes(spans: seq<Span>, t: int)
    ensures t in Times(spans) <==> exists i: nat :: i < |spans| && spans[i].0 <= t < spans[i].1
    decreases |spans|
  {
    if spans != [] {
      InTimes(spans[1..], t);
      if t in Times(spans[1..]) {
        var i: nat :| i < |spans| - 1 && spans[1..][i].0 <= t < spans[1..][i].1;
        assert spans[i + 1].0 <= t < spans[i + 1].1;
      }
      if i: nat :| i < |spans| && spans[i].0 <= t < spans[i].1 {
        if i > 0 { assert spans[1..][i - 1].0 <= t < spans[1..][i - 1].1; }
      }
    }
  }

  /** Nothing before the first span, when every start is at or after `lo`. */
  lemma TimesFrom(spans: seq<Span>, lo: int)
    requires forall i: nat {:trigger spans[i]} | i < |spans| :: lo <= spans[i].0
    ensures forall t: int | t < lo :: t !in Times(spans)
  {
    forall t: int | t < lo ensures t !in Times(spans) { InTimes(spans, t); }
  }

  lemma TimesUpTo(spans: seq<Span>, hi: int)
    requires forall i: nat {:trigger spans[i]} | i < |spans| :: spans[i].1 <= hi
    ensures forall t: int | hi <= t :: t !in Times(spans)
  {
    forall t: int | hi <= t ensures t !in Times(spans) { InTimes(spans, t); }
  }

  lemma {:induction false} RangeSize(lo: int, hi: int)
    requires lo <= hi
    ensures |Range((lo, hi))| == hi - lo
    decreases hi - lo
  {
    if lo < hi {
      RangeSize(lo + 1, hi);
      assert Range((lo, hi)) == {lo} + Range((lo + 1, hi));
    } else {
      assert Range((lo, hi)) == {};
    }
  }

  lemma TailCover(spans: seq<Span>)
    requires IsCover(spans) && spans != []
    ensures IsCover(spans[1..]) && Range(spans[0]) !! Times(spans[1..])
  {
    var tail := spans[1..];
    assert forall i: nat {:trigger tail[i]} | i < |tail| :: tail[i] == spans[i + 1];
    TimesFrom(tail, spans[0].1);
  }

  /** The length of a cover is how many instants it holds. */
  lemma {:induction false} CoveredIsSize(spans: seq<Span>)
    requires IsCover(spans)
    ensures Covered(spans) == |Times(spans)|
    decreases |spans|
  {
    if spans != [] {
      TailCover(spans);
      CoveredIsSize(spans[1..]);
      RangeSize(spans[0].0, spans[0].1);
      SizeOfUnion(Range(spans[0]), Times(spans[1..]));
    }
  }

  lemma SizeOfUnion(a: set<int>, b: set<int>)
    requires a !! b
    ensures |a + b| == |a| + |b|
  {
  }

  lemma SizeOfParts(a: set<int>, b: set<int>)
    ensures |a| == |a * b| + |a - b|
  {
    SizeOfUnion(a * b, a - b);
    assert a == a * b + (a - b);
  }

  // ------------------------------------------------------------------------- merge

  /** Sorted by start, then by end. */
  function Insert(s: Span, sorted: seq<Span>): seq<Span> {
    if sorted == [] then [s]
    else if s.0 < sorted[0].0 || (s.0 == sorted[0].0 && s.1 <= sorted[0].1) then [s] + sorted
    else [sorted[0]] + Insert(s, sorted[1..])
  }

  function Sorted(spans: seq<Span>): seq<Span> {
    if spans == [] then [] else Insert(spans[0], Sorted(spans[1..]))
  }

  ghost predicate InOrder(spans: seq<Span>) {
    forall i: nat, j: nat {:trigger spans[i], spans[j]} | i < j < |spans| :: spans[i].0 <= spans[j].0
  }

  lemma {:induction false} InsertKeeps(s: Span, sorted: seq<Span>)
    requires InOrder(sorted) && Forward(sorted) && s.0 <= s.1
    ensures InOrder(Insert(s, sorted)) && Forward(Insert(s, sorted)) && Insert(s, sorted) != []
    ensures Insert(s, sorted)[0].0 == if sorted != [] && sorted[0].0 < s.0 then sorted[0].0 else s.0
    ensures Times(Insert(s, sorted)) == Range(s) + Times(sorted)
    decreases |sorted|
  {
    if sorted != [] && !(s.0 < sorted[0].0 || (s.0 == sorted[0].0 && s.1 <= sorted[0].1)) {
      InsertKeeps(s, sorted[1..]);
      PutFirst(sorted[0], Insert(s, sorted[1..]));
    } else {
      PutFirst(s, sorted);
    }
  }

  lemma PutFirst(s: Span, rest: seq<Span>)
    requires InOrder(rest) && Forward(rest) && s.0 <= s.1 && (rest != [] ==> s.0 <= rest[0].0)
    ensures InOrder([s] + rest) && Forward([s] + rest) && Times([s] + rest) == Range(s) + Times(rest)
  {
    assert ([s] + rest)[1..] == rest;
  }

  lemma {:induction false} SortedKeeps(spans: seq<Span>)
    requires Forward(spans)
    ensures InOrder(Sorted(spans)) && Forward(Sorted(spans)) && Times(Sorted(spans)) == Times(spans)
    decreases |spans|
  {
    if spans != [] {
      assert Forward(spans[1..]);
      SortedKeeps(spans[1..]);
      InsertKeeps(spans[0], Sorted(spans[1..]));
    }
  }

  /** Widening the last span over one that starts inside it or where it ends. */
  lemma Widen(out: seq<Span>, s: Span)
    requires out != [] && IsCover(out) && out[|out| - 1].0 <= s.0 <= out[|out| - 1].1 && s.0 <= s.1
    ensures var last := out[|out| - 1];
            var wide := out[|out| - 1 := (last.0, Most(last.1, s.1))];
            IsCover(wide) && Times(wide) == Times(out) + Range(s)
  {
    var last := out[|out| - 1];
    var init := out[..|out| - 1];
    var w := (last.0, Most(last.1, s.1));
    assert out == init + [last] && out[|out| - 1 := w] == init + [w];
    TimesPush(init, last);
    TimesPush(init, w);
  }

  lemma Append(out: seq<Span>, s: Span)
    requires IsCover(out) && s.0 <= s.1 && (out != [] ==> out[|out| - 1].1 <= s.0)
    ensures IsCover(out + [s]) && Times(out + [s]) == Times(out) + Range(s)
  {
    TimesPush(out, s);
  }

  /** The merge so far: the cover of the spans taken, with gaps between its own. */
  ghost predicate Merged(sorted: seq<Span>, k: nat, out: seq<Span>)
    requires k <= |sorted|
  {
    && IsCover(out) && Gapped(out) && Times(out) == Times(sorted[..k])
    && (out != [] ==> k > 0 && out[|out| - 1].0 <= sorted[k - 1].0)
  }

  /** No two spans touch. */
  ghost predicate Gapped(out: seq<Span>) {
    forall i: nat, j: nat {:trigger out[i], out[j]} | i < j < |out| :: out[i].1 < out[j].0
  }

  lemma MergedStep(sorted: seq<Span>, k: nat, out: seq<Span>)
    requires k < |sorted| && InOrder(sorted) && Forward(sorted) && Merged(sorted, k, out)
    ensures var s := sorted[k];
            Merged(sorted, k + 1, if out != [] && s.0 <= out[|out| - 1].1
                                  then out[|out| - 1 := (out[|out| - 1].0, Most(out[|out| - 1].1, s.1))] else out + [s])
  {
    assert sorted[..k + 1] == sorted[..k] + [sorted[k]];
    TimesPush(sorted[..k], sorted[k]);
    if out != [] && sorted[k].0 <= out[|out| - 1].1 {
      Widen(out, sorted[k]);
    } else {
      Append(out, sorted[k]);
    }
  }

  /** The union, as a cover. */
  method Merge(spans: seq<Span>) returns (out: seq<Span>)
    requires Forward(spans)
    ensures IsCover(out) && Gapped(out) && Times(out) == Times(spans)
  {
    out := [];
    var sorted := Sorted(spans);
    SortedKeeps(spans);
    for k := 0 to |sorted|
      invariant Merged(sorted, k, out)
    {
      hide Merged;
      MergedStep(sorted, k, out);
      var start, end := sorted[k].0, sorted[k].1;
      if out != [] && start <= out[|out| - 1].1 {
        out := out[|out| - 1 := (out[|out| - 1].0, Most(out[|out| - 1].1, end))];
      } else {
        out := out + [(start, end)];
      }
    }
    assert sorted[..|sorted|] == sorted;
  }

  // ---------------------------------------------------------------------- intersect

  /** Of two covers whose first spans end at `a[0].1 <= b[0].1`, the first of `a` meets
      only the first of `b`. */
  lemma MeetFirst(a: seq<Span>, b: seq<Span>)
    requires a != [] && b != [] && IsCover(a) && IsCover(b) && a[0].1 <= b[0].1
    ensures Times(a) * Times(b)
         == Range((Most(a[0].0, b[0].0), Least(a[0].1, b[0].1))) + Times(a[1..]) * Times(b)
  {
    TailCover(b);
    var tail := b[1..];
    assert forall i: nat {:trigger tail[i]} | i < |tail| :: tail[i] == b[i + 1];
    TimesFrom(tail, b[0].1);
    assert Range(a[0]) * Times(b) == Range((Most(a[0].0, b[0].0), Least(a[0].1, b[0].1)));
    assert Times(a) == Range(a[0]) + Times(a[1..]);
  }

  lemma DropCover(spans: seq<Span>, i: nat)
    requires IsCover(spans) && i <= |spans|
    ensures IsCover(spans[i..])
  {
    var tail := spans[i..];
    assert forall k: nat {:trigger tail[k]} | k < |tail| :: tail[k] == spans[i + k];
  }

  /** What the spans at the two cursors share. */
  function Meeting(s: Span, t: Span): Span { (Most(s.0, t.0), Least(s.1, t.1)) }

  /** What is left past the two cursors. */
  function Left(a: seq<Span>, b: seq<Span>, i: nat, j: nat): set<int>
    requires i <= |a| && j <= |b|
  {
    Times(a[i..]) * Times(b[j..])
  }

  lemma SweepA(a: seq<Span>, b: seq<Span>, i: nat, j: nat)
    requires IsCover(a) && IsCover(b) && i < |a| && j < |b| && a[i].1 < b[j].1
    ensures Left(a, b, i, j) == Range(Meeting(a[i], b[j])) + Left(a, b, i + 1, j)
  {
    DropCover(a, i);
    DropCover(b, j);
    assert a[i..][1..] == a[i + 1..];
    MeetFirst(a[i..], b[j..]);
  }

  lemma SweepB(a: seq<Span>, b: seq<Span>, i: nat, j: nat)
    requires IsCover(a) && IsCover(b) && i < |a| && j < |b| && b[j].1 <= a[i].1
    ensures Left(a, b, i, j) == Range(Meeting(a[i], b[j])) + Left(a, b, i, j + 1)
  {
    DropCover(a, i);
    DropCover(b, j);
    assert b[j..][1..] == b[j + 1..];
    MeetFirst(b[j..], a[i..]);
    assert Meeting(a[i], b[j]) == Meeting(b[j], a[i]);
    assert Times(b[j..]) * Times(a[i..]) == Left(a, b, i, j);
    assert Times(b[j + 1..]) * Times(a[i..]) == Left(a, b, i, j + 1);
  }

  /** The sweep so far: what is out, and what is left, make the intersection. */
  ghost predicate Swept(a: seq<Span>, b: seq<Span>, i: nat, j: nat, out: seq<Span>)
    requires i <= |a| && j <= |b|
  {
    && IsCover(out)
    && (i < |a| && j < |b| && out != [] ==> out[|out| - 1].1 <= Meeting(a[i], b[j]).0)
    && Times(a) * Times(b) == Times(out) + Left(a, b, i, j)
  }

  lemma SweptStep(a: seq<Span>, b: seq<Span>, i: nat, j: nat, out: seq<Span>)
    requires IsCover(a) && IsCover(b) && i < |a| && j < |b| && Swept(a, b, i, j, out)
    ensures var m := Meeting(a[i], b[j]);
            var next := if m.0 < m.1 then out + [m] else out;
            if a[i].1 < b[j].1 then Swept(a, b, i + 1, j, next) else Swept(a, b, i, j + 1, next)
  {
    var m := Meeting(a[i], b[j]);
    if m.0 < m.1 { Append(out, m); } else { assert Range(m) == {}; }
    if a[i].1 < b[j].1 { SweepA(a, b, i, j); } else { SweepB(a, b, i, j); }
  }

  /** The time both covers hold. */
  method Intersect(a: seq<Span>, b: seq<Span>) returns (out: seq<Span>)
    requires IsCover(a) && IsCover(b)
    ensures IsCover(out) && Times(out) == Times(a) * Times(b)
  {
    out := [];
    var i, j := 0, 0;
    while i < |a| && j < |b|
      invariant 0 <= i <= |a| && 0 <= j <= |b|
      invariant Swept(a, b, i, j, out)
      decreases |a| - i + |b| - j
    {
      hide Swept;
      SweptStep(a, b, i, j, out);
      var lo, hi := Most(a[i].0, b[j].0), Least(a[i].1, b[j].1);
      if lo < hi {
        out := out + [(lo, hi)];
      }
      if a[i].1 < b[j].1 {
        i := i + 1;
      } else {
        j := j + 1;
      }
    }
  }

  /** How long both covers hold. */
  method Overlap(a: seq<Span>, b: seq<Span>) returns (n: int)
    requires IsCover(a) && IsCover(b)
    ensures n == |Times(a) * Times(b)|
  {
    var both := Intersect(a, b);
    CoveredIsSize(both);
    n := Covered(both);
  }

  // ----------------------------------------------------------------------- subtract

  /** Nothing of `b` between where its first `k` spans end and where the others start. */
  lemma Gap(b: seq<Span>, k: nat, lo: int, hi: int)
    requires IsCover(b) && k <= |b|
    requires forall i: nat {:trigger b[i]} | i < k :: b[i].1 <= lo
    requires k < |b| ==> hi <= b[k].0
    ensures Range((lo, hi)) !! Times(b)
  {
    assert b == b[..k] + b[k..];
    TimesJoin(b[..k], b[k..]);
    TimesUpTo(b[..k], lo);
    TimesFrom(b[k..], hi);
  }

  lemma SpanInTimes(b: seq<Span>, k: nat)
    requires k < |b|
    ensures Range(b[k]) <= Times(b)
  {
    forall t: int | t in Range(b[k]) ensures t in Times(b) { InTimes(b, t); }
  }

  /** The cut so far: what `b` does not hold of [lo, cur) is out, and past `hi` up to
      `cur` there is only `b`. */
  ghost predicate CutTo(before: seq<Span>, lo: int, hi: int, b: seq<Span>, k: nat, cur: int, out: seq<Span>)
    requires k <= |b|
  {
    && lo <= cur && IsCover(out)
    && (forall i: nat {:trigger b[i]} | i < k :: b[i].1 <= cur)
    && Range((hi, cur)) <= Times(b)
    && (out != [] ==> out[|out| - 1].1 <= Least(cur, hi))
    && Times(out) == Times(before) + (Range((lo, cur)) - Times(b))
  }

  /** Out to `next`, when nothing of `b` is between. */
  lemma CutGap(before: seq<Span>, lo: int, hi: int, b: seq<Span>, k: nat, cur: int, out: seq<Span>, next: int)
    requires IsCover(b) && k <= |b| && CutTo(before, lo, hi, b, k, cur, out)
    requires cur < next <= hi && (k < |b| ==> next <= b[k].0)
    ensures CutTo(before, lo, hi, b, k, next, out + [(cur, next)])
  {
    Gap(b, k, cur, next);
    Append(out, (cur, next));
    assert Range((lo, next)) == Range((lo, cur)) + Range((cur, next));
    assert Range((hi, next)) == {};
  }

  /** Past a span of `b`. */
  lemma CutPast(before: seq<Span>, lo: int, hi: int, b: seq<Span>, k: nat, cur: int, out: seq<Span>)
    requires IsCover(b) && k < |b| && CutTo(before, lo, hi, b, k, cur, out) && b[k].0 <= cur && b[k].0 < hi
    ensures CutTo(before, lo, hi, b, k + 1, Most(cur, b[k].1), out)
  {
    var next := Most(cur, b[k].1);
    SpanInTimes(b, k);
    assert Range((lo, next)) - Times(b) == Range((lo, cur)) - Times(b);
    assert Range((hi, next)) <= Range((hi, cur)) + Range(b[k]);
  }

  lemma CutDone(before: seq<Span>, lo: int, hi: int, b: seq<Span>, k: nat, cur: int, out: seq<Span>)
    requires k <= |b| && lo <= hi <= cur && CutTo(before, lo, hi, b, k, cur, out)
    ensures Times(out) == Times(before) + (Range((lo, hi)) - Times(b))
  {
    assert Range((lo, cur)) == Range((lo, hi)) + Range((hi, cur));
  }

  /** The part of one span that the cover `b` does not hold, appended to `out`; the spans
      of `b` before `j` end at or before it. */
  method Cut(out: seq<Span>, lo: int, hi: int, b: seq<Span>, j: nat) returns (out': seq<Span>)
    requires IsCover(out) && IsCover(b) && lo <= hi && j <= |b|
    requires out != [] ==> out[|out| - 1].1 <= lo
    requires forall i: nat {:trigger b[i]} | i < j :: b[i].1 <= lo
    ensures IsCover(out') && Times(out') == Times(out) + (Range((lo, hi)) - Times(b))
    ensures out' != [] ==> out'[|out'| - 1].1 <= hi
  {
    out' := out;
    var cur, k := lo, j;
    assert Range((hi, cur)) == {} && Range((lo, cur)) == {};
    while k < |b| && b[k].0 < hi
      invariant j <= k <= |b|
      invariant CutTo(out, lo, hi, b, k, cur, out')
    {
      if b[k].0 > cur {
        CutGap(out, lo, hi, b, k, cur, out', b[k].0);
        out' := out' + [(cur, b[k].0)];
      }
      // past the gap, if any, the cut stands at Most(cur, b[k].0)
      CutPast(out, lo, hi, b, k, Most(cur, b[k].0), out');
      cur := Most(cur, b[k].1);
      k := k + 1;
    }
    if cur < hi {
      CutGap(out, lo, hi, b, k, cur, out', hi);
      out' := out' + [(cur, hi)];
    }
    CutDone(out, lo, hi, b, k, Most(cur, hi), out');
  }

  /** The time `a` holds and `b` does not. */
  method Subtract(a: seq<Span>, b: seq<Span>) returns (out: seq<Span>)
    requires IsCover(a) && IsCover(b)
    ensures IsCover(out) && Times(out) == Times(a) - Times(b)
  {
    out := [];
    var j := 0;
    for i := 0 to |a|
      invariant 0 <= j <= |b|
      invariant i < |a| ==> forall k: nat {:trigger b[k]} | k < j :: b[k].1 <= a[i].0
      invariant IsCover(out) && (i < |a| && out != [] ==> out[|out| - 1].1 <= a[i].0)
      invariant Times(out) == Times(a[..i]) - Times(b)
    {
      var lo, hi := a[i].0, a[i].1;
      while j < |b| && b[j].1 <= lo
        invariant 0 <= j <= |b|
        invariant forall k: nat {:trigger b[k]} | k < j :: b[k].1 <= lo
      {
        j := j + 1;
      }
      assert a[..i + 1] == a[..i] + [a[i]];
      TimesPush(a[..i], a[i]);
      out := Cut(out, lo, hi, b, j);
    }
    assert a[..|a|] == a;
  }

  /** What each has to itself is its own total minus what both hold. */
  lemma SplitsExactly(a: seq<Span>, both: seq<Span>, own: seq<Span>, b: seq<Span>)
    requires IsCover(a) && IsCover(both) && IsCover(own)
    requires Times(both) == Times(a) * Times(b) && Times(own) == Times(a) - Times(b)
    ensures Covered(a) == Covered(both) + Covered(own)
  {
    hide IsCover;
    CoveredIsSize(a);
    CoveredIsSize(both);
    CoveredIsSize(own);
    SizeOfParts(Times(a), Times(b));
  }

  // ------------------------------------------------------------------------- a leg

  /** `Leg.overlap`: what two phases cover past the leg's length. */
  function LegOverlap(basicWall: int, recursiveWall: int, leg: int): int {
    Most(0, basicWall + recursiveWall - leg)
  }

  /** The figure is what both phases cover less what neither does, or nothing: so never more
      than both cover, and just that when together they cover the leg. */
  lemma LegOverlapIsLower(basic: seq<Span>, recursive: seq<Span>, leg: Span)
    requires IsCover(basic) && IsCover(recursive) && leg.0 <= leg.1
    requires Times(basic) <= Range(leg) && Times(recursive) <= Range(leg)
    ensures var figure := LegOverlap(Covered(basic), Covered(recursive), leg.1 - leg.0);
            var both, neither := |Times(basic) * Times(recursive)|, |Range(leg) - Times(basic) - Times(recursive)|;
            && figure == (if both > neither then both - neither else 0) && figure <= both
            && (neither == 0 ==> figure == both)
  {
    CoveredIsSize(basic);
    CoveredIsSize(recursive);
    RangeSize(leg.0, leg.1);
    PhasesInLeg(Times(basic), Times(recursive), Range(leg));
  }

  lemma PhasesInLeg(b: set<int>, r: set<int>, leg: set<int>)
    requires b <= leg && r <= leg
    ensures |b| + |r| - |leg| == |b * r| - |leg - b - r|
  {
    SizeOfParts(b, r);
    SizeOfUnion(b - r, r);
    SizeOfParts(leg, (b - r) + r);
    assert leg * ((b - r) + r) == (b - r) + r && leg - ((b - r) + r) == leg - b - r;
  }
}
