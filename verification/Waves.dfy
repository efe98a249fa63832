/** The recursion witness's exec adds: grouped into waves by dependency depth, and
    evaluated a wave at a time. */
module Waves {

  const P: nat := 0xFFFF_FFFF_0000_0001
  const WORD: nat := 0x1_0000_0000_0000_0000

  /** w[size + i] = w[a] ca + w[b] cb, for the i-th add. */
  datatype Add = Add(a: nat, b: nat, ca: nat, cb: nat)

  datatype Result<+T> = Ok(value: T) | AssertionError

  /** No add reads its own slot or a later add's. */
  ghost predicate NoForward(adds: seq<Add>, size: nat) {
    forall i: nat {:trigger adds[i]} | i < |adds| :: adds[i].a < size + i && adds[i].b < size + i
  }

  function Max(x: nat, y: nat): nat { if x < y then y else x }

  /** How many adds deep a cell's value reaches: 0 for a witness cell read. */
  function Depth(adds: seq<Add>, size: nat, i: nat): nat
    requires NoForward(adds, size) && i < |adds|
    decreases i
  {
    Max(Read(adds, size, adds[i].a, i), Read(adds, size, adds[i].b, i))
  }

  /** What operand `x` of add `i` adds to its depth. */
  function Read(adds: seq<Add>, size: nat, x: nat, i: nat): nat
    requires NoForward(adds, size) && i < |adds| && x < size + i
    decreases i, 0
  {
    if x < size then 0 else Depth(adds, size, x - size) + 1
  }

  lemma {:induction false} DepthBound(adds: seq<Add>, size: nat, i: nat)
    requires NoForward(adds, size) && i < |adds|
    ensures Depth(adds, size, i) <= i
    decreases i
  {
    if adds[i].a >= size { DepthBound(adds, size, adds[i].a - size); }
    if adds[i].b >= size { DepthBound(adds, size, adds[i].b - size); }
  }

  // --------------------------------------------------------------- the relaxation

  function Operand(adds: seq<Add>, size: nat, level: seq<nat>, x: nat): nat
    requires x < size + |level|
  {
    if x < size then 0 else level[x - size] + 1
  }

  /** One pass: every add one deeper than the deepest slot it reads. */
  method Relax(adds: seq<Add>, size: nat, level: seq<nat>) returns (next: seq<nat>)
    requires NoForward(adds, size) && |level| == |adds|
    ensures |next| == |adds|
    ensures forall i: nat {:trigger next[i]} | i < |adds| ::
              next[i] == Max(Operand(adds, size, level, adds[i].a), Operand(adds, size, level, adds[i].b))
  {
    next := [];
    for i := 0 to |adds|
      invariant |next| == i
      invariant forall j: nat {:trigger next[j]} | j < i ::
        next[j] == Max(Operand(adds, size, level, adds[j].a), Operand(adds, size, level, adds[j].b))
    {
      next := next + [Max(Operand(adds, size, level, adds[i].a), Operand(adds, size, level, adds[i].b))];
    }
  }

  function Min(x: nat, y: nat): nat { if x < y then x else y }

  /** After `p` passes every level is the depth, cut at `p`. */
  ghost predicate CutAt(adds: seq<Add>, size: nat, level: seq<nat>, p: nat)
    requires NoForward(adds, size)
  {
    |level| == |adds| && forall i: nat {:trigger level[i]} | i < |adds| :: level[i] == Min(p, Depth(adds, size, i))
  }

  lemma RelaxCuts(adds: seq<Add>, size: nat, level: seq<nat>, next: seq<nat>, p: nat)
    requires NoForward(adds, size) && CutAt(adds, size, level, p) && |next| == |adds|
    requires forall i: nat {:trigger next[i]} | i < |adds| ::
               next[i] == Max(Operand(adds, size, level, adds[i].a), Operand(adds, size, level, adds[i].b))
    ensures CutAt(adds, size, next, p + 1)
  {
    forall i: nat {:trigger next[i]} | i < |adds| ensures next[i] == Min(p + 1, Depth(adds, size, i)) {
      var a, b := adds[i].a, adds[i].b;
      if a >= size { assert level[a - size] == Min(p, Depth(adds, size, a - size)); }
      if b >= size { assert level[b - size] == Min(p, Depth(adds, size, b - size)); }
    }
  }

  /** A level that a pass would not change. */
  ghost predicate Fixed(adds: seq<Add>, size: nat, level: seq<nat>, i: nat)
    requires NoForward(adds, size) && |level| == |adds| && i < |adds|
  {
    level[i] == Max(Operand(adds, size, level, adds[i].a), Operand(adds, size, level, adds[i].b))
  }

  /** A pass that changes nothing has found the depths. */
  lemma {:induction false} SettledIsDepth(adds: seq<Add>, size: nat, level: seq<nat>, i: nat)
    requires NoForward(adds, size) && |level| == |adds| && i < |adds|
    requires forall j: nat | j < |adds| :: Fixed(adds, size, level, j)
    ensures level[i] == Depth(adds, size, i)
    decreases i
  {
    var a, b := adds[i].a, adds[i].b;
    if a >= size { SettledIsDepth(adds, size, level, a - size); }
    if b >= size { SettledIsDepth(adds, size, level, b - size); }
    assert Operand(adds, size, level, a) == Read(adds, size, a, i);
    assert Operand(adds, size, level, b) == Read(adds, size, b, i);
    assert Fixed(adds, size, level, i);
  }

  method ForwardRead(adds: seq<Add>, size: nat) returns (forward: bool)
    ensures !forward <==> NoForward(adds, size)
  {
    for i := 0 to |adds|
      invariant forall j: nat {:trigger adds[j]} | j < i :: adds[j].a < size + j && adds[j].b < size + j
    {
      if adds[i].a >= size + i || adds[i].b >= size + i {
        return true;
      }
    }
    return false;
  }

  /** The relaxation: it settles within `n` passes. */
  method Levels(adds: seq<Add>, size: nat) returns (level: seq<nat>, settled: bool)
    requires NoForward(adds, size) && |adds| > 0
    ensures settled && |level| == |adds|
    ensures forall i: nat {:trigger level[i]} | i < |adds| :: level[i] == Depth(adds, size, i)
  {
    level := seq(|adds|, (i: nat) => 0);
    settled := false;
    var pass := 0;
    while pass < |adds| && !settled
      invariant pass <= |adds| && |level| == |adds|
      invariant !settled ==> CutAt(adds, size, level, pass)
      invariant settled ==> forall i: nat {:trigger level[i]} | i < |adds| :: level[i] == Depth(adds, size, i)
      invariant pass == |adds| ==> settled
      decreases |adds| - pass, !settled
    {
      var next := Relax(adds, size, level);
      RelaxCuts(adds, size, level, next, pass);
      if next == level {
        forall j: nat | j < |adds| ensures Fixed(adds, size, level, j) { assert next[j] == level[j]; }
        forall i: nat {:trigger level[i]} | i < |adds| ensures level[i] == Depth(adds, size, i) {
          SettledIsDepth(adds, size, level, i);
        }
        settled := true;
      } else {
        LastPassSettles(adds, size, level, next, pass);
        level := next;
        pass := pass + 1;
      }
    }
  }

  /** By the last pass every depth has been reached. */
  lemma LastPassSettles(adds: seq<Add>, size: nat, level: seq<nat>, next: seq<nat>, p: nat)
    requires NoForward(adds, size) && CutAt(adds, size, level, p) && CutAt(adds, size, next, p + 1) && p < |adds|
    ensures next != level ==> p + 1 < |adds|
  {
    if p + 1 >= |adds| {
      forall i: nat | i < |adds| ensures level[i] == next[i] { DepthBound(adds, size, i); }
    }
  }

  function MaxOf(level: seq<nat>): nat {
    if level == [] then 0 else Max(MaxOf(level[..|level| - 1]), level[|level| - 1])
  }

  lemma {:induction false} MaxOfBounds(level: seq<nat>, i: nat)
    requires i < |level|
    ensures level[i] <= MaxOf(level)
  {
    if i < |level| - 1 { MaxOfBounds(level[..|level| - 1], i); }
  }

  /** The positions of `lv`, ascending. */
  method WhereIs(level: seq<nat>, lv: nat) returns (sel: seq<nat>)
    ensures forall i: nat :: i in sel <==> i < |level| && level[i] == lv
    ensures forall j: nat, k: nat {:trigger sel[j], sel[k]} | j < k < |sel| :: sel[j] < sel[k]
  {
    sel := [];
    for i := 0 to |level|
      invariant forall x: nat :: x in sel <==> x < i && level[x] == lv
      invariant forall j: nat, k: nat {:trigger sel[j], sel[k]} | j < k < |sel| :: sel[j] < sel[k]
      invariant forall j: nat {:trigger sel[j]} | j < |sel| :: sel[j] < i
    {
      if level[i] == lv {
        sel := sel + [i];
      }
    }
  }

  /** Wave `lv` holds the adds of depth `lv`, each once, in index order. */
  ghost predicate AreWaves(adds: seq<Add>, size: nat, waves: seq<seq<nat>>)
    requires NoForward(adds, size)
  {
    && (forall lv: nat {:trigger waves[lv]} | lv < |waves| :: IsWave(adds, size, waves[lv], lv))
    && (forall i: nat {:trigger Depth(adds, size, i)} | i < |adds| :: Depth(adds, size, i) < |waves|)
  }

  ghost predicate IsWave(adds: seq<Add>, size: nat, sel: seq<nat>, lv: nat)
    requires NoForward(adds, size)
  {
    && (forall i: nat :: i in sel <==> i < |adds| && Depth(adds, size, i) == lv)
    && (forall j: nat, k: nat {:trigger sel[j], sel[k]} | j < k < |sel| :: sel[j] < sel[k])
  }

  /** `_add_waves`: an error exactly when some add reads a later slot. */
  method AddWaves(adds: seq<Add>, size: nat) returns (r: Result<seq<seq<nat>>>)
    ensures r.Ok? <==> NoForward(adds, size)
    ensures r.Ok? ==> AreWaves(adds, size, r.value)
  {
    if |adds| == 0 {
      return Ok([]);
    }
    var forward := ForwardRead(adds, size);
    if forward {
      return AssertionError;
    }
    var level, settled := Levels(adds, size);
    var top := MaxOf(level);
    var waves: seq<seq<nat>> := [];
    for lv := 0 to top + 1
      invariant |waves| == lv
      invariant forall l: nat {:trigger waves[l]} | l < lv :: IsWave(adds, size, waves[l], l)
    {
      var sel := WhereIs(level, lv);
      waves := waves + [sel];
    }
    forall i: nat {:trigger Depth(adds, size, i)} | i < |adds| ensures Depth(adds, size, i) < |waves| {
      MaxOfBounds(level, i);
    }
    r := Ok(waves);
  }

  /** An add reads only witness cells and slots of earlier waves. */
  lemma WavesReadEarlier(adds: seq<Add>, size: nat, i: nat)
    requires NoForward(adds, size) && i < |adds|
    ensures adds[i].a >= size ==> Depth(adds, size, adds[i].a - size) < Depth(adds, size, i)
    ensures adds[i].b >= size ==> Depth(adds, size, adds[i].b - size) < Depth(adds, size, i)
    ensures Depth(adds, size, i) > 0 ==>
      || (adds[i].a >= size && Depth(adds, size, i) == Depth(adds, size, adds[i].a - size) + 1)
      || (adds[i].b >= size && Depth(adds, size, i) == Depth(adds, size, adds[i].b - size) + 1)
  {
    var a, b := Read(adds, size, adds[i].a, i), Read(adds, size, adds[i].b, i);
    assert Depth(adds, size, i) == Max(a, b);
    assert adds[i].a >= size ==> a == Depth(adds, size, adds[i].a - size) + 1;
    assert adds[i].b >= size ==> b == Depth(adds, size, adds[i].b - size) + 1;
  }

  // ------------------------------------------------------------------- evaluation

  /** The cell's value once every add it rests on is evaluated. */
  function Cell(adds: seq<Add>, size: nat, w: seq<nat>, x: nat): nat
    requires NoForward(adds, size) && |w| == size + |adds| && x < |w|
    decreases x
  {
    if x < size then w[x]
    else
      var add := adds[x - size];
      (Cell(adds, size, w, add.a) * add.ca + Cell(adds, size, w, add.b) * add.cb) % P
  }

  /** proofman's evaluation: strictly in index order. */
  method InOrder(adds: seq<Add>, size: nat, w: seq<nat>) returns (r: seq<nat>)
    requires NoForward(adds, size) && |w| == size + |adds|
    ensures |r| == |w| && forall x: nat {:trigger r[x]} | x < |w| :: r[x] == Cell(adds, size, w, x)
    ensures forall x: nat {:trigger r[x]} | x < size :: r[x] == w[x]
    ensures forall i: nat {:trigger adds[i]} | i < |adds| ::
              r[size + i] == (r[adds[i].a] * adds[i].ca + r[adds[i].b] * adds[i].cb) % P
  {
    r := w;
    for i := 0 to |adds|
      invariant |r| == |w|
      invariant forall x: nat {:trigger r[x]} | x < size + i :: r[x] == Cell(adds, size, w, x)
    {
      var add := adds[i];
      r := r[size + i := (r[add.a] * add.ca + r[add.b] * add.cb) % P];
    }
  }

  /** What the buffer holds before wave `lv`: settled slots of lesser depth, everything
      else untouched. */
  ghost predicate SettledBelow(adds: seq<Add>, size: nat, w: seq<nat>, buf: seq<nat>, lv: nat)
    requires NoForward(adds, size) && |w| == size + |adds|
  {
    && |buf| == |w|
    && (forall x: nat {:trigger buf[x]} | x < size :: buf[x] == w[x])
    && (forall x: nat {:trigger buf[x]} | size <= x < |w| && Depth(adds, size, x - size) < lv :: buf[x] == Cell(adds, size, w, x))
  }

  /** One wave, all operands read before any slot is written. */
  method RunWave(adds: seq<Add>, size: nat, ghost w: seq<nat>, buf: array<nat>, sel: seq<nat>, ghost lv: nat)
    requires NoForward(adds, size) && |w| == size + |adds| && IsWave(adds, size, sel, lv)
    requires SettledBelow(adds, size, w, buf[..], lv)
    modifies buf
    ensures SettledBelow(adds, size, w, buf[..], lv + 1)
  {
    var batch := ReadBatch(adds, size, w, buf, sel, lv);
    ghost var before := buf[..];
    for j := 0 to |sel|
      invariant buf.Length == |w|
      invariant forall x: nat {:trigger buf[x]} | x < size :: buf[x] == before[x]
      invariant forall x: nat {:trigger buf[x]} | size <= x < |w| && x - size !in sel[..j] :: buf[x] == before[x]
      invariant forall x: nat {:trigger buf[x]} | size <= x < |w| && x - size in sel[..j] :: buf[x] == Cell(adds, size, w, x)
    {
      assert sel[j] in sel && sel[..j + 1] == sel[..j] + [sel[j]];
      buf[size + sel[j]] := batch[j];
    }
    assert sel[..|sel|] == sel;
  }

  method ReadBatch(adds: seq<Add>, size: nat, ghost w: seq<nat>, buf: array<nat>, sel: seq<nat>, ghost lv: nat) returns (batch: seq<nat>)
    requires NoForward(adds, size) && |w| == size + |adds| && IsWave(adds, size, sel, lv)
    requires SettledBelow(adds, size, w, buf[..], lv)
    ensures |batch| == |sel| && forall j: nat {:trigger sel[j]} {:trigger batch[j]} | j < |sel| :: sel[j] < |adds| && batch[j] == Cell(adds, size, w, size + sel[j])
  {
    batch := [];
    for j := 0 to |sel|
      invariant |batch| == j
      invariant forall k: nat {:trigger sel[k]} {:trigger batch[k]} | k < j :: sel[k] < |adds| && batch[k] == Cell(adds, size, w, size + sel[k])
    {
      assert sel[j] in sel;
      var add := adds[sel[j]];
      ReadsSettled(adds, size, w, buf[..], sel[j], lv);
      batch := batch + [(buf[add.a] * add.ca + buf[add.b] * add.cb) % P];
    }
  }

  lemma ReadsSettled(adds: seq<Add>, size: nat, w: seq<nat>, buf: seq<nat>, i: nat, lv: nat)
    requires NoForward(adds, size) && |w| == size + |adds| && SettledBelow(adds, size, w, buf, lv)
    requires i < |adds| && Depth(adds, size, i) == lv
    ensures buf[adds[i].a] == Cell(adds, size, w, adds[i].a) && buf[adds[i].b] == Cell(adds, size, w, adds[i].b)
  {
    var a, b := adds[i].a, adds[i].b;
    WavesReadEarlier(adds, size, i);
  }

  /** `_settled`: the waves in turn, the unmapped cell zeroed, every cell canonical. */
  method Settle(adds: seq<Add>, size: nat, waves: seq<seq<nat>>, w: seq<nat>) returns (buf: array<nat>)
    requires NoForward(adds, size) && AreWaves(adds, size, waves) && |w| == size + |adds| && |w| > 0
    requires forall x: nat {:trigger w[x]} | x < |w| :: w[x] < WORD
    ensures buf.Length == |w| && buf[0] == 0
    ensures forall x: nat {:trigger buf[x]} | 0 < x < |w| :: buf[x] == Cell(adds, size, w, x) % P
    ensures forall x: nat {:trigger buf[x]} | x < |w| :: buf[x] < P && (0 < x < size ==> buf[x] == w[x] % P)
    ensures forall i: nat {:trigger adds[i]} | i < |adds| ::
              buf[size + i] == ((if adds[i].a == 0 then w[0] else buf[adds[i].a]) * adds[i].ca
                                + (if adds[i].b == 0 then w[0] else buf[adds[i].b]) * adds[i].cb) % P
  {
    hide Cell, IsWave;
    buf := new nat[|w|]((x: nat) requires x < |w| => w[x]);
    for lv := 0 to |waves|
      invariant SettledBelow(adds, size, w, buf[..], lv)
    {
      RunWave(adds, size, w, buf, waves[lv], lv);
    }
    AllSettled(adds, size, w, buf[..], |waves|);
    ghost var cells := buf[..];
    buf[0] := 0;
    for x := 0 to buf.Length
      invariant buf[0] == 0
      invariant forall y: nat {:trigger buf[y]} | 0 < y < x :: buf[y] == cells[y] % P
      invariant forall y: nat {:trigger buf[y]} | x <= y < buf.Length && y > 0 :: buf[y] == cells[y]
    {
      if buf[x] >= P {
        CellIsWord(adds, size, w, x);
        buf[x] := buf[x] - P;
      }
    }
    SettledEquations(adds, size, w, buf[..]);
  }

  /** The cells modulo P, the first zeroed, meet every add's equation modulo P. */
  lemma SettledEquations(adds: seq<Add>, size: nat, w: seq<nat>, buf: seq<nat>)
    requires NoForward(adds, size) && |buf| == |w| == size + |adds|
    requires forall x: nat {:trigger buf[x]} | 0 < x < |w| :: buf[x] == Cell(adds, size, w, x) % P
    ensures forall x: nat {:trigger buf[x]} | 0 < x < size :: buf[x] == w[x] % P
    ensures forall i: nat {:trigger adds[i]} | i < |adds| ::
              buf[size + i] == ((if adds[i].a == 0 then w[0] else buf[adds[i].a]) * adds[i].ca
                                + (if adds[i].b == 0 then w[0] else buf[adds[i].b]) * adds[i].cb) % P
  {
    forall i: nat {:trigger adds[i]} | i < |adds|
      ensures buf[size + i] == ((if adds[i].a == 0 then w[0] else buf[adds[i].a]) * adds[i].ca
                                + (if adds[i].b == 0 then w[0] else buf[adds[i].b]) * adds[i].cb) % P
    {
      CellEquation(adds, size, w, i, if adds[i].a == 0 then w[0] else buf[adds[i].a], if adds[i].b == 0 then w[0] else buf[adds[i].b]);
    }
  }

  lemma ModTimes(x: nat, c: nat)
    ensures x % P * c % P == x * c % P
  {
    var q, r := x / P, x % P;
    assert x == P * q + r;
    assert x * c == P * (q * c) + r * c;
    ModShift(r * c, q * c);
  }

  lemma ModShift(y: int, q: int)
    ensures (P * q + y) % P == y % P
  {
  }

  lemma ModSum(x: nat, y: nat, u: nat, v: nat)
    requires x % P == u % P && y % P == v % P
    ensures (x + y) % P == (u + v) % P
  {
    var d := x / P - u / P + (y / P - v / P);
    assert x + y == P * d + (u + v);
    ModShift(u + v, d);
  }

  /** An add's equation holds of its operands' values modulo P. */
  lemma CellEquation(adds: seq<Add>, size: nat, w: seq<nat>, i: nat, a: nat, b: nat)
    requires NoForward(adds, size) && |w| == size + |adds| && i < |adds|
    requires a % P == Cell(adds, size, w, adds[i].a) % P && b % P == Cell(adds, size, w, adds[i].b) % P
    ensures Cell(adds, size, w, size + i) % P == (a * adds[i].ca + b * adds[i].cb) % P
  {
    hide Cell;
    CellOfAdd(adds, size, w, i);
    SumOfProducts(Cell(adds, size, w, adds[i].a), Cell(adds, size, w, adds[i].b), a, b, adds[i].ca, adds[i].cb);
  }

  lemma CellOfAdd(adds: seq<Add>, size: nat, w: seq<nat>, i: nat)
    requires NoForward(adds, size) && |w| == size + |adds| && i < |adds|
    ensures Cell(adds, size, w, size + i) == (Cell(adds, size, w, adds[i].a) * adds[i].ca + Cell(adds, size, w, adds[i].b) * adds[i].cb) % P
  {
  }

  lemma SumOfProducts(x: nat, y: nat, a: nat, b: nat, ca: nat, cb: nat)
    requires a % P == x % P && b % P == y % P
    ensures (x * ca + y * cb) % P % P == (a * ca + b * cb) % P
  {
    SameTimes(x, a, ca);
    SameTimes(y, b, cb);
    ModSum(x * ca, y * cb, a * ca, b * cb);
    ModTwice(x * ca + y * cb);
  }

  lemma SameTimes(x: nat, a: nat, c: nat)
    requires a % P == x % P
    ensures a * c % P == x * c % P
  {
    ModTimes(a, c);
    ModTimes(x, c);
  }

  lemma ModTwice(z: nat)
    ensures z % P % P == z % P
  {
  }

  lemma AllSettled(adds: seq<Add>, size: nat, w: seq<nat>, buf: seq<nat>, top: nat)
    requires NoForward(adds, size) && |w| == size + |adds| && SettledBelow(adds, size, w, buf, top)
    requires forall i: nat {:trigger Depth(adds, size, i)} | i < |adds| :: Depth(adds, size, i) < top
    ensures forall x: nat {:trigger buf[x]} | x < |w| :: buf[x] == Cell(adds, size, w, x)
  {
    forall x: nat {:trigger buf[x]} | x < |w| ensures buf[x] == Cell(adds, size, w, x) {
      if x >= size { assert Depth(adds, size, x - size) < top; }
    }
  }

  /** Every cell is a word, so one subtraction is enough to make it canonical. */
  lemma CellIsWord(adds: seq<Add>, size: nat, w: seq<nat>, x: nat)
    requires NoForward(adds, size) && |w| == size + |adds| && x < |w| && forall y: nat {:trigger w[y]} | y < |w| :: w[y] < WORD
    ensures Cell(adds, size, w, x) < WORD < 2 * P
  {
  }

  /** Waves and index order agree, cell for cell. */
  method WavesAgreeWithIndexOrder(adds: seq<Add>, size: nat, w: seq<nat>) returns (waved: array<nat>, ordered: seq<nat>)
    requires NoForward(adds, size) && |w| == size + |adds| && |w| > 0
    requires forall x: nat {:trigger w[x]} | x < |w| :: w[x] < WORD
    ensures waved.Length == |ordered| == |w|
    ensures waved[0] == 0 && forall x: nat {:trigger waved[x]} | 0 < x < |w| :: waved[x] == ordered[x] % P
    ensures forall x: nat {:trigger ordered[x]} | x < size :: ordered[x] == w[x]
    ensures forall i: nat {:trigger adds[i]} | i < |adds| ::
              ordered[size + i] == (ordered[adds[i].a] * adds[i].ca + ordered[adds[i].b] * adds[i].cb) % P
  {
    var waves := AddWaves(adds, size);
    waved := Settle(adds, size, waves.value, w);
    ordered := InOrder(adds, size, w);
  }
}
