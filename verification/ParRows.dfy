/** Row ranges split across threads: each thread fills its own run of rows, and they
    finish in any order. */
module ParRows {
  import opened Arith

  /** Rows per thread: the rows shared out evenly, at least one each. */
  function RowsPer(n: nat, threads: nat): (k: nat)
    requires threads > 0
    ensures k >= 1
  {
    var k := (n + threads - 1) / threads;
    if k < 1 then 1 else k
  }

  /** Where chunk `i` starts. */
  function ChunkStart(i: nat, per: nat): nat { i * per }

  function ChunkCount(n: nat, per: nat): nat
    requires per > 0
  {
    (n + per - 1) / per
  }

  /** Row `r` is in chunk `r / per`, and that chunk exists. */
  lemma RowInChunk(r: nat, n: nat, per: nat)
    requires per > 0 && r < n
    ensures ChunkStart(r / per, per) <= r < ChunkStart(r / per, per) + per && r / per < ChunkCount(n, per)
  {
    assert r == (r / per) * per + r % per;
    QuotientOrder(r, n + per - 1, per);
  }

  lemma QuotientOrder(r: nat, m: nat, per: nat)
    requires per > 0 && r + per <= m
    ensures r / per < m / per
  {
    assert r + per == r + per * 1;
    DivAdd(r, 1, per);
    DivOrder(r + per, m, per);
  }

  method FillChunk<T>(out: array<T>, f: nat -> T, start: nat, end: nat)
    requires start <= end <= out.Length
    modifies out
    ensures forall r: nat {:trigger out[r]} | r < out.Length ::
              out[r] == if start <= r < end then f(r) else old(out[r])
  {
    for r := start to end
      invariant forall s: nat {:trigger out[s]} | s < out.Length :: out[s] == if start <= s < r then f(s) else old(out[s])
    {
      out[r] := f(r);
    }
  }

  function Least(a: nat, b: nat): nat { if a < b then a else b }

  /** `par_rows`: whatever the number of threads, and in whatever order they finish,
      row `r` of the output is `f(r)`. */
  method Fill<T>(n: nat, zero: T, threads: nat, finish: seq<nat>, f: nat -> T) returns (out: array<T>)
    requires threads > 0
    requires forall i: nat :: i in finish <==> i < ChunkCount(n, RowsPer(n, threads))
    ensures out.Length == n && forall r: nat {:trigger out[r]} | r < n :: out[r] == f(r)
  {
    out := new T[n]((r: nat) => zero);
    var per := RowsPer(n, threads);
    for k := 0 to |finish|
      invariant forall r: nat {:trigger out[r]} | r < n && r / per in finish[..k] :: out[r] == f(r)
    {
      var start := Least(ChunkStart(finish[k], per), n);
      var end := Least(ChunkStart(finish[k], per) + per, n);
      FillChunk(out, f, start, end);
      assert finish[..k + 1] == finish[..k] + [finish[k]];
      forall r: nat {:trigger out[r]} | r < n && r / per in finish[..k + 1] ensures out[r] == f(r) {
        RowInChunk(r, n, per);
      }
    }
    assert finish[..|finish|] == finish;
    forall r: nat {:trigger out[r]} | r < n ensures out[r] == f(r) { RowInChunk(r, n, per); }
  }
}
