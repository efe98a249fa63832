/** The device's matrix layout: column-major within 256x4 tiles, the tiles of one column
    group stacked down the rows, the last group narrowed to what is left. */
module Tiles {
  import opened Arith
  import ParRows

  const TILE_HEIGHT: nat := 256
  const TILE_WIDTH: nat := 4

  /** Columns of group `g`. */
  function GroupWidth(g: nat, nCols: nat): (w: nat)
    requires TILE_WIDTH * g < nCols
    ensures 1 <= w <= TILE_WIDTH && TILE_WIDTH * g + w <= nCols
  {
    if nCols - TILE_WIDTH * g < TILE_WIDTH then nCols - TILE_WIDTH * g else TILE_WIDTH
  }

  /** Where the cell is inside its column group of `w` columns: `k` is the column in the group. */
  function Inner(row: nat, k: nat, w: nat): nat {
    row / TILE_HEIGHT * w * TILE_HEIGHT + k * TILE_HEIGHT + row % TILE_HEIGHT
  }

  /** Where group `g` starts: the groups before it are all full. */
  function GroupStart(g: nat, nRows: nat): nat { g * TILE_WIDTH * nRows }

  /** Where the cell is in the device's buffer. */
  function Source(row: nat, col: nat, nRows: nat, nCols: nat): nat
    requires col < nCols
  {
    var g := col / TILE_WIDTH;
    GroupStart(g, nRows) + Inner(row, col % TILE_WIDTH, GroupWidth(g, nCols))
  }

  /** The place by numbers: the column groups before it, all four wide; the row tiles before
      it in its own group, which may be narrower; the columns before it in the tile; the row
      in the tile. */
  lemma SourceIs(row: nat, col: nat, nRows: nat, nCols: nat)
    requires col < nCols
    ensures var g := col / 4;
            var w := if nCols - 4 * g < 4 then nCols - 4 * g else 4;
            Source(row, col, nRows, nCols) == g * 4 * nRows + row / 256 * w * 256 + col % 4 * 256 + row % 256
  {
  }

  // ------------------------------------------------------------------ inside a group

  /** A tile holds `w * TILE_HEIGHT` cells; `w` is 1 to 4. */
  lemma TileSize(t: nat, w: nat)
    requires 1 <= w <= TILE_WIDTH
    ensures t * w * TILE_HEIGHT == if w == 1 then 256 * t else if w == 2 then 512 * t else if w == 3 then 768 * t else 1024 * t
  {
    if w == 1 {} else if w == 2 {} else if w == 3 {} else { assert w == 4; }
  }

  lemma GroupSize(nRows: nat, w: nat)
    requires 1 <= w <= TILE_WIDTH
    ensures nRows * w == if w == 1 then nRows else if w == 2 then 2 * nRows else if w == 3 then 3 * nRows else 4 * nRows
  {
    if w == 1 {} else if w == 2 {} else if w == 3 {} else { assert w == 4; }
  }

  /** The row and the column of place `i` in a group of `w` columns. */
  function InnerRow(i: nat, w: nat): nat
    requires w > 0
  {
    i / TILE_HEIGHT / w * TILE_HEIGHT + i % TILE_HEIGHT
  }

  function InnerCol(i: nat, w: nat): nat
    requires w > 0
  {
    i / TILE_HEIGHT % w
  }

  lemma InnerInRange(row: nat, k: nat, w: nat, nRows: nat)
    requires 1 <= w <= TILE_WIDTH && k < w && row < nRows && nRows % TILE_HEIGHT == 0
    ensures Inner(row, k, w) < nRows * w
  {
    TileSize(row / TILE_HEIGHT, w);
    GroupSize(nRows, w);
    assert row / TILE_HEIGHT + 1 <= nRows / TILE_HEIGHT;
  }

  lemma InnerBack(row: nat, k: nat, w: nat)
    requires 1 <= w <= TILE_WIDTH && k < w
    ensures InnerRow(Inner(row, k, w), w) == row && InnerCol(Inner(row, k, w), w) == k
  {
    var t := row / TILE_HEIGHT;
    TileSize(t, w);
    GroupSize(t, w);
    var i := Inner(row, k, w);
    assert i / TILE_HEIGHT == t * w + k && i % TILE_HEIGHT == row % TILE_HEIGHT;
    DivModUnique(t * w + k, w, t, k);
  }

  /** The place of row `r` of tile `t`, by numbers. */
  lemma InnerOf(t: nat, k: nat, r: nat, w: nat)
    requires r < TILE_HEIGHT
    ensures Inner(t * TILE_HEIGHT + r, k, w) == (t * w + k) * TILE_HEIGHT + r
  {
    assert (t * TILE_HEIGHT + r) / TILE_HEIGHT == t && (t * TILE_HEIGHT + r) % TILE_HEIGHT == r;
  }

  lemma TileBound(i: nat, w: nat, tiles: nat)
    requires w > 0 && i < tiles * w * TILE_HEIGHT
    ensures i / TILE_HEIGHT / w < tiles
  {
    DivBound(i, TILE_HEIGHT, tiles * w);
    DivBound(i / TILE_HEIGHT, w, tiles);
  }

  lemma PlaceBack(i: nat, w: nat, nRows: nat)
    requires 1 <= w <= TILE_WIDTH && i < nRows * w && nRows % TILE_HEIGHT == 0
    ensures InnerRow(i, w) < nRows && InnerCol(i, w) < w
    ensures Inner(InnerRow(i, w), InnerCol(i, w), w) == i
  {
    var q, tiles := i / TILE_HEIGHT, nRows / TILE_HEIGHT;
    assert nRows == tiles * TILE_HEIGHT;
    assert nRows * w == tiles * w * TILE_HEIGHT by {
      GroupSize(nRows, w);
      TileSize(tiles, w);
    }
    TileBound(i, w, tiles);
    assert q == q / w * w + q % w;
    InnerOf(q / w, q % w, i % TILE_HEIGHT, w);
  }

  // --------------------------------------------------------------- across the groups

  /** The cell at place `s`. */
  function GroupOf(s: nat, nRows: nat): nat
    requires nRows > 0
  {
    s / (TILE_WIDTH * nRows)
  }

  lemma GroupSteps(g: nat, nRows: nat, n: nat)
    requires nRows > 0
    ensures GroupStart(g, nRows) == TILE_WIDTH * nRows * g
    ensures GroupStart(g + 1, nRows) == GroupStart(g, nRows) + TILE_WIDTH * nRows
    ensures nRows * (TILE_WIDTH * g + n) == GroupStart(g, nRows) + nRows * n
  {
    assert g * TILE_WIDTH * nRows == TILE_WIDTH * nRows * g;
    assert (g + 1) * (TILE_WIDTH * nRows) == g * (TILE_WIDTH * nRows) + TILE_WIDTH * nRows;
  }

  lemma GroupFound(g: nat, nRows: nat, i: nat)
    requires nRows > 0 && i < TILE_WIDTH * nRows
    ensures GroupOf(GroupStart(g, nRows) + i, nRows) == g
  {
    GroupSteps(g, nRows, 0);
    DivModUnique(GroupStart(g, nRows) + i, TILE_WIDTH * nRows, g, i);
  }

  /** Place `s` is inside a group that exists. */
  lemma GroupExists(s: nat, nRows: nat, nCols: nat)
    requires nRows > 0 && s < nRows * nCols
    ensures TILE_WIDTH * GroupOf(s, nRows) < nCols
    ensures GroupStart(GroupOf(s, nRows), nRows) <= s
    ensures s - GroupStart(GroupOf(s, nRows), nRows) < nRows * GroupWidth(GroupOf(s, nRows), nCols)
  {
    var g := GroupOf(s, nRows);
    GroupSteps(g, nRows, 0);
    assert s == TILE_WIDTH * nRows * g + s % (TILE_WIDTH * nRows);
    MulOrder(nCols, TILE_WIDTH * g, nRows);
    GroupSteps(g, nRows, GroupWidth(g, nCols));
    GroupSize(nRows, GroupWidth(g, nCols));
  }

  function RowOf(s: nat, nRows: nat, nCols: nat): nat
    requires nRows > 0 && s < nRows * nCols
  {
    GroupExists(s, nRows, nCols);
    var g := GroupOf(s, nRows);
    InnerRow(s - GroupStart(g, nRows), GroupWidth(g, nCols))
  }

  function ColOf(s: nat, nRows: nat, nCols: nat): nat
    requires nRows > 0 && s < nRows * nCols
  {
    GroupExists(s, nRows, nCols);
    var g := GroupOf(s, nRows);
    TILE_WIDTH * g + InnerCol(s - GroupStart(g, nRows), GroupWidth(g, nCols))
  }

  /** Every cell has a place in the buffer, and no other cell has it. */
  lemma SourceInRange(row: nat, col: nat, nRows: nat, nCols: nat)
    requires row < nRows && col < nCols && nRows % TILE_HEIGHT == 0
    ensures Source(row, col, nRows, nCols) < nRows * nCols
    ensures RowOf(Source(row, col, nRows, nCols), nRows, nCols) == row
    ensures ColOf(Source(row, col, nRows, nCols), nRows, nCols) == col
  {
    var g := col / TILE_WIDTH;
    var w := GroupWidth(g, nCols);
    InnerInRange(row, col % TILE_WIDTH, w, nRows);
    InnerBack(row, col % TILE_WIDTH, w);
    GroupSize(nRows, w);
    GroupSteps(g, nRows, w);
    MulMono(TILE_WIDTH * g + w, nCols, nRows);
    GroupFound(g, nRows, Inner(row, col % TILE_WIDTH, w));
  }

  lemma ColumnInGroup(g: nat, k: nat)
    requires k < TILE_WIDTH
    ensures (TILE_WIDTH * g + k) / TILE_WIDTH == g && (TILE_WIDTH * g + k) % TILE_WIDTH == k
  {
  }

  /** Every place in the buffer holds a cell. */
  lemma CellOfPlace(s: nat, nRows: nat, nCols: nat)
    requires s < nRows * nCols && nRows > 0 && nRows % TILE_HEIGHT == 0
    ensures RowOf(s, nRows, nCols) < nRows && ColOf(s, nRows, nCols) < nCols
    ensures Source(RowOf(s, nRows, nCols), ColOf(s, nRows, nCols), nRows, nCols) == s
  {
    hide Inner, InnerRow, InnerCol, GroupOf, GroupStart;
    GroupExists(s, nRows, nCols);
    var g := GroupOf(s, nRows);
    var i, w := s - GroupStart(g, nRows), GroupWidth(g, nCols);
    PlaceBack(i, w, nRows);
    ColumnInGroup(g, InnerCol(i, w));
  }

  // -------------------------------------------------------------- whole row counts only

  /** Some cell is read from place `s`. */
  ghost predicate IsRead(s: nat, nRows: nat, nCols: nat) {
    exists row: nat, col: nat :: row < nRows && col < nCols && Source(row, col, nRows, nCols) == s
  }

  /** The first place past the last row of a partial tile, in a group of two columns or more. */
  lemma NotInner(row: nat, k: nat, w: nat, nRows: nat)
    requires 2 <= w <= TILE_WIDTH && k < w && row < nRows && nRows % TILE_HEIGHT != 0
    ensures Inner(row, k, w) != nRows / TILE_HEIGHT * w * TILE_HEIGHT + nRows % TILE_HEIGHT
    ensures nRows / TILE_HEIGHT * w * TILE_HEIGHT + nRows % TILE_HEIGHT < nRows * w
  {
    InnerBack(row, k, w);
    InnerBack(nRows, 0, w);
    TileSize(nRows / TILE_HEIGHT, w);
    GroupSize(nRows, w);
  }

  lemma GroupZeroOrLater(col: nat, nRows: nat, nCols: nat)
    requires col < nCols && nRows > 0
    ensures col < TILE_WIDTH ==> GroupStart(col / TILE_WIDTH, nRows) == 0
    ensures col >= TILE_WIDTH ==> GroupStart(col / TILE_WIDTH, nRows) >= nRows * GroupWidth(0, nCols)
  {
    GroupSteps(col / TILE_WIDTH, nRows, 0);
    if col >= TILE_WIDTH { MulMono(1, col / TILE_WIDTH, TILE_WIDTH * nRows); }
  }

  lemma PartialTileSkips(nRows: nat, nCols: nat)
    requires nRows % TILE_HEIGHT != 0 && nCols >= 2
    ensures exists s: nat :: s < nRows * nCols && !IsRead(s, nRows, nCols)
  {
    var w := GroupWidth(0, nCols);
    var s := nRows / TILE_HEIGHT * w * TILE_HEIGHT + nRows % TILE_HEIGHT;
    NotInner(0, 0, w, nRows);
    MulMono(w, nCols, nRows);
    forall row: nat, col: nat | row < nRows && col < nCols ensures Source(row, col, nRows, nCols) != s {
      GroupZeroOrLater(col, nRows, nCols);
      if col < TILE_WIDTH { NotInner(row, col, w, nRows); }
    }
    assert !IsRead(s, nRows, nCols);
  }

  lemma OneColumnReads(s: nat, nRows: nat)
    requires s < nRows
    ensures IsRead(s, nRows, 1)
  {
    assert Source(s, 0, nRows, 1) == s;
  }

  /** The whole buffer is read exactly when the tiles are whole, or there is at most one
      column and tiling moves nothing. */
  lemma ReadsWholeBuffer(nRows: nat, nCols: nat)
    ensures (forall s: nat | s < nRows * nCols :: IsRead(s, nRows, nCols))
       <==> (nRows % TILE_HEIGHT == 0 || nCols <= 1)
  {
    if nRows % TILE_HEIGHT == 0 && nRows > 0 {
      forall s: nat | s < nRows * nCols ensures IsRead(s, nRows, nCols) { CellOfPlace(s, nRows, nCols); }
    } else if nCols == 1 {
      forall s: nat | s < nRows * nCols ensures IsRead(s, nRows, nCols) { OneColumnReads(s, nRows); }
    } else if nRows > 0 && nCols > 0 {
      PartialTileSkips(nRows, nCols);
    }
  }

  // ------------------------------------------------------------------------ matrices

  /** A row-major matrix. */
  ghost predicate IsMatrix<T>(m: seq<seq<T>>, nRows: nat, nCols: nat) {
    |m| == nRows && forall r: nat {:trigger m[r]} | r < nRows :: |m[r]| == nCols
  }

  /** `tiled` is the device's form of `m`: each cell stored at its place. */
  ghost predicate IsTiling<T>(tiled: seq<T>, m: seq<seq<T>>, nRows: nat, nCols: nat)
    requires IsMatrix(m, nRows, nCols)
  {
    forall row: nat, col: nat {:trigger Source(row, col, nRows, nCols)} | row < nRows && col < nCols ::
      Source(row, col, nRows, nCols) < |tiled| && tiled[Source(row, col, nRows, nCols)] == m[row][col]
  }

  /** The cell, read back. */
  function Cell<T>(tiled: seq<T>, row: nat, col: nat, nRows: nat, nCols: nat, zero: T): T
    requires col < nCols
  {
    var s := Source(row, col, nRows, nCols);
    if s < |tiled| then tiled[s] else zero
  }

  /** Row `row`, read back. */
  function UntiledRow<T>(tiled: seq<T>, row: nat, nRows: nat, nCols: nat, zero: T): (r: seq<T>)
    ensures |r| == nCols
  {
    seq(nCols, (col: nat) requires col < nCols => Cell(tiled, row, col, nRows, nCols, zero))
  }

  function Untiled<T>(tiled: seq<T>, nRows: nat, nCols: nat, zero: T): (m: seq<seq<T>>)
    ensures |m| == nRows
  {
    seq(nRows, (row: nat) requires row < nRows => UntiledRow(tiled, row, nRows, nCols, zero))
  }

  /** The buffer of a matrix. */
  function Tiled<T>(m: seq<seq<T>>, nRows: nat, nCols: nat, zero: T): (tiled: seq<T>)
    requires nRows > 0
    ensures |tiled| == nRows * nCols
  {
    seq(nRows * nCols, (s: nat) requires s < nRows * nCols =>
      var r, c := RowOf(s, nRows, nCols), ColOf(s, nRows, nCols);
      if r < |m| && c < |m[r]| then m[r][c] else zero)
  }

  lemma TiledIsTiling<T>(m: seq<seq<T>>, nRows: nat, nCols: nat, zero: T)
    requires nRows > 0 && nRows % TILE_HEIGHT == 0 && IsMatrix(m, nRows, nCols)
    ensures IsTiling(Tiled(m, nRows, nCols, zero), m, nRows, nCols)
  {
    forall row: nat, col: nat {:trigger Source(row, col, nRows, nCols)} | row < nRows && col < nCols
      ensures Source(row, col, nRows, nCols) < nRows * nCols
      ensures Tiled(m, nRows, nCols, zero)[Source(row, col, nRows, nCols)] == m[row][col]
    {
      SourceInRange(row, col, nRows, nCols);
    }
  }

  /** Reading back any tiling of a matrix gives the matrix. */
  lemma UntileInvertsTile<T>(tiled: seq<T>, m: seq<seq<T>>, nRows: nat, nCols: nat, zero: T)
    requires IsMatrix(m, nRows, nCols) && IsTiling(tiled, m, nRows, nCols)
    ensures Untiled(tiled, nRows, nCols, zero) == m
  {
    forall row: nat | row < nRows ensures UntiledRow(tiled, row, nRows, nCols, zero) == m[row] {
      var r := UntiledRow(tiled, row, nRows, nCols, zero);
      assert |m[row]| == nCols;
      forall col: nat | col < nCols ensures r[col] == m[row][col] {
        assert Source(row, col, nRows, nCols) < |tiled|;
      }
    }
  }

  /** Every matrix with whole tiles comes back from its buffer. */
  lemma TileRoundTrips<T>(m: seq<seq<T>>, nRows: nat, nCols: nat, zero: T)
    requires nRows > 0 && nRows % TILE_HEIGHT == 0 && IsMatrix(m, nRows, nCols)
    ensures Untiled(Tiled(m, nRows, nCols, zero), nRows, nCols, zero) == m
  {
    TiledIsTiling(m, nRows, nCols, zero);
    UntileInvertsTile(Tiled(m, nRows, nCols, zero), m, nRows, nCols, zero);
  }

  /** And tiling again gives the buffer: nothing is lost either way. */
  lemma TileInvertsUntile<T>(tiled: seq<T>, nRows: nat, nCols: nat, zero: T)
    requires nRows > 0 && nRows % TILE_HEIGHT == 0 && |tiled| == nRows * nCols
    ensures Tiled(Untiled(tiled, nRows, nCols, zero), nRows, nCols, zero) == tiled
  {
    var m := Untiled(tiled, nRows, nCols, zero);
    forall s: nat | s < nRows * nCols ensures Tiled(m, nRows, nCols, zero)[s] == tiled[s] {
      CellOfPlace(s, nRows, nCols);
    }
  }

  /** `tiled_to_row_major`: the rows read back, for every number of threads and every
      order in which they finish. */
  method TiledToRowMajor<T>(tiled: seq<T>, nRows: nat, nCols: nat, zero: T, threads: nat, finish: seq<nat>) returns (out: array<seq<T>>)
    requires nRows % TILE_HEIGHT == 0 && |tiled| == nRows * nCols
    requires threads > 0 && forall i: nat :: i in finish <==> i < ParRows.ChunkCount(nRows, ParRows.RowsPer(nRows, threads))
    ensures out[..] == Untiled(tiled, nRows, nCols, zero)
    ensures forall row: nat, col: nat {:trigger Source(row, col, nRows, nCols)} | row < nRows && col < nCols ::
              && Source(row, col, nRows, nCols) < |tiled| && |out[row]| == nCols
              && out[row][col] == tiled[Source(row, col, nRows, nCols)]
  {
    forall row: nat, col: nat {:trigger Source(row, col, nRows, nCols)} | row < nRows && col < nCols
      ensures Source(row, col, nRows, nCols) < |tiled|
    {
      SourceInRange(row, col, nRows, nCols);
    }
    var f := (row: nat) => UntiledRow(tiled, row, nRows, nCols, zero);
    out := ParRows.Fill(nRows, [], threads, finish, f);
  }

  /** A group's block, as (tiles, columns, 256 rows). */
  function InBlock(row: nat, k: nat, w: nat): nat {
    (row / TILE_HEIGHT * w + k) * TILE_HEIGHT + row % TILE_HEIGHT
  }

  lemma InBlockIsInner(row: nat, k: nat, w: nat, nRows: nat)
    requires 1 <= w <= TILE_WIDTH && k < w && row < nRows && nRows % TILE_HEIGHT == 0
    ensures InBlock(row, k, w) == Inner(row, k, w) < nRows * w
  {
    InnerInRange(row, k, w, nRows);
    TileSize(row / TILE_HEIGHT, w);
    GroupSize(row / TILE_HEIGHT, w);
  }

  /** One block, transposed into columns `first`, `first + 1`, ... of `out`. */
  method CopyGroup<T>(block: seq<T>, w: nat, first: nat, out: array2<T>)
    requires 1 <= w <= TILE_WIDTH && out.Length0 % TILE_HEIGHT == 0
    requires |block| == out.Length0 * w && first + w <= out.Length1
    modifies out
    ensures forall row: nat, col: nat {:trigger out[row, col]} | row < out.Length0 && col < out.Length1 && !(first <= col < first + w) ::
              out[row, col] == old(out[row, col])
    ensures forall row: nat, col: nat {:trigger out[row, col]} | row < out.Length0 && first <= col < first + w ::
              InBlock(row, col - first, w) < |block| && out[row, col] == block[InBlock(row, col - first, w)]
  {
    forall row: nat, k: nat | row < out.Length0 && k < w ensures InBlock(row, k, w) < |block| {
      InBlockIsInner(row, k, w, out.Length0);
    }
    forall row: nat, col: nat | row < out.Length0 && first <= col < first + w {
      out[row, col] := block[InBlock(row, col - first, w)];
    }
  }

  lemma BlockCell<T>(flat: seq<T>, row: nat, g: nat, k: nat, nRows: nat, nCols: nat, zero: T)
    requires row < nRows && nRows % TILE_HEIGHT == 0 && |flat| == nRows * nCols
    requires TILE_WIDTH * g < nCols && k < GroupWidth(g, nCols)
    ensures var base, w := GroupStart(g, nRows), GroupWidth(g, nCols);
            && base + nRows * w <= |flat| && InBlock(row, k, w) < nRows * w
            && flat[base..base + nRows * w][InBlock(row, k, w)] == Cell(flat, row, TILE_WIDTH * g + k, nRows, nCols, zero)
  {
    var w := GroupWidth(g, nCols);
    InBlockIsInner(row, k, w, nRows);
    GroupSteps(g, nRows, w);
    MulMono(TILE_WIDTH * g + w, nCols, nRows);
    ColumnInGroup(g, k);
  }

  /** Where the next block starts. */
  function Base(g: nat, nRows: nat, nCols: nat): nat {
    if TILE_WIDTH * g < nCols then GroupStart(g, nRows) else nRows * nCols
  }

  lemma FirstBase(nRows: nat, nCols: nat)
    ensures Base(0, nRows, nCols) == 0
  {
  }

  lemma NextBase(g: nat, nRows: nat, nCols: nat)
    requires TILE_WIDTH * g < nCols
    ensures Base(g, nRows, nCols) == GroupStart(g, nRows)
    ensures Base(g, nRows, nCols) + nRows * GroupWidth(g, nCols) == Base(g + 1, nRows, nCols) <= nRows * nCols
  {
    if nRows > 0 {
      var w := GroupWidth(g, nCols);
      GroupSteps(g, nRows, w);
      MulMono(TILE_WIDTH * g + w, nCols, nRows);
    }
  }

  /** `untile_gpu`: one column group after another, each cut from the buffer as a block of
      its own and transposed into place. */
  method UntileGpu<T>(flat: seq<T>, nRows: nat, nCols: nat, zero: T) returns (out: array2<T>)
    requires nRows % TILE_HEIGHT == 0 && |flat| == nRows * nCols
    ensures out.Length0 == nRows && out.Length1 == nCols
    ensures forall row: nat, col: nat {:trigger out[row, col]} | row < nRows && col < nCols ::
              out[row, col] == Untiled(flat, nRows, nCols, zero)[row][col]
  {
    hide Cell, InBlock, Base, GroupStart;
    out := new T[nRows, nCols]((r, c) => zero);
    var base := 0;
    FirstBase(nRows, nCols);
    for g := 0 to (nCols + 3) / TILE_WIDTH
      invariant base == Base(g, nRows, nCols)
      invariant forall row: nat, col: nat {:trigger out[row, col]} | row < nRows && col < nCols && col < TILE_WIDTH * g ::
                  out[row, col] == Cell(flat, row, col, nRows, nCols, zero)
    {
      var ncb := GroupWidth(g, nCols);
      NextBase(g, nRows, nCols);
      forall row: nat, k: nat | row < nRows && k < ncb
        ensures InBlock(row, k, ncb) < nRows * ncb
        ensures flat[base..base + nRows * ncb][InBlock(row, k, ncb)] == Cell(flat, row, TILE_WIDTH * g + k, nRows, nCols, zero)
      {
        BlockCell(flat, row, g, k, nRows, nCols, zero);
      }
      CopyGroup(flat[base..base + nRows * ncb], ncb, TILE_WIDTH * g, out);
      base := base + nRows * ncb;
    }
  }
}
