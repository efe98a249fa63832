/** Bit-packed trace rows: fields of 1 to 64 bits, little-endian across a row's words. */
module Packing {
  import opened Arith
  import ParRows

  const P: nat := 0xFFFF_FFFF_0000_0001

  // ----------------------------------------------------------- shifts and masks

  /** x >> k */
  function Shr(x: nat, k: nat): nat { if k == 0 then x else Shr(x / 2, k - 1) }

  /** x & (2^k - 1) */
  function Low(x: nat, k: nat): nat { if k == 0 then 0 else x % 2 + 2 * Low(x / 2, k - 1) }

  /** x << k */
  function Shl(x: nat, k: nat): nat { if k == 0 then x else 2 * Shl(x, k - 1) }

  function Pow2(k: nat): (n: nat)
    ensures n > 0
  {
    if k == 0 then 1 else 2 * Pow2(k - 1)
  }

  /** Dividing by 2 p: halve, divide by p, and put the low bit back. */
  lemma HalveStep(x: nat, p: nat)
    requires p > 0
    ensures x / (2 * p) == (x / 2) / p && x % (2 * p) == 2 * ((x / 2) % p) + x % 2
  {
    var y := x / 2;
    var z, s := y / p, y % p;
    assert y == p * z + s;
    assert (2 * p) * z == 2 * (p * z);
    DivModUnique(x, 2 * p, z, 2 * s + x % 2);
  }

  lemma {:induction false} ShiftIsQuotient(x: nat, k: nat)
    ensures Shr(x, k) == x / Pow2(k) && Low(x, k) == x % Pow2(k)
    decreases k
  {
    if k > 0 {
      ShiftIsQuotient(x / 2, k - 1);
      HalveStep(x, Pow2(k - 1));
    }
  }

  lemma {:induction false} ShrTwice(x: nat, a: nat, b: nat)
    ensures Shr(Shr(x, a), b) == Shr(x, a + b)
    decreases a
  {
    if a > 0 { ShrTwice(x / 2, a - 1, b); }
  }

  lemma {:induction false} ShrZero(k: nat)
    ensures Shr(0, k) == 0 && Low(0, k) == 0
  {
    if k > 0 { ShrZero(k - 1); }
  }

  /** What is shifted up stays above a smaller shift down. */
  lemma {:induction false} ShrSum(u: nat, v: nat, n: nat, k: nat)
    requires k <= n
    ensures Shr(u + Shl(v, n), k) == Shr(u, k) + Shl(v, n - k)
    decreases k
  {
    if k > 0 {
      assert (u + 2 * Shl(v, n - 1)) / 2 == u / 2 + Shl(v, n - 1);
      ShrSum(u / 2, v, n - 1, k - 1);
    }
  }

  lemma {:induction false} LowSum(u: nat, v: nat, n: nat, k: nat)
    requires k <= n
    ensures Low(u + Shl(v, n), k) == Low(u, k)
    decreases k
  {
    if k > 0 {
      assert (u + 2 * Shl(v, n - 1)) / 2 == u / 2 + Shl(v, n - 1);
      LowSum(u / 2, v, n - 1, k - 1);
    }
  }

  /** A low part of `a` bits, then `m` bits of what is above. */
  lemma {:induction false} LowAcross(u: nat, v: nat, a: nat, m: nat)
    requires Shr(u, a) == 0
    ensures Low(u + Shl(v, a), a + m) == u + Shl(Low(v, m), a)
    decreases a
  {
    if a > 0 {
      assert (u + 2 * Shl(v, a - 1)) / 2 == u / 2 + Shl(v, a - 1);
      LowAcross(u / 2, v, a - 1, m);
    }
  }

  lemma {:induction false} LowWhole(u: nat, k: nat)
    requires Shr(u, k) == 0
    ensures Low(u, k) == u
    decreases k
  {
    if k > 0 { LowWhole(u / 2, k - 1); }
  }

  /** Cut, then what is left: the whole. */
  lemma {:induction false} Rejoin(x: nat, k: nat)
    ensures Low(x, k) + Shl(Shr(x, k), k) == x
    decreases k
  {
    if k > 0 { Rejoin(x / 2, k - 1); }
  }

  // -------------------------------------------------------------------- row words

  const BITS: nat := 64

  /** A machine word: nothing at or above bit 64. */
  predicate IsWord(x: nat) { Shr(x, BITS) == 0 }

  ghost predicate AreWords(src: seq<nat>) {
    forall i: nat {:trigger src[i]} | i < |src| :: IsWord(src[i])
  }

  /** A machine word as a residue. */
  function Reduce(w: nat): nat { if w >= P then w - P else w }

  lemma {:induction false} Pow2Add(a: nat, b: nat)
    ensures Pow2(a + b) == Pow2(a) * Pow2(b)
    decreases a
  {
    if a > 0 {
      Pow2Add(a - 1, b);
      assert Pow2(a) * Pow2(b) == 2 * (Pow2(a - 1) * Pow2(b));
    }
  }

  lemma Pow2Byte()
    ensures Pow2(8) == 256
  {
    assert Pow2(4) == 16;
    Pow2Add(4, 4);
  }

  lemma Pow2Known()
    ensures Pow2(BITS) == 0x1_0000_0000_0000_0000
  {
    hide Pow2;
    Pow2Byte();
    Pow2Add(8, 8);
    Pow2Add(16, 16);
    Pow2Add(32, 32);
  }

  lemma {:induction false} ShlIsProduct(x: nat, k: nat)
    ensures Shl(x, k) == x * Pow2(k)
  {
    if k > 0 {
      ShlIsProduct(x, k - 1);
      assert x * Pow2(k) == 2 * (x * Pow2(k - 1));
    }
  }

  /** The row's words are its integer's digits in base 2^64, first word lowest. */
  lemma RowIntDigits(src: seq<nat>)
    ensures RowInt(src) == if src == [] then 0 else src[0] + RowInt(src[1..]) * 0x1_0000_0000_0000_0000
  {
    if src != [] {
      ShlIsProduct(RowInt(src[1..]), BITS);
      Pow2Known();
    }
  }

  /** On a machine word the reduction is the remainder modulo P: a value below P is
      itself. */
  lemma ReduceIs(w: nat)
    requires w < 0x1_0000_0000_0000_0000
    ensures Reduce(w) == w % P && w % P < P && (w < P ==> w % P == w)
  {
  }

  lemma {:induction false} Pow2Mono(a: nat, b: nat)
    requires a <= b
    ensures Pow2(a) <= Pow2(b)
    decreases b
  {
    if a < b { Pow2Mono(a, b - 1); }
  }

  /** A field of at most 64 bits, as stored: the row's integer shifted down and cut, modulo P. */
  lemma FieldIs(src: seq<nat>, bits: seq<nat>, c: nat)
    requires c < |bits| && bits[c] <= BITS
    ensures Field(src, bits, c) == RowInt(src) / Pow2(Before(bits, c)) % Pow2(bits[c]) % P
  {
    BitsAreQuotient(RowInt(src), Before(bits, c), bits[c]);
    Pow2Known();
    Pow2Mono(bits[c], BITS);
    ReduceIs(Bits(RowInt(src), Before(bits, c), bits[c]));
  }

  /** The row's words as one integer, first word lowest. */
  function RowInt(src: seq<nat>): nat {
    if src == [] then 0 else src[0] + Shl(RowInt(src[1..]), BITS)
  }

  /** `width` bits of `x` from bit `at` on. */
  function Bits(x: nat, at: nat, width: nat): nat { Low(Shr(x, at), width) }

  /** In numbers: (x / 2^at) mod 2^width. */
  lemma BitsAreQuotient(x: nat, at: nat, width: nat)
    ensures Bits(x, at, width) == x / Pow2(at) % Pow2(width)
  {
    ShiftIsQuotient(x, at);
    ShiftIsQuotient(Shr(x, at), width);
  }

  /** The bits before field `c`. */
  function Before(bits: seq<nat>, c: nat): nat
    requires c <= |bits|
  {
    if c == 0 then 0 else Before(bits, c - 1) + bits[c - 1]
  }

  lemma {:induction false} BeforeMono(bits: seq<nat>, c: nat, d: nat)
    requires c <= d <= |bits|
    ensures Before(bits, c) <= Before(bits, d)
    decreases d
  {
    if c < d { BeforeMono(bits, c, d - 1); }
  }

  lemma NoShift(x: nat)
    ensures Shr(x, 0) == x && Shl(x, 0) == x
  {
  }

  lemma WordAt(src: seq<nat>, k: nat)
    requires AreWords(src) && k < |src|
    ensures Shr(src[k], BITS) == 0
  {
    assert IsWord(src[k]);
  }

  lemma TailHead(src: seq<nat>, k: nat)
    requires k < |src|
    ensures RowInt(src[k..]) == src[k] + Shl(RowInt(src[k + 1..]), BITS)
  {
    assert src[k..][1..] == src[k + 1..];
  }

  /** The words from `k` on are the integer without its lower words. */
  lemma {:induction false} TailInt(src: seq<nat>, k: nat, at: nat)
    requires k <= |src| && AreWords(src) && at == BITS * k
    ensures Shr(RowInt(src), at) == RowInt(src[k..])
    decreases k
  {
    hide Shr, Shl, RowInt;
    if k == 0 {
      NoShift(RowInt(src));
      assert src[0..] == src;
    } else {
      TailInt(src, k - 1, at - BITS);
      TailHead(src, k - 1);
      WordAt(src, k - 1);
      NoShift(RowInt(src[k..]));
      ShrSum(src[k - 1], RowInt(src[k..]), BITS, BITS);
      ShrTwice(RowInt(src), at - BITS, BITS);
    }
  }

  /** A field that ends inside word `k`. */
  lemma FieldInside(src: seq<nat>, k: nat, off: nat, width: nat, at: nat)
    requires k < |src| && AreWords(src) && off + width <= BITS && at == BITS * k
    ensures Bits(RowInt(src), at + off, width) == Low(Shr(src[k], off), width)
  {
    hide Shr, Shl, Low, RowInt, Pow2;
    var v := RowInt(src[k + 1..]);
    TailInt(src, k, at);
    TailHead(src, k);
    ShrTwice(RowInt(src), at, off);
    ShrSum(src[k], v, BITS, off);
    LowSum(Shr(src[k], off), v, BITS - off, width);
  }

  /** A field that runs from word `k` into word `k + 1`: `left` bits there, `more` here. */
  lemma FieldAcross(src: seq<nat>, k: nat, off: nat, left: nat, more: nat, at: nat)
    requires k + 1 < |src| && AreWords(src) && off + left == BITS && more <= BITS && at == BITS * k
    ensures Bits(RowInt(src), at + off, left + more) == Shr(src[k], off) + Shl(Low(src[k + 1], more), left)
  {
    hide Shr, Shl, Low, RowInt, Pow2;
    var v := RowInt(src[k + 1..]);
    TailInt(src, k, at);
    TailHead(src, k);
    ShrTwice(RowInt(src), at, off);
    ShrSum(src[k], v, BITS, off);
    ShrTwice(src[k], off, left);
    assert IsWord(src[k]);
    LowAcross(Shr(src[k], off), v, left, more);
    TailHead(src, k + 1);
    LowSum(src[k + 1], RowInt(src[k + 2..]), BITS, more);
  }

  // ------------------------------------------------------------------- unpacking

  ghost predicate Packed(src: seq<nat>, bits: seq<nat>) {
    && |src| > 0 && AreWords(src) && (forall c: nat {:trigger bits[c]} | c < |bits| :: 1 <= bits[c] <= BITS)
    && Before(bits, |bits|) <= BITS * |src|
  }

  /** Where the cursor stands before field `c`: never past the row, and at the end of a
      word only when it is the last. */
  ghost predicate Cursor(src: seq<nat>, bits: seq<nat>, c: nat, word: nat, off: nat)
    requires c <= |bits|
  {
    word < |src| && off <= BITS && BITS * word + off == Before(bits, c) && (off == BITS ==> word + 1 == |src|)
  }

  /** One field, and the cursor past it: the row is never read past its end. */
  method NextField(src: seq<nat>, bits: seq<nat>, c: nat, wordIdx: nat, bitOffset: nat) returns (val: nat, wordIdx': nat, bitOffset': nat)
    requires Packed(src, bits) && c < |bits| && Cursor(src, bits, c, wordIdx, bitOffset)
    ensures val == Bits(RowInt(src), Before(bits, c), bits[c])
    ensures Cursor(src, bits, c + 1, wordIdx', bitOffset')
  {
    var nbits := bits[c];
    var bitsLeft := BITS - bitOffset;
    var word := src[wordIdx];
    BeforeMono(bits, c + 1, |bits|);
    wordIdx' := wordIdx;
    if nbits <= bitsLeft {
      FieldInside(src, wordIdx, bitOffset, nbits, BITS * wordIdx);
      val := Low(Shr(word, bitOffset), nbits);
      bitOffset' := bitOffset + nbits;
      if bitOffset' == BITS && wordIdx + 1 < |src| {
        wordIdx' := wordIdx + 1;
        bitOffset' := 0;
      }
    } else {
      FieldAcross(src, wordIdx, bitOffset, bitsLeft, nbits - bitsLeft, BITS * wordIdx);
      var low := Shr(word, bitOffset);
      wordIdx' := wordIdx + 1;
      word := src[wordIdx'];
      var high := Low(word, nbits - bitsLeft);
      // the two parts share no bit, so joining them is adding them
      val := Shl(high, bitsLeft) + low;
      bitOffset' := nbits - bitsLeft;
    }
  }

  /** Field `c` of the row, as the column stores it. */
  function Field(src: seq<nat>, bits: seq<nat>, c: nat): nat
    requires c < |bits|
  {
    Reduce(Bits(RowInt(src), Before(bits, c), bits[c]))
  }

  /** The first `n` columns of the unpacked row. */
  function Columns(src: seq<nat>, bits: seq<nat>, n: nat): (row: seq<nat>)
    requires n <= |bits|
    ensures |row| == n
  {
    if n == 0 then [] else Columns(src, bits, n - 1) + [Field(src, bits, n - 1)]
  }

  function Unpacked(src: seq<nat>, bits: seq<nat>): seq<nat> { Columns(src, bits, |bits|) }

  lemma {:induction false} ColumnAt(src: seq<nat>, bits: seq<nat>, n: nat, c: nat)
    requires c < n <= |bits|
    ensures Columns(src, bits, n)[c] == Field(src, bits, c)
    decreases n
  {
    if c < n - 1 { ColumnAt(src, bits, n - 1, c); }
  }

  lemma UnpackedIs(src: seq<nat>, bits: seq<nat>)
    requires forall c: nat {:trigger bits[c]} | c < |bits| :: bits[c] <= BITS
    ensures |Unpacked(src, bits)| == |bits|
    ensures forall c: nat {:trigger bits[c]} | c < |bits| ::
              Unpacked(src, bits)[c] == RowInt(src) / Pow2(Before(bits, c)) % Pow2(bits[c]) % P
  {
    hide Field, RowInt, Pow2, Before;
    forall c: nat {:trigger bits[c]} | c < |bits|
      ensures Unpacked(src, bits)[c] == RowInt(src) / Pow2(Before(bits, c)) % Pow2(bits[c]) % P
    {
      ColumnAt(src, bits, |bits|, c);
      FieldIs(src, bits, c);
    }
  }

  /** `unpack_row`: column `c` of the output is the reduced value of its field. */
  method UnpackRow(src: seq<nat>, bits: seq<nat>, out: array<nat>)
    requires Packed(src, bits) && out.Length == |bits|
    modifies out
    ensures out[..] == Unpacked(src, bits)
    ensures forall c: nat {:trigger bits[c]} | c < |bits| :: out[c] == RowInt(src) / Pow2(Before(bits, c)) % Pow2(bits[c]) % P
  {
    var wordIdx, bitOffset := 0, 0;
    for c := 0 to |bits|
      invariant Cursor(src, bits, c, wordIdx, bitOffset)
      invariant out[..c] == Columns(src, bits, c)
    {
      var val;
      val, wordIdx, bitOffset := NextField(src, bits, c, wordIdx, bitOffset);
      out[c] := Reduce(val);
    }
    UnpackedIs(src, bits);
  }

  /** `unpack_trace`: each row unpacked on its own, for every number of threads and
      every order in which they finish. */
  method UnpackTrace(packed: seq<seq<nat>>, bits: seq<nat>, threads: nat, finish: seq<nat>) returns (out: array<seq<nat>>)
    requires threads > 0 && forall i: nat :: i in finish <==> i < ParRows.ChunkCount(|packed|, ParRows.RowsPer(|packed|, threads))
    ensures out.Length == |packed| && forall r: nat {:trigger out[r]} | r < |packed| :: out[r] == Unpacked(packed[r], bits)
    ensures (forall c: nat {:trigger bits[c]} | c < |bits| :: bits[c] <= BITS) ==>
      forall r: nat, c: nat {:trigger out[r], bits[c]} | r < |packed| && c < |bits| ::
        |out[r]| == |bits| && out[r][c] == RowInt(packed[r]) / Pow2(Before(bits, c)) % Pow2(bits[c]) % P
  {
    hide Unpacked, RowInt, Pow2, Before;
    if forall c: nat {:trigger bits[c]} | c < |bits| :: bits[c] <= BITS {
      forall r: nat {:trigger packed[r]} | r < |packed|
        ensures |Unpacked(packed[r], bits)| == |bits|
        ensures forall c: nat {:trigger bits[c]} | c < |bits| ::
                  Unpacked(packed[r], bits)[c] == RowInt(packed[r]) / Pow2(Before(bits, c)) % Pow2(bits[c]) % P
      {
        UnpackedIs(packed[r], bits);
      }
    }
    var f := (r: nat) => if r < |packed| then Unpacked(packed[r], bits) else [];
    out := ParRows.Fill(|packed|, [], threads, finish, f);
  }

  // ---------------------------------------------------------------------- packing

  /** pil2's packing: each field's value at its place, lowest first. */
  function PackInt(values: seq<nat>, bits: seq<nat>): nat
    requires |values| == |bits|
  {
    if values == [] then 0 else values[0] + Shl(PackInt(values[1..], bits[1..]), bits[0])
  }

  /** The low `n` words of an integer. */
  function WordsOf(x: nat, n: nat): (w: seq<nat>)
    ensures |w| == n
    decreases n
  {
    if n == 0 then [] else [Low(x, BITS)] + WordsOf(Shr(x, BITS), n - 1)
  }

  lemma {:induction false} WordsBack(x: nat, n: nat, top: nat)
    requires top == BITS * n && Shr(x, top) == 0
    ensures RowInt(WordsOf(x, n)) == x
    decreases n
  {
    if n > 0 {
      ShrTwice(x, BITS, top - BITS);
      WordsBack(Shr(x, BITS), n - 1, top - BITS);
      assert WordsOf(x, n)[1..] == WordsOf(Shr(x, BITS), n - 1);
      Rejoin(x, BITS);
    }
  }

  /** Each value is within its field. */
  ghost predicate Fits(values: seq<nat>, bits: seq<nat>) {
    |values| == |bits| && forall c: nat {:trigger values[c]} | c < |values| :: Shr(values[c], bits[c]) == 0
  }

  /** In numbers: value < 2^width. */
  lemma FitsIsBelow(value: nat, width: nat)
    ensures Shr(value, width) == 0 <==> value < Pow2(width)
  {
    ShiftIsQuotient(value, width);
    if value < Pow2(width) {
      DivModUnique(value, Pow2(width), 0, value);
    } else {
      assert value / Pow2(width) >= 1 by {
        DivOrder(Pow2(width), value, Pow2(width));
        DivModUnique(Pow2(width), Pow2(width), 1, 0);
      }
    }
  }

  lemma {:induction false} BeforeTail(bits: seq<nat>, c: nat)
    requires 0 < c <= |bits|
    ensures Before(bits, c) == bits[0] + Before(bits[1..], c - 1)
    decreases c
  {
    if c > 1 { BeforeTail(bits, c - 1); }
  }

  lemma FitsTail(values: seq<nat>, bits: seq<nat>)
    requires Fits(values, bits) && values != []
    ensures Fits(values[1..], bits[1..])
  {
    var vs := values[1..];
    assert forall c: nat {:trigger vs[c]} | c < |vs| :: vs[c] == values[c + 1];
  }

  /** Past its first field a packed row is the rest, packed. */
  lemma PackRest(values: seq<nat>, bits: seq<nat>)
    requires Fits(values, bits) && values != []
    ensures Shr(PackInt(values, bits), bits[0]) == PackInt(values[1..], bits[1..])
    ensures Low(PackInt(values, bits), bits[0]) == values[0]
  {
    hide Pow2, Shr, Shl, Low;
    var t := PackInt(values[1..], bits[1..]);
    NoShift(t);
    ShrSum(values[0], t, bits[0], bits[0]);
    LowSum(values[0], t, bits[0], bits[0]);
    LowWhole(values[0], bits[0]);
  }

  lemma {:induction false} PackBound(values: seq<nat>, bits: seq<nat>)
    requires Fits(values, bits)
    ensures Shr(PackInt(values, bits), Before(bits, |bits|)) == 0
    decreases |bits|
  {
    if values != [] {
      FitsTail(values, bits);
      PackBound(values[1..], bits[1..]);
      BeforeTail(bits, |bits|);
      PackRest(values, bits);
      ShrTwice(PackInt(values, bits), bits[0], Before(bits[1..], |bits| - 1));
    }
  }

  /** Field `c` of a packed row is the value packed there. */
  lemma {:induction false} PackField(values: seq<nat>, bits: seq<nat>, c: nat)
    requires Fits(values, bits) && c < |bits|
    ensures Bits(PackInt(values, bits), Before(bits, c), bits[c]) == values[c]
    decreases c
  {
    PackRest(values, bits);
    if c > 0 {
      FitsTail(values, bits);
      PackField(values[1..], bits[1..], c - 1);
      BeforeTail(bits, c);
      ShrTwice(PackInt(values, bits), bits[0], Before(bits[1..], c - 1));
    }
  }

  lemma ShrMore(x: nat, a: nat, b: nat)
    requires Shr(x, a) == 0 && a <= b
    ensures Shr(x, b) == 0
  {
    ShrTwice(x, a, b - a);
    ShrZero(b - a);
  }

  /** Unpacking inverts packing, up to the reduction of each value. */
  lemma UnpackInvertsPack(values: seq<nat>, bits: seq<nat>, wordsPerRow: nat)
    requires |values| == |bits| && forall c: nat {:trigger values[c]} | c < |values| :: values[c] < Pow2(bits[c])
    requires Before(bits, |bits|) <= BITS * wordsPerRow
    ensures Unpacked(WordsOf(PackInt(values, bits), wordsPerRow), bits)
         == seq(|values|, (c: nat) requires c < |values| => Reduce(values[c]))
    ensures forall c: nat {:trigger values[c]} | c < |values| && bits[c] <= BITS ::
              Unpacked(WordsOf(PackInt(values, bits), wordsPerRow), bits)[c] == values[c] % P
  {
    forall c: nat {:trigger values[c]} | c < |values| && bits[c] <= BITS ensures Reduce(values[c]) == values[c] % P {
      Pow2Known();
      Pow2Mono(bits[c], BITS);
      ReduceIs(values[c]);
    }
    forall c: nat {:trigger values[c]} | c < |values| ensures Shr(values[c], bits[c]) == 0 { FitsIsBelow(values[c], bits[c]); }
    var x := PackInt(values, bits);
    PackBound(values, bits);
    ShrMore(x, Before(bits, |bits|), BITS * wordsPerRow);
    WordsBack(x, wordsPerRow, BITS * wordsPerRow);
    forall c: nat | c < |values| ensures Unpacked(WordsOf(x, wordsPerRow), bits)[c] == Reduce(values[c]) {
      PackField(values, bits, c);
      ColumnAt(WordsOf(x, wordsPerRow), bits, |bits|, c);
    }
  }
}
