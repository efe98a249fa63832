/** The trace's low-degree extension, column block by column block, and its inverse. */
module TraceCommit {
  import opened Fields
  import opened Sums
  import opened Transforms
  import opened Polynomials
  import opened Cosets
  import opened ComputeQ

  // -------------------------------------------------------------- one column

  /** A column's coefficients, evaluated on the blown-up domain shifted by the coset generator. */
  function ExtendColumn<T>(D: Tower<T>, nb: nat, nbe: nat, col: seq<T>): (v: seq<T>)
    requires nb <= 32 && nbe <= 32
    ensures |v| == Exp2(nbe)
  {
    Ntt(D.K, Root(D, nbe), Exp2(nbe), ScaleCoefs(D.K, Intt(D.K, Root(D, nb), Exp2(nb), col), D.shift))
  }

  /** [shift^0, shift^-1, ..., shift^-(count - 1)] */
  function InvPowers<T>(D: Tower<T>, count: nat): (s: seq<T>)
    ensures |s| == count
  {
    seq(count, (k: nat) => Pow(D.K, D.K.inv(D.shift), k))
  }

  method ShiftInvPowers<T(!new)>(D: Tower<T>, count: nat) returns (out: array<T>)
    requires IsField(D.K)
    ensures out[..] == InvPowers(D, count)
  {
    var inv := D.K.inv(D.shift);
    out := new T[count]((i: nat) => D.K.one);
    var k := 1;
    while k < count
      invariant k >= 1
      invariant forall j: nat {:trigger out[j]} | j < k && j < count :: out[j] == Pow(D.K, inv, j)
    {
      MulComm(D.K, inv, out[k - 1]);
      out[k] := D.K.mul(out[k - 1], inv);
      k := k + 1;
    }
    assert forall j: nat | j < count :: out[..][j] == InvPowers(D, count)[j];
  }

  /** The base evaluations: the inverse transform's first N entries, unscaled, transformed back. */
  function UnextendColumn<T>(D: Tower<T>, nb: nat, nbe: nat, v: seq<T>): (col: seq<T>)
    requires nb <= nbe <= 32 && |v| == Exp2(nbe)
    ensures |col| == Exp2(nb)
  {
    Ntt(D.K, Root(D, nb), Exp2(nb), Unscaled(D.K, Intt(D.K, Root(D, nbe), Exp2(nbe), v), InvPowers(D, Exp2(nbe)), Exp2(nb)))
  }

  /** coeffs[:n] * powers[:n], entry by entry. */
  function Unscaled<T>(K: Field<T>, coeffs: seq<T>, powers: seq<T>, n: nat): (u: seq<T>)
    ensures |u| == n
  {
    seq(n, (k: nat) => K.mul(Coef(K, coeffs, k), Coef(K, powers, k)))
  }

  lemma Exp2Order(a: nat, b: nat)
    requires a <= b
    ensures Exp2(a) <= Exp2(b)
  {
    if a < b { Exp2Order(a, b - 1); }
  }

  lemma UnscaledPrefix<T(!new)>(K: Field<T>, coeffs: seq<T>, inv: T, powers: seq<T>, n: nat)
    requires n <= |coeffs| == |powers|
    requires forall k: nat {:trigger powers[k]} | k < |powers| :: powers[k] == Pow(K, inv, k)
    ensures Unscaled(K, coeffs, powers, n) == ScaleCoefs(K, coeffs, inv)[..n]
  {
    forall k: nat | k < n ensures Unscaled(K, coeffs, powers, n)[k] == ScaleCoefs(K, coeffs, inv)[..n][k] {
      assert Coef(K, powers, k) == powers[k] == Pow(K, inv, k) && Coef(K, coeffs, k) == coeffs[k];
      assert Unscaled(K, coeffs, powers, n)[k] == K.mul(coeffs[k], Pow(K, inv, k));
    }
  }

  lemma UnscaledIsInterpolant<T(!new)>(D: Tower<T>, nb: nat, nbe: nat, v: seq<T>)
    requires nb <= nbe <= 32 && |v| == Exp2(nbe) && Exp2(nb) <= Exp2(nbe)
    ensures Unscaled(D.K, Intt(D.K, Root(D, nbe), Exp2(nbe), v), InvPowers(D, Exp2(nbe)), Exp2(nb))
         == Interpolant(D, nbe, v)[..Exp2(nb)]
  {
    UnscaledPrefix(D.K, Intt(D.K, Root(D, nbe), Exp2(nbe), v), D.K.inv(D.shift), InvPowers(D, Exp2(nbe)), Exp2(nb));
  }

  /** The extension is the codeword of the polynomial of degree below N that takes
      the column's values on the subgroup. */
  lemma ExtendIsCodeword<T(!new)>(D: Tower<T>, nb: nat, nbe: nat, col: seq<T>)
    requires IsTower(D) && nb <= nbe <= 32 && |col| == Exp2(nb)
    ensures var p := Intt(D.K, Root(D, nb), Exp2(nb), col);
            && (forall i: nat {:trigger col[i]} | i < |col| :: Eval(D.K, p, Pow(D.K, Root(D, nb), i)) == col[i])
            && IsCodeword(D, nbe, nbe, p, ExtendColumn(D, nb, nbe, col))
  {
    var p := Intt(D.K, Root(D, nb), Exp2(nb), col);
    RootTransforms(D, nb);
    forall i: nat {:trigger col[i]} | i < |col| ensures Eval(D.K, p, Pow(D.K, Root(D, nb), i)) == col[i] {
      NttOfInttAt(D.K, Root(D, nb), Exp2(nb), col, i);
      assert col[i] == Coef(D.K, col, i);
    }
    TopShift(D, nbe);
    CodewordIsNtt(D, nbe, nbe, p, ExtendColumn(D, nb, nbe, col));
  }

  lemma PaddedPrefix<T(!new)>(K: Field<T>, p: seq<T>, n: nat)
    requires |p| <= n
    ensures Padded(K, p, n)[..|p|] == p && DegreeBelow(K, p, n) && DegreeBelow(K, Padded(K, p, n), |p|)
  {
  }

  /** `unextend` undoes `extend`. */
  lemma UnextendOfExtend<T(!new)>(D: Tower<T>, nb: nat, nbe: nat, col: seq<T>)
    requires IsTower(D) && nb <= nbe <= 32 && |col| == Exp2(nb)
    ensures UnextendColumn(D, nb, nbe, ExtendColumn(D, nb, nbe, col)) == col
  {
    var p := Intt(D.K, Root(D, nb), Exp2(nb), col);
    var v := ExtendColumn(D, nb, nbe, col);
    Exp2Order(nb, nbe);
    ExtendIsCodeword(D, nb, nbe, col);
    PaddedPrefix(D.K, p, Exp2(nbe));
    InterpolantOfCodeword(D, nbe, p, v);
    UnscaledIsInterpolant(D, nb, nbe, v);
    RootTransforms(D, nb);
    NttOfIntt(D.K, Root(D, nb), Exp2(nb), col);
  }

  /** Extending what `unextend` gives back is evaluating the first N coefficients. */
  lemma ExtendOfUnextendIsCut<T(!new)>(D: Tower<T>, nb: nat, nbe: nat, v: seq<T>)
    requires IsTower(D) && nb <= nbe <= 32 && |v| == Exp2(nbe) && Exp2(nb) <= Exp2(nbe)
    ensures IsCodeword(D, nbe, nbe, Interpolant(D, nbe, v)[..Exp2(nb)], ExtendColumn(D, nb, nbe, UnextendColumn(D, nb, nbe, v)))
  {
    UnscaledIsInterpolant(D, nb, nbe, v);
    RootTransforms(D, nb);
    InttOfNtt(D.K, Root(D, nb), Exp2(nb), Interpolant(D, nbe, v)[..Exp2(nb)]);
    ExtendIsCodeword(D, nb, nbe, UnextendColumn(D, nb, nbe, v));
  }

  /** `extend` undoes `unextend` exactly on genuine extensions: the values whose
      coefficients at and above N vanish. */
  lemma ExtendOfUnextend<T(!new)>(D: Tower<T>, nb: nat, nbe: nat, v: seq<T>)
    requires IsTower(D) && nb <= nbe <= 32 && |v| == Exp2(nbe)
    ensures ExtendColumn(D, nb, nbe, UnextendColumn(D, nb, nbe, v)) == v <==> DegreeBelow(D.K, Interpolant(D, nbe, v), Exp2(nb))
  {
    Exp2Order(nb, nbe);
    ExtendOfUnextendIsCut(D, nb, nbe, v);
    CodewordUnique(D, nbe, Interpolant(D, nbe, v)[..Exp2(nb)], ExtendColumn(D, nb, nbe, UnextendColumn(D, nb, nbe, v)), v);
    CutIsCodeword(D, nbe, v, Exp2(nb));
  }

  // ---------------------------------------------------------------- blocking

  const FIELD_BYTES := 8

  /** Columns per block: as many as `blockBytes` of the extended domain holds, at
      least one and never more than the section has (unless it has none). */
  function BlockCols(extRows: nat, nCols: nat, blockBytes: int): (cols: nat)
    requires extRows > 0
    ensures 1 <= cols && (nCols > 0 ==> cols <= nCols)
    ensures cols > 1 ==> cols * (extRows * FIELD_BYTES) <= blockBytes
    ensures 1 <= nCols && (cols < nCols) ==> blockBytes < (cols + 1) * (extRows * FIELD_BYTES)
  {
    var perCol := extRows * FIELD_BYTES;
    QuotientBounds(blockBytes, perCol);
    var fits := blockBytes / perCol;
    var least := if nCols < fits then nCols else fits;
    if least < 1 then
      FewerFit(fits, least, perCol);
      1
    else
      FewerFit(fits, least, perCol);
      least
  }

  lemma QuotientBounds(a: int, b: nat)
    requires b > 0
    ensures (a / b) * b <= a < (a / b + 1) * b
  {
    assert a == (a / b) * b + a % b;
    assert (a / b + 1) * b == (a / b) * b + b;
  }

  lemma FewerFit(fits: int, cols: int, perCol: nat)
    requires cols <= fits
    ensures cols * perCol <= fits * perCol
    ensures fits < 1 ==> (fits + 1) * perCol <= 2 * perCol
  {
    assert (fits - cols) * perCol >= 0;
    if fits < 1 { assert (1 - fits) * perCol >= 0; }
  }

  /** Every column extended on its own: the unblocked extension. */
  function Extended<T>(D: Tower<T>, nb: nat, nbe: nat, section: seq<seq<T>>): (out: seq<seq<T>>)
    requires nb <= 32 && nbe <= 32
    ensures |out| == |section|
  {
    seq(|section|, (c: nat) requires c < |section| => ExtendColumn(D, nb, nbe, section[c]))
  }

  /** One more block of columns put in place. */
  lemma BlockDone<T(!new)>(D: Tower<T>, nb: nat, nbe: nat, section: seq<seq<T>>, out: seq<seq<T>>, j: nat, end: nat)
    requires nb <= nbe <= 32 && |out| == |section| && j <= end <= |section|
    requires forall c: nat {:trigger out[c]} | c < j :: out[c] == ExtendColumn(D, nb, nbe, section[c])
    ensures var r := out[..j] + Extended(D, nb, nbe, section[j..end]) + out[end..];
            |r| == |section| && forall c: nat {:trigger r[c]} | c < end :: r[c] == ExtendColumn(D, nb, nbe, section[c])
  {
    hide ExtendColumn;
    var block := Extended(D, nb, nbe, section[j..end]);
    var r := out[..j] + block + out[end..];
    forall c: nat {:trigger r[c]} | c < end ensures r[c] == ExtendColumn(D, nb, nbe, section[c]) {
      if c < j { assert r[c] == out[c]; } else { assert r[c] == block[c - j] && section[j..end][c - j] == section[c]; }
    }
  }

  /** The blocked extension: whatever the block size, every block advances, the
      blocks cover each column once, and the result is the unblocked extension. */
  method ExtendBlocked<T(!new)>(D: Tower<T>, nb: nat, nbe: nat, section: seq<seq<T>>, blockBytes: int)
    returns (out: seq<seq<T>>)
    requires nb <= nbe <= 32
    ensures out == Extended(D, nb, nbe, section)
  {
    hide ExtendColumn, Exp2;
    var nCols := |section|;
    var cols := BlockCols(Exp2(nbe), nCols, blockBytes);
    if cols == nCols {
      return Extended(D, nb, nbe, section);
    }
    out := seq(nCols, (c: nat) => seq(Exp2(nbe), (r: nat) => D.K.zero));
    var j := 0;
    while j < nCols
      invariant j <= nCols || nCols == 0
      invariant |out| == nCols
      invariant forall c: nat {:trigger out[c]} | c < j && c < nCols :: out[c] == ExtendColumn(D, nb, nbe, section[c])
    {
      var end := if j + cols < nCols then j + cols else nCols;
      var block := Extended(D, nb, nbe, section[j..end]);
      BlockDone(D, nb, nbe, section, out, j, end);
      out := out[..j] + block + out[end..];
      j := end;
    }
  }

  method Unextend<T(!new)>(D: Tower<T>, nb: nat, nbe: nat, extended: seq<seq<T>>) returns (out: seq<seq<T>>)
    requires IsTower(D) && nb <= nbe <= 32
    requires forall c: nat {:trigger extended[c]} | c < |extended| :: |extended[c]| == Exp2(nbe)
    ensures |out| == |extended|
    ensures forall c: nat {:trigger out[c]} | c < |out| :: out[c] == UnextendColumn(D, nb, nbe, extended[c])
  {
    var powers := ShiftInvPowers(D, Exp2(nbe));
    var scale := powers[..];
    out := seq(|extended|, (c: nat) requires c < |extended| =>
      Ntt(D.K, Root(D, nb), Exp2(nb), Unscaled(D.K, Intt(D.K, Root(D, nbe), Exp2(nbe), extended[c]), scale, Exp2(nb))));
  }

  /** The round trip on whole sections, for every block size. */
  method RoundTrip<T(!new)>(D: Tower<T>, nb: nat, nbe: nat, section: seq<seq<T>>, blockBytes: int) returns (back: seq<seq<T>>)
    requires IsTower(D) && nb <= nbe <= 32
    requires forall c: nat {:trigger section[c]} | c < |section| :: |section[c]| == Exp2(nb)
    ensures back == section
  {
    var out := ExtendBlocked(D, nb, nbe, section, blockBytes);
    back := Unextend(D, nb, nbe, out);
    forall c: nat | c < |section| ensures back[c] == section[c] {
      UnextendOfExtend(D, nb, nbe, section[c]);
    }
  }
}
