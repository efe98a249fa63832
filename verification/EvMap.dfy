/** The evMap openings: base columns are opened as one block and extension
    columns as another, and the results scattered back into evMap order. */
module EvMap {
  import opened Fields
  import opened Lev

  /** One evMap entry: whether its column is a base-field one, and its opening point's index. */
  datatype Entry = Entry(isBase: bool, openingPos: nat)

  /** The indices from `i` on whose column kind is `kind`, ascending. */
  function Indices(entries: seq<Entry>, kind: bool, i: nat): seq<nat>
    requires i <= |entries|
    decreases |entries| - i
  {
    if i == |entries| then []
    else if entries[i].isBase == kind then [i] + Indices(entries, kind, i + 1)
    else Indices(entries, kind, i + 1)
  }

  /** Base columns first, then extension ones. */
  function Order(entries: seq<Entry>): seq<nat> {
    Indices(entries, true, 0) + Indices(entries, false, 0)
  }

  /** `s` lists, in ascending order, the entries of one kind from `i` on. */
  ghost predicate Ascending(entries: seq<Entry>, kind: bool, i: nat, s: seq<nat>) {
    && (forall k: nat {:trigger s[k]} | k < |s| :: i <= s[k] < |entries| && entries[s[k]].isBase == kind)
    && (forall k: nat, l: nat {:trigger s[k], s[l]} | k < l < |s| :: s[k] < s[l])
    && (forall j: nat {:trigger entries[j]} | i <= j < |entries| && entries[j].isBase == kind :: j in s)
  }

  lemma AscendingFront(entries: seq<Entry>, kind: bool, i: nat, rest: seq<nat>)
    requires i < |entries| && entries[i].isBase == kind && Ascending(entries, kind, i + 1, rest)
    ensures Ascending(entries, kind, i, [i] + rest)
  {
    var s := [i] + rest;
    forall k: nat, l: nat {:trigger s[k], s[l]} | k < l < |s| ensures s[k] < s[l] {
      assert s[l] == rest[l - 1];
      if k > 0 { assert s[k] == rest[k - 1]; }
    }
  }

  lemma {:induction false} IndicesAre(entries: seq<Entry>, kind: bool, i: nat)
    requires i <= |entries|
    ensures Ascending(entries, kind, i, Indices(entries, kind, i))
    decreases |entries| - i
  {
    if i < |entries| {
      IndicesAre(entries, kind, i + 1);
      if entries[i].isBase == kind { AscendingFront(entries, kind, i, Indices(entries, kind, i + 1)); }
    }
  }

  /** `o` lists each of `n` indices exactly once. */
  ghost predicate Permutation(o: seq<nat>, n: nat) {
    && (forall k: nat {:trigger o[k]} | k < |o| :: o[k] < n)
    && (forall k: nat, l: nat {:trigger o[k], o[l]} | k < |o| && l < |o| && k != l :: o[k] != o[l])
    && (forall i: nat | i < n :: i in o)
  }

  lemma OrderIsPermutation(entries: seq<Entry>)
    ensures Permutation(Order(entries), |entries|)
  {
    IndicesAre(entries, true, 0);
    IndicesAre(entries, false, 0);
    var a, b, o := Indices(entries, true, 0), Indices(entries, false, 0), Order(entries);
    forall k: nat {:trigger o[k]} | k < |o| ensures o[k] < |entries| && (entries[o[k]].isBase <==> k < |a|) {
      if k < |a| { assert o[k] == a[k]; } else { assert o[k] == b[k - |a|]; }
    }
    forall k: nat, l: nat {:trigger o[k], o[l]} | k < |o| && l < |o| && k != l ensures o[k] != o[l] {
      if k < |a| && l < |a| { assert o[k] == a[k] && o[l] == a[l]; }
      if k >= |a| && l >= |a| { assert o[k] == b[k - |a|] && o[l] == b[l - |a|]; }
    }
    forall i: nat | i < |entries| ensures i in o {
      assert entries[i].isBase || !entries[i].isBase;
      assert i in a || i in b;
    }
  }

  /** `out.at[order].set(values)`, one position after another. */
  function Scatter<T>(out: seq<T>, order: seq<nat>, values: seq<T>): (r: seq<T>)
    requires |order| == |values|
    ensures |r| == |out|
    decreases |order|
  {
    if |order| == 0 then out
    else
      var n := |order| - 1;
      var r := Scatter(out, order[..n], values[..n]);
      if order[n] < |r| then r[order[n] := values[n]] else r
  }

  lemma {:induction false} ScatterAt<T>(out: seq<T>, order: seq<nat>, values: seq<T>, k: nat)
    requires |order| == |values| && k < |order| && order[k] < |out|
    requires forall i: nat, j: nat {:trigger order[i], order[j]} | i < |order| && j < |order| && i != j :: order[i] != order[j]
    ensures Scatter(out, order, values)[order[k]] == values[k]
    decreases |order|
  {
    var n := |order| - 1;
    if k < n {
      ScatterAt(out, order[..n], values[..n], k);
      assert order[..n][k] == order[k] && values[..n][k] == values[k];
    }
  }

  /** The openings in the order the two blocks produce them. */
  function Split<T>(K: Field<T>, columns: seq<seq<T>>, entries: seq<Entry>, lev: seq<seq<T>>, stride: nat, order: seq<nat>): (s: seq<T>)
    requires |columns| == |entries|
    requires forall i: nat {:trigger entries[i]} | i < |entries| :: entries[i].openingPos < |lev|
    requires forall k: nat {:trigger order[k]} | k < |order| :: order[k] < |entries|
    ensures |s| == |order|
  {
    seq(|order|, (k: nat) requires k < |order| =>
      OpenColumn(K, lev[entries[order[k]].openingPos], columns[order[k]], stride))
  }

  function OpenEvMap<T>(K: Field<T>, columns: seq<seq<T>>, entries: seq<Entry>, lev: seq<seq<T>>, stride: nat): (r: seq<T>)
    requires |columns| == |entries|
    requires forall i: nat {:trigger entries[i]} | i < |entries| :: entries[i].openingPos < |lev|
    ensures |r| == |entries|
  {
    OrderIsPermutation(entries);
    var order := Order(entries);
    Scatter(seq(|entries|, (i: nat) => K.zero), order, Split(K, columns, entries, lev, stride, order))
  }

  /** Whatever the mix of column kinds, result `i` is entry `i`'s own column
      against its own opening point's vector. */
  lemma OpenEvMapInOrder<T>(K: Field<T>, columns: seq<seq<T>>, entries: seq<Entry>, lev: seq<seq<T>>, stride: nat, i: nat)
    requires |columns| == |entries| && i < |entries|
    requires forall i: nat {:trigger entries[i]} | i < |entries| :: entries[i].openingPos < |lev|
    ensures OpenEvMap(K, columns, entries, lev, stride)[i] == OpenColumn(K, lev[entries[i].openingPos], columns[i], stride)
  {
    OrderIsPermutation(entries);
    var order := Order(entries);
    assert i in order;
    var k: nat :| k < |order| && order[k] == i;
    ScatterAt(seq(|entries|, (i: nat) => K.zero), order, Split(K, columns, entries, lev, stride, order), k);
  }
}
