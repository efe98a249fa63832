/** The bridge's driver: one map of named buffers that each program reads from and
    writes into, with sections dropped after their last reader. */
module Driver {
  import opened AirPrograms
  import opened Replay
  import Wire

  // ------------------------------------------------------------ running a program

  /** `Artifact::run`: every declared input bound by name, or an error. */
  method RunProgram(m: Machine, p: Program, env: Env) returns (r: Wire.Result<seq<Words>>)
    ensures Bound(Inputs(m.air, p), env) ==> r == Wire.Ok(m.exec(p, Args(Inputs(m.air, p), env)))
    ensures !Bound(Inputs(m.air, p), env) ==> r == Wire.Err
  {
    var names := Inputs(m.air, p);
    var args: seq<Words> := [];
    for i := 0 to |names|
      invariant |args| == i
      invariant forall j: nat {:trigger names[j]} | j < i :: names[j] in env && args[j] == env[names[j]]
    {
      if names[i] !in env {
        return Wire.Err;
      }
      args := args + [env[names[i]]];
    }
    assert args == Args(names, env);
    r := Wire.Ok(m.exec(p, args));
  }

  /** A setup program's layers under the tree's own name. */
  function Renamed(n: Name, rename: bool): Name {
    if rename && n.SetupLayer? then Layer(n.tree, n.k) else n
  }

  function RenamedAll(names: seq<Name>, rename: bool): (r: seq<Name>)
    ensures |r| == |names|
  {
    seq(|names|, (i: nat) requires i < |names| => Renamed(names[i], rename))
  }

  lemma ZipNext(keys: seq<Name>, vals: seq<Words>, i: nat)
    requires i < |keys| == |vals|
    ensures Zip(keys[..i + 1], vals[..i + 1]) == Zip(keys[..i], vals[..i])[keys[i] := vals[i]]
  {
    assert keys[..i + 1][..i] == keys[..i] && vals[..i + 1][..i] == vals[..i];
  }

  lemma MergeUpdate(env: Env, z: Env, n: Name, v: Words)
    ensures env + z[n := v] == (env + z)[n := v]
  {
  }

  method InsertAll(env: Env, names: seq<Name>, vals: seq<Words>, rename: bool) returns (result: Env)
    requires |names| == |vals|
    ensures result == env + Zip(RenamedAll(names, rename), vals)
  {
    ghost var keys := RenamedAll(names, rename);
    result := env;
    for i := 0 to |names|
      invariant result == env + Zip(keys[..i], vals[..i])
    {
      ZipNext(keys, vals, i);
      MergeUpdate(env, Zip(keys[..i], vals[..i]), keys[i], vals[i]);
      result := result[Renamed(names[i], rename) := vals[i]];
    }
    assert keys[..|names|] == keys && vals[..|names|] == vals;
  }

  /** `run_into`: the outputs stored under their names. */
  method RunInto(m: Machine, p: Program, env: Env, rename: bool) returns (r: Wire.Result<Env>)
    requires ValidMachine(m)
    ensures Bound(Inputs(m.air, p), env) ==>
      && |m.exec(p, Args(Inputs(m.air, p), env))| == |Outputs(m.air, p)|
      && r == Wire.Ok(env + Zip(RenamedAll(Outputs(m.air, p), rename), m.exec(p, Args(Inputs(m.air, p), env))))
    ensures !Bound(Inputs(m.air, p), env) ==> r == Wire.Err
  {
    var outs := RunProgram(m, p, env);
    if outs.Err? {
      return Wire.Err;
    }
    var result := InsertAll(env, Outputs(m.air, p), outs.value, rename);
    r := Wire.Ok(result);
  }

  // ------------------------------------------------------------- what an env binds

  lemma CallAgrees(m: Machine, p: Program, kw: Env, env: Env)
    requires ValidMachine(m) && Bound(Inputs(m.air, p), kw) && Sub(kw, env)
    ensures Bound(Inputs(m.air, p), env) && Call(m, p, env) == Call(m, p, kw)
    ensures Args(Inputs(m.air, p), env) == Args(Inputs(m.air, p), kw)
  {
    ArgsAgree(Inputs(m.air, p), kw, env);
  }

  /** Output `i` of a run over `env`, as the replay's keyword call gives it. */
  lemma OutputAgrees(m: Machine, p: Program, kw: Env, env: Env, i: nat)
    requires ValidMachine(m) && Bound(Inputs(m.air, p), kw) && Sub(kw, env) && i < |Outputs(m.air, p)|
    ensures Bound(Inputs(m.air, p), env)
    ensures |m.exec(p, Args(Inputs(m.air, p), env))| == |Outputs(m.air, p)|
    ensures Outputs(m.air, p)[i] in Call(m, p, kw)
    ensures m.exec(p, Args(Inputs(m.air, p), env))[i] == Call(m, p, kw)[Outputs(m.air, p)[i]]
  {
    CallAgrees(m, p, kw, env);
    OutputAt(m, p, kw, i);
  }

  lemma SubMerge(a: Env, b: Env, env: Env)
    requires Sub(a, env) && Sub(b, env)
    ensures Sub(a + b, env)
  {
  }

  lemma NotRenamed(names: seq<Name>)
    ensures RenamedAll(names, false) == names
  {
  }

  ghost predicate Touches(n: Name, t: Tree) { n == Matrix(t) || (n.Layer? && n.tree == t) }

  /** A tree's section and layers are bound. */
  ghost predicate TreeIn(m: Machine, t: Tree, c: TreeData, env: Env) {
    Matrix(t) in env && env[Matrix(t)] == c.matrix && Sub(c.layers, env) && AllLayers(m.air, t, c.layers)
  }

  lemma TreeKept(m: Machine, t: Tree, c: TreeData, env: Env, env': Env)
    requires TreeIn(m, t, c, env)
    requires forall n: Name {:trigger n in env'} {:trigger n in env} :: Touches(n, t) && n in env ==> n in env' && env'[n] == env[n]
    ensures TreeIn(m, t, c, env')
  {
    assert Touches(Matrix(t), t);
    forall n: Name {:trigger n in c.layers} | n in c.layers ensures n in env' && env'[n] == c.layers[n] { assert Touches(n, t); }
  }

  lemma SetupNames(air: Air, t: Tree)
    ensures RenamedAll([Root(t), Matrix(t)] + SetupLayers(air, t), true) == [Root(t), Matrix(t)] + Layers(air, t)
    ensures Distinct([Root(t), Matrix(t)] + Layers(air, t)) && Distinct([Root(t), Matrix(t)] + SetupLayers(air, t))
  {
  }

  /** `front` two names, then a layer per level. */
  lemma LayerEntry(front: seq<Name>, depth: nat, f: nat -> Name, vals: seq<Words>, k: nat)
    requires |front| == 2 && k < depth && |vals| == 2 + depth && Distinct(front + UpTo(depth, f))
    ensures f(k) in Zip(front + UpTo(depth, f), vals) && Zip(front + UpTo(depth, f), vals)[f(k)] == vals[2 + k]
  {
    assert UpTo(depth, f)[k] == f(k);
    assert (front + UpTo(depth, f))[2 + k] == UpTo(depth, f)[k];
    ZipAt(front + UpTo(depth, f), vals, 2 + k);
  }

  lemma SetupLayerValue(air: Air, t: Tree, vals: seq<Words>, k: nat)
    requires k < air.depth(t) && |vals| == 2 + air.depth(t)
    ensures SetupLayer(t, k) in Zip([Root(t), Matrix(t)] + SetupLayers(air, t), vals)
    ensures Layer(t, k) in Zip([Root(t), Matrix(t)] + Layers(air, t), vals)
    ensures Zip([Root(t), Matrix(t)] + Layers(air, t), vals)[Layer(t, k)]
         == Zip([Root(t), Matrix(t)] + SetupLayers(air, t), vals)[SetupLayer(t, k)]
  {
    SetupNames(air, t);
    LayerEntry([Root(t), Matrix(t)], air.depth(t), (j: nat) => SetupLayer(t, j), vals, k);
    LayerEntry([Root(t), Matrix(t)], air.depth(t), (j: nat) => Layer(t, j), vals, k);
    assert SetupLayers(air, t) == UpTo(air.depth(t), (j: nat) => SetupLayer(t, j));
    assert Layers(air, t) == UpTo(air.depth(t), (j: nat) => Layer(t, j));
  }

  lemma SetupMatrixValue(air: Air, t: Tree, vals: seq<Words>)
    requires |vals| == 2 + air.depth(t)
    ensures Matrix(t) in Zip([Root(t), Matrix(t)] + SetupLayers(air, t), vals)
    ensures Matrix(t) in Zip([Root(t), Matrix(t)] + Layers(air, t), vals)
    ensures Zip([Root(t), Matrix(t)] + Layers(air, t), vals)[Matrix(t)]
         == Zip([Root(t), Matrix(t)] + SetupLayers(air, t), vals)[Matrix(t)]
  {
    var names, keys := [Root(t), Matrix(t)] + SetupLayers(air, t), [Root(t), Matrix(t)] + Layers(air, t);
    SetupNames(air, t);
    ZipAt(names, vals, 1);
    ZipAt(keys, vals, 1);
  }

  /** A setup program's renamed outputs bind its tree. */
  lemma SetupBinds(m: Machine, t: Tree, p: Program, env: Env, out: Env, vals: seq<Words>)
    requires Outputs(m.air, p) == [Root(t), Matrix(t)] + SetupLayers(m.air, t) && |vals| == |Outputs(m.air, p)|
    requires out == Zip(Outputs(m.air, p), vals)
    ensures Matrix(t) in out && AllLayers(m.air, t, LayersOf(out, t, m.air.depth(t)))
    ensures TreeIn(m, t, KeyTree(m, t, out), env + Zip([Root(t), Matrix(t)] + Layers(m.air, t), vals))
  {
    SetupMatrixValue(m.air, t, vals);
    SetupLayersAll(m, t, out, p);
    var layers, added := LayersOf(out, t, m.air.depth(t)), Zip([Root(t), Matrix(t)] + Layers(m.air, t), vals);
    forall n: Name {:trigger n in layers} | n in layers ensures n in added && added[n] == layers[n] {
      SetupLayerValue(m.air, t, vals, n.k);
    }
  }

  /** A commit program's outputs bind its tree and its root. */
  lemma CommitBinds(m: Machine, t: Tree, p: Program, env: Env, out: Env, vals: seq<Words>)
    requires IsCommit(m, t, p, out) && |vals| == |Outputs(m.air, p)| && out == Zip(Outputs(m.air, p), vals)
    ensures TreeIn(m, t, StageTree(m, t, p, out), env + out)
    ensures Root(t) in env + out && (env + out)[Root(t)] == out[Root(t)]
  {
  }

  // --------------------------------------------------------------- the resident key

  /** The key's base sections. */
  function BaseKw(m: Machine, key: Key): Env { CustomBaseKw(m, key)[Base(Const) := key.constBase] }

  /** The domain points, the inverse zerofier and the quotient's row windows. */
  ghost predicate TablesIn(m: Machine, env: Env)
    requires ValidMachine(m)
  {
    && Zi in env && env[Zi] == ZiOf(m) && Domain in env && env[Domain] == DomainOf(m)
    && (|m.air.quotientChunks| > 1 ==> RowsIn(m, env, |m.air.quotientChunks|))
  }

  ghost predicate RowsIn(m: Machine, env: Env, n: nat)
    requires n <= |m.air.quotientChunks|
  {
    forall k: nat {:trigger RowsOf(k)} | k < n :: RowsOf(k) in env && env[RowsOf(k)] == WindowRows(m, k)
  }

  function WindowRows(m: Machine, k: nat): Words
    requires k < |m.air.quotientChunks|
  {
    Range(WindowStart(m.air.quotientChunks, k), m.air.quotientChunks[k])
  }

  /** The first `n` custom commits' trees are bound, and the key's constant tree. */
  ghost predicate KeyTreesUpTo(m: Machine, key: Key, env: Env, n: nat)
    requires ValidMachine(m) && n <= |m.air.customs|
  {
    && TreeIn(m, Const, ConstTree(m, key), env)
    && forall i: nat {:trigger CustomIn(m, key, env, i)} | i < n :: CustomIn(m, key, env, i)
  }

  ghost predicate CustomIn(m: Machine, key: Key, env: Env, i: nat)
    requires ValidMachine(m) && i < |m.air.customs|
  {
    TreeIn(m, Custom(m.air.customs[i]), CustomTree(m, key, m.air.customs[i]), env)
  }

  ghost predicate KeyTrees(m: Machine, key: Key, env: Env)
    requires ValidMachine(m)
  {
    KeyTreesUpTo(m, key, env, |m.air.customs|)
  }

  /** A fixed set: all a prove reads of the key, and no instance's value. */
  ghost predicate FixedSet(m: Machine, key: Key, env: Env)
    requires ValidMachine(m)
  {
    TablesIn(m, env) && Sub(BaseKw(m, key), env) && KeyTrees(m, key, env) && AirgroupValue !in env
  }

  lemma ConstTreeIs(m: Machine, key: Key)
    requires ValidMachine(m)
    ensures Matrix(Const) in ConstOut(m, key) && ConstTree(m, key) == KeyTree(m, Const, ConstOut(m, key))
  {
    assert Outputs(m.air, ConstSetup)[1] == Matrix(Const);
  }

  lemma CustomTreeIs(m: Machine, key: Key, ci: nat)
    requires ValidMachine(m)
    ensures Matrix(Custom(ci)) in CustomOut(m, key, ci) && CustomTree(m, key, ci) == KeyTree(m, Custom(ci), CustomOut(m, key, ci))
  {
    assert Outputs(m.air, CustomSetup(ci))[1] == Matrix(Custom(ci));
  }

  /** Both bind this name alike, or neither binds it. */
  ghost predicate Same(n: Name, env: Env, env': Env) { (n in env <==> n in env') && (n in env ==> env'[n] == env[n]) }

  /** Only tree `t`'s names are bound anew. */
  ghost predicate OnlyTree(t: Tree, env: Env, env': Env) {
    forall n: Name {:trigger Same(n, env, env')} :: !Touches(n, t) && n != Root(t) ==> Same(n, env, env')
  }

  lemma TreeNames(air: Air, t: Tree, n: Name)
    requires n in [Root(t), Matrix(t)] + Layers(air, t) || n in [Matrix(t), Root(t)] + Layers(air, t)
    ensures Touches(n, t) || n == Root(t)
  {
    if n in Layers(air, t) {
      var k: nat :| k < air.depth(t) && Layers(air, t)[k] == n;
    }
  }

  lemma TreeAdded(air: Air, t: Tree, names: seq<Name>, vals: seq<Words>, env: Env)
    requires names == [Root(t), Matrix(t)] + Layers(air, t) || names == [Matrix(t), Root(t)] + Layers(air, t)
    requires |vals| == |names|
    ensures OnlyTree(t, env, env + Zip(names, vals))
  {
    forall n: Name {:trigger Same(n, env, env + Zip(names, vals))} | !Touches(n, t) && n != Root(t)
      ensures Same(n, env, env + Zip(names, vals))
    {
      if n in names { TreeNames(air, t, n); }
    }
  }

  /** A setup program over `env`: its tree bound, everything else as it was. */
  method RunSetup(m: Machine, t: Tree, p: Program, ghost kw: Env, env: Env) returns (r: Env)
    requires ValidMachine(m) && Bound(Inputs(m.air, p), kw) && Sub(kw, env)
    requires Outputs(m.air, p) == [Root(t), Matrix(t)] + SetupLayers(m.air, t)
    ensures Matrix(t) in Call(m, p, kw) && TreeIn(m, t, KeyTree(m, t, Call(m, p, kw)), r) && OnlyTree(t, env, r)
  {
    CallAgrees(m, p, kw, env);
    var up := RunInto(m, p, env, true);
    ghost var vals := m.exec(p, Args(Inputs(m.air, p), env));
    SetupNames(m.air, t);
    SetupBinds(m, t, p, env, Call(m, p, kw), vals);
    TreeAdded(m.air, t, [Root(t), Matrix(t)] + Layers(m.air, t), vals, env);
    r := up.value;
  }

  method SetConstTree(m: Machine, key: Key, env: Env) returns (r: Env)
    requires ValidMachine(m) && Base(Const) in env && env[Base(Const)] == key.constBase
    ensures TreeIn(m, Const, ConstTree(m, key), r) && OnlyTree(Const, env, r)
  {
    ConstTreeIs(m, key);
    r := RunSetup(m, Const, ConstSetup, map[Base(Const) := key.constBase], env);
  }

  method SetCustomTree(m: Machine, key: Key, env: Env, ci: nat) returns (r: Env)
    requires ValidMachine(m) && Base(Custom(ci)) in env && env[Base(Custom(ci))] == key.customBase(ci)
    ensures TreeIn(m, Custom(ci), CustomTree(m, key, ci), r) && OnlyTree(Custom(ci), env, r)
  {
    CustomTreeIs(m, key, ci);
    r := RunSetup(m, Custom(ci), CustomSetup(ci), map[Base(Custom(ci)) := key.customBase(ci)], env);
  }

  /** `constants`: the tables every prove reads. */
  method SetTables(m: Machine) returns (r: Env)
    requires ValidMachine(m)
    ensures Zi in r && r[Zi] == ZiOf(m) && Domain in r && r[Domain] == DomainOf(m)
    ensures forall n: Name :: n in r ==> n == Zi || n == Domain
  {
    var env: Env := map[];
    var up := RunInto(m, Constants, env, false);
    OutputAgrees(m, Constants, map[], env, 0);
    OutputAgrees(m, Constants, map[], env, 1);
    NotRenamed(Outputs(m.air, Constants));
    CallAgrees(m, Constants, map[], env);
    r := up.value;
    assert r == ConstsOut(m);
  }

  lemma OtherTreeKept(m: Machine, t: Tree, c: TreeData, other: Tree, env: Env, env': Env)
    requires TreeIn(m, t, c, env) && OnlyTree(other, env, env') && t != other
    ensures TreeIn(m, t, c, env')
  {
    forall n: Name {:trigger n in env'} {:trigger n in env} | Touches(n, t) && n in env ensures n in env' && env'[n] == env[n] {
      assert Same(n, env, env');
    }
    TreeKept(m, t, c, env, env');
  }

  /** No tree's section or layer changes. */
  ghost predicate TreesSame(env: Env, env': Env) {
    forall n: Name {:trigger Same(n, env, env')} :: n.Matrix? || n.Layer? ==> Same(n, env, env')
  }

  lemma TreeSame(m: Machine, t: Tree, c: TreeData, env: Env, env': Env)
    requires TreeIn(m, t, c, env) && TreesSame(env, env')
    ensures TreeIn(m, t, c, env')
  {
    forall n: Name {:trigger n in env'} {:trigger n in env} | Touches(n, t) && n in env ensures n in env' && env'[n] == env[n] {
      assert Same(n, env, env');
    }
    TreeKept(m, t, c, env, env');
  }

  lemma KeyTreesSame(m: Machine, key: Key, env: Env, env': Env, n: nat)
    requires ValidMachine(m) && n <= |m.air.customs| && KeyTreesUpTo(m, key, env, n) && TreesSame(env, env')
    ensures KeyTreesUpTo(m, key, env', n)
  {
    TreeSame(m, Const, ConstTree(m, key), env, env');
    forall i: nat {:trigger CustomIn(m, key, env', i)} | i < n ensures CustomIn(m, key, env', i) {
      assert CustomIn(m, key, env, i);
      TreeSame(m, Custom(m.air.customs[i]), CustomTree(m, key, m.air.customs[i]), env, env');
    }
  }

  lemma InsertSame(env: Env, n: Name, v: Words)
    requires !n.Matrix? && !n.Layer?
    ensures TreesSame(env, env[n := v])
  {
    var env' := env[n := v];
    forall k: Name {:trigger Same(k, env, env')} | k.Matrix? || k.Layer? ensures Same(k, env, env') {
      assert k != n;
    }
  }

  lemma CustomKept(m: Machine, key: Key, env: Env, env': Env, n: nat, i: nat)
    requires ValidMachine(m) && ValidAir(m.air) && i < n < |m.air.customs|
    requires OnlyTree(Custom(m.air.customs[n]), env, env') && CustomIn(m, key, env, i)
    ensures CustomIn(m, key, env', i)
  {
    assert m.air.customs[i] < m.air.customs[n];
    OtherTreeKept(m, Custom(m.air.customs[i]), CustomTree(m, key, m.air.customs[i]), Custom(m.air.customs[n]), env, env');
  }

  lemma CustomsKept(m: Machine, key: Key, env: Env, env': Env, n: nat)
    requires ValidMachine(m) && ValidAir(m.air) && n < |m.air.customs| && KeyTreesUpTo(m, key, env, n)
    requires OnlyTree(Custom(m.air.customs[n]), env, env')
    ensures forall i: nat {:trigger CustomIn(m, key, env', i)} | i < n :: CustomIn(m, key, env', i)
  {
    forall i: nat {:trigger CustomIn(m, key, env', i)} | i < n ensures CustomIn(m, key, env', i) {
      assert CustomIn(m, key, env, i);
      CustomKept(m, key, env, env', n, i);
    }
  }

  lemma KeyTreesNext(m: Machine, key: Key, env: Env, env': Env, n: nat)
    requires ValidMachine(m) && ValidAir(m.air) && n < |m.air.customs| && KeyTreesUpTo(m, key, env, n)
    requires OnlyTree(Custom(m.air.customs[n]), env, env') && CustomIn(m, key, env', n)
    ensures KeyTreesUpTo(m, key, env', n + 1)
  {
    ConstKept(m, key, env, env', n);
    CustomsKept(m, key, env, env', n);
  }

  lemma ConstKept(m: Machine, key: Key, env: Env, env': Env, n: nat)
    requires ValidMachine(m) && n < |m.air.customs| && OnlyTree(Custom(m.air.customs[n]), env, env')
    requires TreeIn(m, Const, ConstTree(m, key), env)
    ensures TreeIn(m, Const, ConstTree(m, key), env')
  {
    OtherTreeKept(m, Const, ConstTree(m, key), Custom(m.air.customs[n]), env, env');
  }

  /** The first `n` custom base sections, and the constant one. */
  ghost predicate BasesUpTo(m: Machine, key: Key, env: Env, n: nat)
    requires n <= |m.air.customs|
  {
    && Base(Const) in env && env[Base(Const)] == key.constBase
    && forall i: nat {:trigger m.air.customs[i]} | i < n ::
         Base(Custom(m.air.customs[i])) in env && env[Base(Custom(m.air.customs[i]))] == key.customBase(m.air.customs[i])
  }

  lemma BasesAreKw(m: Machine, key: Key, env: Env)
    requires BasesUpTo(m, key, env, |m.air.customs|)
    ensures Sub(BaseKw(m, key), env)
  {
    forall n: Name {:trigger n in BaseKw(m, key)} | n in BaseKw(m, key) ensures n in env && env[n] == BaseKw(m, key)[n] {
      if n != Base(Const) {
        var i: nat :| i < |m.air.customs| && m.air.customs[i] == n.tree.id;
      }
    }
  }

  ghost predicate SetUpTo(m: Machine, key: Key, env: Env, n: nat)
    requires ValidMachine(m) && n <= |m.air.customs|
  {
    && Zi in env && env[Zi] == ZiOf(m) && Domain in env && env[Domain] == DomainOf(m)
    && BasesUpTo(m, key, env, n) && KeyTreesUpTo(m, key, env, n) && AirgroupValue !in env
  }

  /** One custom commit's setup, in the loop of `set_fixed`. */
  method SetCustom(m: Machine, key: Key, env: Env, i: nat) returns (r: Env)
    requires ValidMachine(m) && ValidAir(m.air) && i < |m.air.customs| && SetUpTo(m, key, env, i)
    ensures SetUpTo(m, key, r, i + 1)
  {
    var ci := m.air.customs[i];
    var base := env[Base(Custom(ci)) := key.customBase(ci)];
    InsertSame(env, Base(Custom(ci)), key.customBase(ci));
    KeyTreesSame(m, key, env, base, i);
    r := SetCustomTree(m, key, base, ci);
    KeyTreesNext(m, key, base, r, i);
    SetCustomKeeps(m, key, env, base, r, i);
  }

  lemma SetCustomKeeps(m: Machine, key: Key, env: Env, base: Env, r: Env, i: nat)
    requires ValidMachine(m) && ValidAir(m.air) && i < |m.air.customs| && SetUpTo(m, key, env, i)
    requires base == env[Base(Custom(m.air.customs[i])) := key.customBase(m.air.customs[i])]
    requires OnlyTree(Custom(m.air.customs[i]), base, r)
    ensures Zi in r && r[Zi] == ZiOf(m) && Domain in r && r[Domain] == DomainOf(m) && AirgroupValue !in r
    ensures BasesUpTo(m, key, r, i + 1)
  {
    hide ValidMachine, KeyTreesUpTo, ValidAir, ZiOf, DomainOf;
    assert Same(Zi, base, r) && Same(Domain, base, r) && Same(AirgroupValue, base, r) && Same(Base(Const), base, r);
    forall j: nat {:trigger m.air.customs[j]} | j < i + 1
      ensures Base(Custom(m.air.customs[j])) in r && r[Base(Custom(m.air.customs[j]))] == key.customBase(m.air.customs[j])
    {
      assert Same(Base(Custom(m.air.customs[j])), base, r);
    }
  }

  /** The row windows, resident beside the key: only when there are several. */
  method SetRows(m: Machine, env: Env) returns (r: Env)
    requires ValidMachine(m)
    ensures |m.air.quotientChunks| > 1 ==> RowsIn(m, r, |m.air.quotientChunks|)
    ensures forall n: Name :: !n.RowsOf? ==> Same(n, env, r)
  {
    r := env;
    if |m.air.quotientChunks| > 1 {
      var start := 0;
      for k := 0 to |m.air.quotientChunks|
        invariant start == WindowStart(m.air.quotientChunks, k)
        invariant RowsIn(m, r, k)
        invariant forall n: Name :: !n.RowsOf? ==> Same(n, env, r)
      {
        r := r[RowsOf(k) := Range(start, m.air.quotientChunks[k])];
        start := start + m.air.quotientChunks[k];
      }
    }
  }

  lemma SetStarts(m: Machine, key: Key, tables: Env, env: Env)
    requires ValidMachine(m) && Zi in tables && tables[Zi] == ZiOf(m) && Domain in tables && tables[Domain] == DomainOf(m)
    requires AirgroupValue !in tables && TreeIn(m, Const, ConstTree(m, key), env)
    requires OnlyTree(Const, tables[Base(Const) := key.constBase], env)
    ensures SetUpTo(m, key, env, 0)
  {
    hide ValidMachine, TreeIn, ZiOf, DomainOf, ConstTree;
    var base := tables[Base(Const) := key.constBase];
    assert Same(Zi, base, env) && Same(Domain, base, env) && Same(AirgroupValue, base, env) && Same(Base(Const), base, env);
  }

  /** `set_fixed`: the setup programs over the key's sections. */
  method BuildFixed(m: Machine, key: Key) returns (env: Env)
    requires ValidMachine(m) && ValidAir(m.air)
    ensures FixedSet(m, key, env)
  {
    hide ValidMachine, FixedSet, KeyTreesUpTo, OnlyTree, TreeIn;
    var tables := SetTables(m);
    var base := tables[Base(Const) := key.constBase];
    env := SetConstTree(m, key, base);
    SetStarts(m, key, tables, env);
    for i := 0 to |m.air.customs|
      invariant SetUpTo(m, key, env, i)
    {
      env := SetCustom(m, key, env, i);
    }
    BasesAreKw(m, key, env);
    ghost var before := env;
    env := SetRows(m, env);
    RowsKeepFixed(m, key, before, env);
  }

  lemma RowsKeepFixed(m: Machine, key: Key, env: Env, r: Env)
    requires ValidMachine(m) && SetUpTo(m, key, env, |m.air.customs|) && Sub(BaseKw(m, key), env)
    requires |m.air.quotientChunks| > 1 ==> RowsIn(m, r, |m.air.quotientChunks|)
    requires forall n: Name :: !n.RowsOf? ==> Same(n, env, r)
    ensures FixedSet(m, key, r)
  {
    hide ValidMachine;
    KeyTreesSame(m, key, env, r, |m.air.customs|);
    assert Same(Zi, env, r) && Same(Domain, env, r) && Same(AirgroupValue, env, r);
    forall n: Name {:trigger n in BaseKw(m, key)} | n in BaseKw(m, key) ensures n in r && r[n] == BaseKw(m, key)[n] {
      assert Same(n, env, r);
    }
  }

  // ------------------------------------------------------------- what stays bound

  /** The names of the key that every prove reads after stage 1. */
  ghost predicate KeyName(n: Name) {
    n.Zi? || n.Domain? || n.RowsOf? || ((n.Matrix? || n.Layer?) && (n.tree.Const? || n.tree.Custom?))
  }

  ghost predicate KeySame(env: Env, env': Env) {
    forall n: Name {:trigger Same(n, env, env')} :: KeyName(n) ==> Same(n, env, env')
  }

  ghost predicate Carry(m: Machine, key: Key, env: Env)
    requires ValidMachine(m)
  {
    TablesIn(m, env) && KeyTrees(m, key, env)
  }

  /** A tree stays bound when each of its names stays as it was. */
  lemma KeyTreeSame(m: Machine, t: Tree, c: TreeData, env: Env, env': Env)
    requires TreeIn(m, t, c, env) && KeySame(env, env') && (t.Const? || t.Custom?)
    ensures TreeIn(m, t, c, env')
  {
    forall n: Name {:trigger n in env'} {:trigger n in env} | Touches(n, t) && n in env ensures n in env' && env'[n] == env[n] {
      assert Same(n, env, env');
    }
    TreeKept(m, t, c, env, env');
  }

  lemma TablesSame(m: Machine, env: Env, env': Env)
    requires ValidMachine(m) && TablesIn(m, env) && KeySame(env, env')
    ensures TablesIn(m, env')
  {
    assert Same(Zi, env, env') && Same(Domain, env, env');
    if |m.air.quotientChunks| > 1 {
      forall k: nat {:trigger RowsOf(k)} | k < |m.air.quotientChunks|
        ensures RowsOf(k) in env' && env'[RowsOf(k)] == WindowRows(m, k)
      {
        assert Same(RowsOf(k), env, env');
      }
    }
  }

  lemma CustomsSame(m: Machine, key: Key, env: Env, env': Env)
    requires ValidMachine(m) && KeyTrees(m, key, env) && KeySame(env, env')
    ensures KeyTrees(m, key, env')
  {
    KeyTreeSame(m, Const, ConstTree(m, key), env, env');
    forall i: nat {:trigger CustomIn(m, key, env', i)} | i < |m.air.customs| ensures CustomIn(m, key, env', i) {
      assert CustomIn(m, key, env, i);
      KeyTreeSame(m, Custom(m.air.customs[i]), CustomTree(m, key, m.air.customs[i]), env, env');
    }
  }

  lemma CarryKept(m: Machine, key: Key, env: Env, env': Env)
    requires ValidMachine(m) && Carry(m, key, env) && KeySame(env, env')
    ensures Carry(m, key, env')
  {
    TablesSame(m, env, env');
    CustomsSame(m, key, env, env');
  }

  lemma InsertKeySame(env: Env, n: Name, v: Words)
    requires !KeyName(n)
    ensures KeySame(env, env[n := v])
  {
    forall k: Name {:trigger Same(k, env, env[n := v])} | KeyName(k) ensures Same(k, env, env[n := v]) { assert k != n; }
  }

  lemma OnlyTreeKeySame(t: Tree, env: Env, env': Env)
    requires OnlyTree(t, env, env') && !t.Const? && !t.Custom?
    ensures KeySame(env, env')
  {
  }

  // --------------------------------------------------------------- early releases

  /** The manifest's programs. */
  function Manifest(air: Air): seq<Program> {
    [Constants, ConstSetup] + seq(|air.customs|, (i: nat) requires i < |air.customs| => CustomSetup(air.customs[i]))
    + (if air.witnessCalc then [WitnessCalc] else []) + [Commit1, Logup, Commit2]
    + (if |air.quotientChunks| == 1 then [Quotient] else Windows(air.quotientChunks, (k: nat) => QuotientRows(k)))
    + [QuotientCommit, Lev] + Windows(air.evalsChunks, (k: nat) => EvalsRows(k)) + [EvalsSum]
    + Windows(air.deepChunks, (k: nat) => DeepRows(k)) + [DeepConcat]
    + seq(if |air.steps| > 0 then |air.steps| - 1 else 0, (i: nat) => FriCommit(i))
    + seq(if |air.steps| > 0 then |air.steps| - 1 else 0, (i: nat) => FriFold(i)) + [FriFinal, Grind, Open(Const)]
    + seq(|air.customs|, (i: nat) requires i < |air.customs| => Open(Custom(air.customs[i])))
    + [Open(Cm1), Open(Cm2), Open(QSec)] + seq(if |air.steps| > 0 then |air.steps| - 1 else 0, (i: nat) => Open(Fri(i)))
  }

  function Windows(sizes: seq<nat>, f: nat -> Program): seq<Program> {
    seq(|sizes|, (i: nat) requires i < |sizes| => f(sizes[i]))
  }

  predicate RunsByLogup(p: Program) {
    p.Constants? || p.ConstSetup? || p.WitnessCalc? || p.Commit1? || p.Logup? || p.CustomSetup?
  }

  /** A manifest entry: a program and its declared inputs. */
  datatype Entry = Entry(program: Program, inputs: seq<Name>)

  function Entries(air: Air): (es: seq<Entry>)
    ensures |es| == |Manifest(air)|
  {
    seq(|Manifest(air)|, (i: nat) requires i < |Manifest(air)| => Entry(Manifest(air)[i], Inputs(air, Manifest(air)[i])))
  }

  /** Some program after `logup` reads `n`. */
  predicate LateReader(programs: seq<Entry>, n: Name) {
    exists i: nat {:trigger programs[i]} :: i < |programs| && !RunsByLogup(programs[i].program) && n in programs[i].inputs
  }

  function BaseNames(air: Air): seq<Name> { [Base(Const)] + CustomBases(air) }

  method HasLateReader(programs: seq<Entry>, n: Name) returns (late: bool)
    ensures late == LateReader(programs, n)
  {
    for i := 0 to |programs|
      invariant forall j: nat {:trigger programs[j]} | j < i :: RunsByLogup(programs[j].program) || n !in programs[j].inputs
    {
      if !RunsByLogup(programs[i].program) && n in programs[i].inputs {
        return true;
      }
    }
    return false;
  }

  /** `base_dead_after_logup`: the base sections no program after `logup` reads. */
  method BaseDeadAfterLogup(air: Air, programs: seq<Entry>) returns (dead: seq<Name>)
    ensures forall n: Name :: n in dead <==> n in BaseNames(air) && !LateReader(programs, n)
  {
    var names := BaseNames(air);
    dead := [];
    for i := 0 to |names|
      invariant forall n: Name :: n in dead <==> n in names[..i] && !LateReader(programs, n)
    {
      var late := HasLateReader(programs, names[i]);
      assert names[..i + 1] == names[..i] + [names[i]];
      if !late {
        dead := dead + [names[i]];
      }
    }
    assert names[..|names|] == names;
  }

  lemma BaseNamesAreBases(air: Air, n: Name)
    requires n in BaseNames(air)
    ensures n.Base?
  {
    if n != Base(Const) {
      var i: nat :| i < |air.customs| && CustomBases(air)[i] == n;
    }
  }

  /** No exported program after `logup` reads a base section: every one is dead by then. */
  lemma BasesDie(air: Air, n: Name)
    requires n in BaseNames(air)
    ensures !LateReader(Entries(air), n)
  {
    BaseNamesAreBases(air, n);
    var es := Entries(air);
    forall i: nat {:trigger es[i]} | i < |es| && !RunsByLogup(es[i].program) ensures n !in es[i].inputs {
      LateNeverReadsBase(air, es[i].program, n);
    }
  }

  lemma ExtsAreMatrices(air: Air, n: Name)
    requires n.Base?
    ensures n !in CustomExts(air)
  {
  }

  lemma LateNeverReadsBase(air: Air, p: Program, n: Name)
    requires !RunsByLogup(p) && n.Base?
    ensures n !in Inputs(air, p)
  {
    ExtsAreMatrices(air, n);
  }

  method RemoveAll(env: Env, names: seq<Name>) returns (r: Env)
    ensures forall n: Name :: n in r <==> n in env && n !in names
    ensures forall n: Name :: n in r ==> r[n] == env[n]
  {
    r := env;
    for i := 0 to |names|
      invariant forall n: Name :: n in r <==> n in env && n !in names[..i]
      invariant forall n: Name :: n in r ==> r[n] == env[n]
    {
      assert names[..i + 1] == names[..i] + [names[i]];
      r := r - {names[i]};
    }
    assert names[..|names|] == names;
  }

  /** `release_tree`: the section and every digest layer above it. */
  function ReleaseTree(env: Env, t: Tree): (r: Env)
    ensures forall n: Name :: n in r <==> n in env && !Touches(n, t)
    ensures forall n: Name :: n in r ==> r[n] == env[n]
  {
    map n: Name | n in env && n != Matrix(t) && !(n.Layer? && n.tree == t) :: env[n]
  }

  // ------------------------------------------------------------------ host helpers

  method StageChallengeIds(challenges: seq<Challenge>, stage: nat) returns (ids: seq<nat>)
    ensures ids == StageIds(challenges, stage)
  {
    ids := [];
    for i := 0 to |challenges|
      invariant ids == StageIds(challenges[..i], stage)
    {
      assert challenges[..i + 1][..i] == challenges[..i];
      if challenges[i].stage == stage {
        ids := ids + [challenges[i].id];
      }
    }
    assert challenges[..|challenges|] == challenges;
  }

  /** The driver's `squeeze` closure: the stage's challenges, in map order. */
  method SqueezeStage<S>(m: Machine, h: Host<S>, t: S, challenges: seq<Words>, stage: nat) returns (t': S, c: seq<Words>)
    ensures (t', c) == Squeeze(h, t, challenges, StageIds(m.air.challenges, stage))
  {
    var ids := StageChallengeIds(m.air.challenges, stage);
    t', c := t, challenges;
    for i := 0 to |ids|
      invariant (t', c) == Squeeze(h, t, challenges, ids[..i])
    {
      assert ids[..i + 1][..i] == ids[..i];
      var (next, f) := h.field(t');
      t', c := next, SetAt(c, ids[i], f);
    }
    assert ids[..|ids|] == ids;
  }

  method PutStage2<S>(h: Host<S>, t: S, airvalues: Words, stages: seq<nat>) returns (t': S)
    requires |airvalues| == Wire.PackedWidth(stages)
    ensures t' == AbsorbStage2(h, t, airvalues, stages)
  {
    var offsets := Wire.ValueOffsets(stages);
    t' := t;
    for i := 0 to |stages|
      invariant t' == AbsorbStage2(h, t, airvalues, stages[..i])
    {
      assert stages[..i + 1][..i] == stages[..i];
      if stages[i] == 2 {
        Wire.PackedMono(stages, i);
        t' := h.put(t', airvalues[offsets[i].0..offsets[i].0 + 3]);
      }
    }
    assert stages[..|stages|] == stages;
  }

  // ------------------------------------------------------------------- stages 1, 2

  /** A commit program over `env`: its tree and root bound, everything else as it was. */
  method RunCommit(m: Machine, t: Tree, p: Program, ghost kw: Env, env: Env) returns (r: Env)
    requires ValidMachine(m) && Bound(Inputs(m.air, p), kw) && Sub(kw, env) && IsCommit(m, t, p, Call(m, p, kw))
    requires Outputs(m.air, p) == [Root(t), Matrix(t)] + Layers(m.air, t)
    ensures r == env + Call(m, p, kw) && OnlyTree(t, env, r)
    ensures TreeIn(m, t, StageTree(m, t, p, Call(m, p, kw)), r)
    ensures Root(t) in r && r[Root(t)] == Call(m, p, kw)[Root(t)]
  {
    CallAgrees(m, p, kw, env);
    var up := RunInto(m, p, env, false);
    ghost var vals := m.exec(p, Args(Inputs(m.air, p), env));
    NotRenamed(Outputs(m.air, p));
    CommitBinds(m, t, p, env, Call(m, p, kw), vals);
    TreeAdded(m.air, t, Outputs(m.air, p), vals, env);
    r := up.value;
  }

  /** What the env holds between the uploads and `logup`. */
  ghost predicate Started(m: Machine, key: Key, inst: Instance, env: Env, trace: Words, challenges: seq<Words>)
    requires ValidMachine(m)
  {
    KeyPart(m, key, env) && Fed(inst, env, trace, challenges)
  }

  ghost predicate KeyPart(m: Machine, key: Key, env: Env)
    requires ValidMachine(m)
  {
    Carry(m, key, env) && Sub(BaseKw(m, key), env)
  }

  ghost predicate Fed(inst: Instance, env: Env, trace: Words, challenges: seq<Words>) {
    && Sub(ScalarKw(inst, inst.airvalues), env)
    && Trace in env && env[Trace] == trace && ChallengesName in env && env[ChallengesName] == Flatten(challenges)
    && AirgroupValue !in env
  }

  ghost predicate Scratch(n: Name) { !KeyName(n) && !n.Base? }

  lemma BasesSame(m: Machine, key: Key, env: Env, env': Env)
    requires Sub(BaseKw(m, key), env)
    requires forall n: Name {:trigger Same(n, env, env')} :: n.Base? ==> Same(n, env, env')
    ensures Sub(BaseKw(m, key), env')
  {
    forall n: Name {:trigger n in BaseKw(m, key)} | n in BaseKw(m, key) ensures n in env' && env'[n] == BaseKw(m, key)[n] {
      assert Same(n, env, env');
    }
  }

  /** Only scratch names change. */
  ghost predicate ScratchOnly(env: Env, env': Env) {
    forall n: Name {:trigger Same(n, env, env')} :: !Scratch(n) ==> Same(n, env, env')
  }

  lemma ScratchKeeps(m: Machine, key: Key, env: Env, env': Env)
    requires ValidMachine(m) && KeyPart(m, key, env) && ScratchOnly(env, env')
    ensures KeyPart(m, key, env')
  {
    CarryKept(m, key, env, env');
    BasesSame(m, key, env, env');
  }

  lemma InsertScratch(env: Env, n: Name, v: Words)
    requires Scratch(n)
    ensures ScratchOnly(env, env[n := v])
  {
    forall k: Name {:trigger Same(k, env, env[n := v])} | !Scratch(k) ensures Same(k, env, env[n := v]) { assert k != n; }
  }

  function WithInstance(fixedSet: Env, inst: Instance, challenges: seq<Words>): (env: Env) {
    fixedSet[Publics := inst.publics][AirValues := inst.airvalues][ProofValues := inst.proofvalues][Trace := inst.trace]
            [ChallengesName := Flatten(challenges)]
  }

  lemma WithInstanceFeeds(fixedSet: Env, inst: Instance, challenges: seq<Words>)
    requires AirgroupValue !in fixedSet
    ensures Fed(inst, WithInstance(fixedSet, inst, challenges), inst.trace, challenges)
    ensures ScratchOnly(fixedSet, WithInstance(fixedSet, inst, challenges))
  {
    var env := WithInstance(fixedSet, inst, challenges);
    forall n: Name {:trigger Same(n, fixedSet, env)} | !Scratch(n) ensures Same(n, fixedSet, env) { }
  }

  lemma WithInstanceStarts(m: Machine, key: Key, inst: Instance, fixedSet: Env, challenges: seq<Words>)
    requires ValidMachine(m) && FixedSet(m, key, fixedSet)
    ensures Started(m, key, inst, WithInstance(fixedSet, inst, challenges), inst.trace, challenges)
  {
    WithInstanceFeeds(fixedSet, inst, challenges);
    ScratchKeeps(m, key, fixedSet, WithInstance(fixedSet, inst, challenges));
  }

  lemma InsertKeeps(m: Machine, key: Key, env: Env, n: Name, v: Words)
    requires ValidMachine(m) && KeyPart(m, key, env) && Scratch(n)
    ensures KeyPart(m, key, env[n := v])
  {
    InsertScratch(env, n, v);
    ScratchKeeps(m, key, env, env[n := v]);
  }

  lemma WitnessReads(m: Machine, key: Key, inst: Instance, env: Env, challenges: seq<Words>)
    requires ValidMachine(m) && Started(m, key, inst, env, inst.trace, challenges)
    ensures Sub(WitnessKw(m, key, inst), env)
  {
    hide ValidMachine, Carry;
    forall n: Name {:trigger n in WitnessKw(m, key, inst)} | n in WitnessKw(m, key, inst)
      ensures n in env && env[n] == WitnessKw(m, key, inst)[n]
    {
      if n.Base? { assert n in BaseKw(m, key) && BaseKw(m, key)[n] == WitnessKw(m, key, inst)[n]; }
      else if n != Trace { assert n in ScalarKw(inst, inst.airvalues); }
    }
  }

  lemma TraceFed(inst: Instance, env: Env, was: Words, now: Words, challenges: seq<Words>)
    requires Fed(inst, env, was, challenges)
    ensures Fed(inst, env[Trace := now], now, challenges)
  {
  }

  method RunWitness(m: Machine, ghost key: Key, inst: Instance, env: Env, ghost challenges: seq<Words>) returns (r: Env)
    requires ValidMachine(m) && Started(m, key, inst, env, inst.trace, challenges)
    ensures Started(m, key, inst, r, TraceOf(m, key, inst), challenges)
  {
    hide ValidMachine, Carry, Sub, Fed, KeyPart;
    r := env;
    if m.air.witnessCalc {
      var outs := RunProgram(m, WitnessCalc, env);
      WitnessExact(m, key, inst);
      WitnessReads(m, key, inst, env, challenges);
      OutputAgrees(m, WitnessCalc, WitnessKw(m, key, inst), env, 0);
      InsertKeeps(m, key, env, Trace, outs.value[0]);
      TraceFed(inst, env, inst.trace, outs.value[0], challenges);
      r := env[Trace := outs.value[0]];
    }
  }

  method RunCommit1(m: Machine, ghost key: Key, inst: Instance, env: Env, ghost challenges: seq<Words>) returns (r: Env)
    requires ValidMachine(m) && Started(m, key, inst, env, TraceOf(m, key, inst), challenges)
    ensures Started(m, key, inst, r, TraceOf(m, key, inst), challenges)
    ensures IsCommit(m, Cm1, Commit1, Commit1Out(m, key, inst))
    ensures TreeIn(m, Cm1, StageTree(m, Cm1, Commit1, Commit1Out(m, key, inst)), r)
    ensures Root(Cm1) in r && r[Root(Cm1)] == Commit1Out(m, key, inst)[Root(Cm1)]
  {
    hide ValidMachine, Carry, Sub;
    ghost var kw := map[Trace := TraceOf(m, key, inst)];
    assert Outputs(m.air, Commit1)[1] == Matrix(Cm1) && Outputs(m.air, Commit1)[0] == Root(Cm1);
    r := RunCommit(m, Cm1, Commit1, kw, env);
    StageTreeKeeps(m, key, Cm1, env, r);
    TreeFeeds(inst, Cm1, env, r, TraceOf(m, key, inst), challenges);
  }

  lemma StageTreeKeeps(m: Machine, key: Key, t: Tree, env: Env, r: Env)
    requires ValidMachine(m) && KeyPart(m, key, env) && OnlyTree(t, env, r) && !t.Const? && !t.Custom?
    ensures KeyPart(m, key, r)
  {
    hide ValidMachine, KeyPart;
    forall n: Name {:trigger Same(n, env, r)} | !Scratch(n) ensures Same(n, env, r) { }
    ScratchKeeps(m, key, env, r);
  }

  lemma TreeFeeds(inst: Instance, t: Tree, env: Env, r: Env, trace: Words, challenges: seq<Words>)
    requires Fed(inst, env, trace, challenges) && OnlyTree(t, env, r)
    ensures Fed(inst, r, trace, challenges)
  {
    hide Sub, ScalarKw;
    assert Same(Publics, env, r) && Same(AirValues, env, r) && Same(ProofValues, env, r) && Same(Trace, env, r);
    assert Same(ChallengesName, env, r) && Same(AirgroupValue, env, r);
    ScalarsKept(inst, inst.airvalues, env, r);
  }

  lemma LogupReads(m: Machine, key: Key, inst: Instance, env: Env, challenges: seq<Words>)
    requires ValidMachine(m) && Sub(BaseKw(m, key), env) && Fed(inst, env, TraceOf(m, key, inst), challenges)
    ensures Sub(LogupKw(m, key, inst, challenges), env)
  {
    var kw := LogupKw(m, key, inst, challenges);
    forall n: Name {:trigger n in kw} | n in kw ensures n in env && env[n] == kw[n] {
      if n.Base? { assert n in BaseKw(m, key) && BaseKw(m, key)[n] == kw[n]; }
      else if n != Trace && n != ChallengesName { assert n in ScalarKw(inst, inst.airvalues); }
    }
  }

  /** The names `logup` writes. */
  lemma LogupNames(air: Air, n: Name)
    requires n in Outputs(air, Logup)
    ensures n == Cm2Base || n == AirgroupValue || n == AirValues
  {
  }

  lemma LogupHas(air: Air)
    ensures Cm2Base in Outputs(air, Logup) && AirValues in Outputs(air, Logup)
  {
    assert Outputs(air, Logup)[0] == Cm2Base && Outputs(air, Logup)[|Outputs(air, Logup)| - 1] == AirValues;
  }

  ghost predicate LoggedUp(inst: Instance, lg: Env, env: Env)
    requires AirValues in lg && Cm2Base in lg
  {
    && Sub(ScalarKw(inst, lg[AirValues]), env) && Cm2Base in env && env[Cm2Base] == lg[Cm2Base]
    && (AirgroupValue in env <==> AirgroupValue in lg) && (AirgroupValue in lg ==> env[AirgroupValue] == lg[AirgroupValue])
  }

  /** Names outside these three, and what `logup` leaves under them. */
  lemma LogupMerges(air: Air, inst: Instance, env: Env, lg: Env, trace: Words, challenges: seq<Words>)
    requires Fed(inst, env, trace, challenges) && forall n: Name :: n in lg <==> n in Outputs(air, Logup)
    ensures AirValues in lg && Cm2Base in lg && LoggedUp(inst, lg, env + lg)
    ensures forall n: Name {:trigger Same(n, env, env + lg)} ::
              n != Cm2Base && n != AirgroupValue && n != AirValues ==> Same(n, env, env + lg)
  {
    LogupHas(air);
    forall n: Name {:trigger Same(n, env, env + lg)} | n != Cm2Base && n != AirgroupValue && n != AirValues
      ensures Same(n, env, env + lg)
    {
      if n in lg { LogupNames(air, n); }
    }
    assert Same(Publics, env, env + lg) && Same(ProofValues, env, env + lg);
    ScalarsRebound(inst, inst.airvalues, lg[AirValues], env, env + lg);
  }

  /** The scalars once the air values are rewritten. */
  lemma ScalarsRebound(inst: Instance, was: Words, now: Words, env: Env, env': Env)
    requires Sub(ScalarKw(inst, was), env) && Same(Publics, env, env') && Same(ProofValues, env, env')
    requires AirValues in env' && env'[AirValues] == now
    ensures Sub(ScalarKw(inst, now), env')
  {
    assert Publics in ScalarKw(inst, was) && ProofValues in ScalarKw(inst, was);
  }

  method RunLogup(m: Machine, ghost key: Key, inst: Instance, env: Env, ghost challenges: seq<Words>) returns (r: Env)
    requires ValidMachine(m) && Started(m, key, inst, env, TraceOf(m, key, inst), challenges)
    ensures Cm2Base in LogupOut(m, key, inst, challenges) && AirValues in LogupOut(m, key, inst, challenges)
    ensures LoggedUp(inst, LogupOut(m, key, inst, challenges), r)
    ensures forall n: Name {:trigger Same(n, env, r)} ::
              n != Cm2Base && n != AirgroupValue && n != AirValues ==> Same(n, env, r)
  {
    LogupExact(m, key, inst, challenges);
    LogupReads(m, key, inst, env, challenges);
    CallAgrees(m, Logup, LogupKw(m, key, inst, challenges), env);
    var up := RunInto(m, Logup, env, false);
    NotRenamed(Outputs(m.air, Logup));
    LogupMerges(m.air, inst, env, LogupOut(m, key, inst, challenges), TraceOf(m, key, inst), challenges);
    r := up.value;
  }

  /** After `logup`: the trace goes, and with `Release` every base section that no
      later program reads. */
  method ReleaseBases(m: Machine, env: Env, keep: bool) returns (r: Env)
    ensures forall n: Name {:trigger Same(n, env, r)} :: n != Trace && !n.Base? ==> Same(n, env, r)
    ensures Trace !in r
    ensures !keep ==> forall n: Name :: n in BaseNames(m.air) ==> n !in r
    ensures keep ==> r == env - {Trace}
  {
    r := env - {Trace};
    if !keep {
      var dead := BaseDeadAfterLogup(m.air, Entries(m.air));
      r := RemoveAll(r, dead);
      forall n: Name | n in dead ensures n.Base? { BaseNamesAreBases(m.air, n); }
      forall n: Name | n in BaseNames(m.air) ensures n !in r { BasesDie(m.air, n); }
    }
  }

  /** Every tree named here is bound as committed. */
  ghost predicate StageTreesIn<S>(m: Machine, s: Staged<S>, env: Env)
    requires IsCommit(m, Cm1, Commit1, s.c1) && IsCommit(m, Cm2, Commit2, s.c2)
  {
    && TreeIn(m, Cm1, StageTree(m, Cm1, Commit1, s.c1), env) && TreeIn(m, Cm2, StageTree(m, Cm2, Commit2, s.c2), env)
    && Root(Cm1) in env && env[Root(Cm1)] == s.c1[Root(Cm1)]
  }

  lemma TreeUntouched(m: Machine, t: Tree, c: TreeData, env: Env, env': Env)
    requires TreeIn(m, t, c, env) && forall n: Name {:trigger Same(n, env, env')} :: Touches(n, t) ==> Same(n, env, env')
    ensures TreeIn(m, t, c, env')
  {
    forall n: Name {:trigger n in env'} {:trigger n in env} | Touches(n, t) && n in env ensures n in env' && env'[n] == env[n] {
      assert Same(n, env, env');
    }
    TreeKept(m, t, c, env, env');
  }

  /** What stages 1 and 2 leave for the rest of the prove. */
  ghost predicate StagedIn<S>(m: Machine, key: Key, inst: Instance, s: Staged<S>, env: Env)
    requires ValidMachine(m)
  {
    && IsCommit(m, Cm1, Commit1, s.c1) && IsCommit(m, Cm2, Commit2, s.c2)
    && Carry(m, key, env) && StageTreesIn(m, s, env) && Sub(ScalarKw(inst, s.airvalues), env)
  }

  /** A step past `logup` that leaves the key's names, the first tree and the scalars alone. */
  ghost predicate Quiet(env: Env, env': Env) {
    forall n: Name {:trigger Same(n, env, env')} ::
      KeyName(n) || Touches(n, Cm1) || n == Root(Cm1) || n.Publics? || n.AirValues? || n.ProofValues? || n.AirgroupValue? || n.Base?
      ==> Same(n, env, env')
  }

  lemma TreeAfterRemove(m: Machine, t: Tree, c: TreeData, env: Env, n: Name)
    requires TreeIn(m, t, c, env) && !Touches(n, t)
    ensures TreeIn(m, t, c, env - {n})
  {
    forall k: Name {:trigger Same(k, env, env - {n})} | Touches(k, t) ensures Same(k, env, env - {n}) { }
    TreeUntouched(m, t, c, env, env - {n});
  }

  lemma Commit2Quiet(env: Env, committed: Env)
    requires OnlyTree(Cm2, env, committed)
    ensures Quiet(env, committed - {Cm2Base})
  {
    var r := committed - {Cm2Base};
    forall n: Name {:trigger Same(n, env, r)}
      | KeyName(n) || Touches(n, Cm1) || n == Root(Cm1) || n.Publics? || n.AirValues? || n.ProofValues? || n.AirgroupValue? || n.Base?
      ensures Same(n, env, r)
    {
      assert Same(n, env, committed);
    }
  }

  lemma Commit2Ready(m: Machine, kw: Env)
    requires ValidMachine(m) && kw.Keys == {Cm2Base}
    ensures Bound(Inputs(m.air, Commit2), kw) && Outputs(m.air, Commit2) == [Root(Cm2), Matrix(Cm2)] + Layers(m.air, Cm2)
    ensures IsCommit(m, Cm2, Commit2, Call(m, Commit2, kw)) && !Touches(Cm2Base, Cm2)
  {
    hide ValidMachine;
    assert Outputs(m.air, Commit2)[1] == Matrix(Cm2) && Outputs(m.air, Commit2)[0] == Root(Cm2);
  }

  method RunCommit2(m: Machine, ghost lg: Env, env: Env) returns (r: Env)
    requires ValidMachine(m) && AirValues in lg && Cm2Base in lg && Cm2Base in env && env[Cm2Base] == lg[Cm2Base]
    ensures IsCommit(m, Cm2, Commit2, Call(m, Commit2, map[Cm2Base := lg[Cm2Base]]))
    ensures TreeIn(m, Cm2, StageTree(m, Cm2, Commit2, Call(m, Commit2, map[Cm2Base := lg[Cm2Base]])), r)
    ensures Root(Cm2) in r && r[Root(Cm2)] == Call(m, Commit2, map[Cm2Base := lg[Cm2Base]])[Root(Cm2)]
    ensures Quiet(env, r) && Cm2Base !in r
  {
    hide ValidMachine, TreeIn, Quiet, OnlyTree, Call, Layers, Touches, IsCommit, Outputs, StageTree;
    ghost var kw := map[Cm2Base := lg[Cm2Base]];
    Commit2Ready(m, kw);
    r := RunCommit(m, Cm2, Commit2, kw, env);
    Commit2Quiet(env, r);
    TreeAfterRemove(m, Cm2, StageTree(m, Cm2, Commit2, Call(m, Commit2, kw)), r, Cm2Base);
    r := r - {Cm2Base};
  }

  // ------------------------------------------- the device side of stages 1 and 2

  /** What the device side leaves: the trees, the scalars with the new air values, and
      the airgroup value when there is one. */
  ghost predicate DeviceStaged(m: Machine, key: Key, inst: Instance, c1: Env, lg: Env, c2: Env, env: Env)
    requires ValidMachine(m) && IsCommit(m, Cm1, Commit1, c1) && IsCommit(m, Cm2, Commit2, c2) && AirValues in lg
  {
    && Carry(m, key, env) && TreeIn(m, Cm1, StageTree(m, Cm1, Commit1, c1), env) && TreeIn(m, Cm2, StageTree(m, Cm2, Commit2, c2), env)
    && Root(Cm1) in env && env[Root(Cm1)] == c1[Root(Cm1)] && Root(Cm2) in env && env[Root(Cm2)] == c2[Root(Cm2)]
    && Sub(ScalarKw(inst, lg[AirValues]), env)
    && (AirgroupValue in env <==> AirgroupValue in lg) && (AirgroupValue in lg ==> env[AirgroupValue] == lg[AirgroupValue])
  }

  /** The middle of it: `logup` done, its inputs gone. */
  ghost predicate Mid(m: Machine, key: Key, inst: Instance, c1: Env, lg: Env, env: Env)
    requires ValidMachine(m) && IsCommit(m, Cm1, Commit1, c1) && AirValues in lg && Cm2Base in lg
  {
    && Carry(m, key, env) && TreeIn(m, Cm1, StageTree(m, Cm1, Commit1, c1), env)
    && Root(Cm1) in env && env[Root(Cm1)] == c1[Root(Cm1)] && LoggedUp(inst, lg, env)
  }

  lemma LogupLeaves(m: Machine, key: Key, inst: Instance, c1: Env, lg: Env, env: Env, r: Env)
    requires ValidMachine(m) && IsCommit(m, Cm1, Commit1, c1) && AirValues in lg && Cm2Base in lg
    requires Carry(m, key, env) && TreeIn(m, Cm1, StageTree(m, Cm1, Commit1, c1), env)
    requires Root(Cm1) in env && env[Root(Cm1)] == c1[Root(Cm1)] && LoggedUp(inst, lg, r)
    requires forall n: Name {:trigger Same(n, env, r)} :: n != Cm2Base && n != AirgroupValue && n != AirValues ==> Same(n, env, r)
    ensures Mid(m, key, inst, c1, lg, r)
  {
    hide ValidMachine, TablesIn, KeyTrees, TreeIn, Sub;
    assert KeySame(env, r);
    CarryKept(m, key, env, r);
    TreeUntouched(m, Cm1, StageTree(m, Cm1, Commit1, c1), env, r);
    assert Same(Root(Cm1), env, r);
  }

  lemma ReleaseLeaves(m: Machine, key: Key, inst: Instance, c1: Env, lg: Env, env: Env, r: Env)
    requires ValidMachine(m) && IsCommit(m, Cm1, Commit1, c1) && AirValues in lg && Cm2Base in lg
    requires Mid(m, key, inst, c1, lg, env)
    requires forall n: Name {:trigger Same(n, env, r)} :: n != Trace && !n.Base? ==> Same(n, env, r)
    ensures Mid(m, key, inst, c1, lg, r)
  {
    hide ValidMachine, TablesIn, KeyTrees, TreeIn, Sub;
    assert KeySame(env, r);
    CarryKept(m, key, env, r);
    TreeUntouched(m, Cm1, StageTree(m, Cm1, Commit1, c1), env, r);
    LoggedKept(inst, lg, env, r);
    assert Same(Root(Cm1), env, r);
  }

  lemma LoggedKept(inst: Instance, lg: Env, env: Env, r: Env)
    requires AirValues in lg && Cm2Base in lg && LoggedUp(inst, lg, env)
    requires forall n: Name {:trigger Same(n, env, r)} :: n != Trace && !n.Base? ==> Same(n, env, r)
    ensures LoggedUp(inst, lg, r)
  {
    assert Same(Publics, env, r) && Same(AirValues, env, r) && Same(ProofValues, env, r);
    assert Same(Cm2Base, env, r) && Same(AirgroupValue, env, r);
    ScalarsKept(inst, lg[AirValues], env, r);
  }

  lemma ScalarsKept(inst: Instance, airvalues: Words, env: Env, r: Env)
    requires Sub(ScalarKw(inst, airvalues), env)
    requires Same(Publics, env, r) && Same(AirValues, env, r) && Same(ProofValues, env, r)
    ensures Sub(ScalarKw(inst, airvalues), r)
  {
    var kw := ScalarKw(inst, airvalues);
    assert Publics in kw && AirValues in kw && ProofValues in kw;
  }

  lemma CommitLeaves(m: Machine, key: Key, inst: Instance, c1: Env, lg: Env, c2: Env, env: Env, r: Env)
    requires ValidMachine(m) && IsCommit(m, Cm1, Commit1, c1) && IsCommit(m, Cm2, Commit2, c2) && AirValues in lg && Cm2Base in lg
    requires Mid(m, key, inst, c1, lg, env) && Quiet(env, r)
    requires TreeIn(m, Cm2, StageTree(m, Cm2, Commit2, c2), r) && Root(Cm2) in r && r[Root(Cm2)] == c2[Root(Cm2)]
    ensures DeviceStaged(m, key, inst, c1, lg, c2, r)
  {
    assert KeySame(env, r);
    CarryKept(m, key, env, r);
    TreeUntouched(m, Cm1, StageTree(m, Cm1, Commit1, c1), env, r);
    assert Same(Publics, env, r) && Same(AirValues, env, r) && Same(ProofValues, env, r) && Same(AirgroupValue, env, r);
    ScalarsKept(inst, lg[AirValues], env, r);
    assert Same(Root(Cm1), env, r);
  }

  /** The uploads in place, through `commit2`. */
  method RunDevice(m: Machine, ghost key: Key, inst: Instance, fixedSet: Env, keep: bool, challenges: seq<Words>) returns (env: Env)
    requires ValidMachine(m) && FixedSet(m, key, fixedSet)
    ensures IsCommit(m, Cm1, Commit1, Commit1Out(m, key, inst))
    ensures AirValues in LogupOut(m, key, inst, challenges) && Cm2Base in LogupOut(m, key, inst, challenges)
    ensures IsCommit(m, Cm2, Commit2, Commit2Out(m, LogupOut(m, key, inst, challenges)))
    ensures DeviceStaged(m, key, inst, Commit1Out(m, key, inst), LogupOut(m, key, inst, challenges),
                         Commit2Out(m, LogupOut(m, key, inst, challenges)), env)
    ensures !keep ==> forall n: Name :: n in BaseNames(m.air) ==> n !in env
  {
    WithInstanceStarts(m, key, inst, fixedSet, challenges);
    env := WithInstance(fixedSet, inst, challenges);
    env := RunWitness(m, key, inst, env, challenges);
    env := RunCommit1(m, key, inst, env, challenges);
    ghost var c1, lg := Commit1Out(m, key, inst), LogupOut(m, key, inst, challenges);
    ghost var before := env;
    env := RunLogup(m, key, inst, env, challenges);
    LogupLeaves(m, key, inst, c1, lg, before, env);
    env := FinishDevice(m, key, inst, env, keep, c1, lg);
  }

  method FinishDevice(m: Machine, ghost key: Key, inst: Instance, env: Env, keep: bool, ghost c1: Env, ghost lg: Env) returns (r: Env)
    requires ValidMachine(m) && IsCommit(m, Cm1, Commit1, c1) && AirValues in lg && Cm2Base in lg
    requires Mid(m, key, inst, c1, lg, env)
    ensures IsCommit(m, Cm2, Commit2, Commit2Out(m, lg))
    ensures DeviceStaged(m, key, inst, c1, lg, Commit2Out(m, lg), r)
    ensures !keep ==> forall n: Name :: n in BaseNames(m.air) ==> n !in r
  {
    r := ReleaseBases(m, env, keep);
    ReleaseLeaves(m, key, inst, c1, lg, env, r);
    ghost var before := r;
    r := RunCommit2(m, lg, r);
    forall n: Name | n in BaseNames(m.air) && !keep ensures n !in r {
      BaseNamesAreBases(m.air, n);
      assert Same(n, before, r);
    }
    CommitLeaves(m, key, inst, c1, lg, Commit2Out(m, lg), before, r);
  }

  lemma StagesParts<S>(m: Machine, h: Host<S>, key: Key, inst: Instance)
    requires ValidMachine(m)
    ensures Cm2Base in LogupOut(m, key, inst, Seeded(m, h, inst).1) && AirValues in LogupOut(m, key, inst, Seeded(m, h, inst).1)
    ensures Stages(m, h, key, inst).c1 == Commit1Out(m, key, inst)
    ensures Stages(m, h, key, inst).c2 == Commit2Out(m, LogupOut(m, key, inst, Seeded(m, h, inst).1))
    ensures Stages(m, h, key, inst).airvalues == LogupOut(m, key, inst, Seeded(m, h, inst).1)[AirValues]
  {
    LogupHas(m.air);
  }

  lemma LogupSized(m: Machine, key: Key, inst: Instance, challenges: seq<Words>)
    requires ValidMachine(m) && SizedMachine(m)
    ensures AirValues in LogupOut(m, key, inst, challenges)
    ensures |LogupOut(m, key, inst, challenges)[AirValues]| == Wire.PackedWidth(m.air.airvalues)
    ensures AirgroupValue in LogupOut(m, key, inst, challenges) ==>
              m.air.airgroupIndex >= 0 && |LogupOut(m, key, inst, challenges)[AirgroupValue]| == 3
  {
    var kw := LogupKw(m, key, inst, challenges);
    LogupExact(m, key, inst, challenges);
    OutputAt(m, Logup, kw, |Outputs(m.air, Logup)| - 1);
    assert Outputs(m.air, Logup)[|Outputs(m.air, Logup)| - 1] == AirValues;
    if m.air.airgroupIndex >= 0 {
      OutputAt(m, Logup, kw, 1);
      assert Outputs(m.air, Logup)[1] == AirgroupValue;
    }
  }

  /** What the host takes away from stages 1 and 2. */
  datatype HostStaged<+S> = HostStaged(t: S, challenges: seq<Words>, airvalues: Words, airgroup: seq<Words>, root2: Words)

  /** Stages 1 and 2: the device's part, then the transcript's. */
  method RunStages<S>(m: Machine, h: Host<S>, ghost key: Key, inst: Instance, fixedSet: Env, keep: bool)
    returns (env: Env, host: HostStaged<S>)
    requires ValidMachine(m) && SizedMachine(m) && ValidAir(m.air) && FixedSet(m, key, fixedSet)
    ensures IsCommit(m, Cm1, Commit1, Stages(m, h, key, inst).c1) && IsCommit(m, Cm2, Commit2, Stages(m, h, key, inst).c2)
    ensures StagedIn(m, key, inst, Stages(m, h, key, inst), env)
    ensures host == HostStaged(Stages(m, h, key, inst).t, Stages(m, h, key, inst).challenges, Stages(m, h, key, inst).airvalues,
                               Stages(m, h, key, inst).airgroup, Stages(m, h, key, inst).c2[Root(Cm2)])
    ensures !keep ==> forall n: Name :: n in BaseNames(m.air) ==> n !in env
  {
    var t := h.put(h.start, inst.globalChallenge);
    var challenges := seq(|m.air.challenges|, (i: nat) => Zeros(3));
    t, challenges := SqueezeStage(m, h, t, challenges, 2);
    assert (t, challenges) == Seeded(m, h, inst);
    env := RunDevice(m, key, inst, fixedSet, keep, challenges);
    ghost var lg := LogupOut(m, key, inst, challenges);
    StagesParts(m, h, key, inst);
    LogupSized(m, key, inst, challenges);
    host := AbsorbStages(m, h, inst, env, t, challenges, lg, Commit2Out(m, lg));
  }

  method AbsorbStages<S>(m: Machine, h: Host<S>, inst: Instance, env: Env, t: S, challenges: seq<Words>, ghost lg: Env, ghost c2: Env)
    returns (host: HostStaged<S>)
    requires ValidAir(m.air) && AirValues in lg && Root(Cm2) in c2 && Root(Cm2) in env && env[Root(Cm2)] == c2[Root(Cm2)]
    requires Sub(ScalarKw(inst, lg[AirValues]), env) && |lg[AirValues]| == Wire.PackedWidth(m.air.airvalues)
    requires (AirgroupValue in env <==> AirgroupValue in lg) && (AirgroupValue in lg ==> env[AirgroupValue] == lg[AirgroupValue])
    requires AirgroupValue in lg ==> m.air.airgroupIndex >= 0
    ensures host.airvalues == lg[AirValues] && host.root2 == c2[Root(Cm2)]
    ensures host.airgroup == (var zeros := seq(|m.air.airgroupvalues|, (i: nat) => Zeros(3));
              if AirgroupValue in lg then SetAt(zeros, m.air.airgroupIndex, lg[AirgroupValue]) else zeros)
    ensures (host.t, host.challenges)
         == Squeeze(h, AbsorbStage2(h, h.put(t, c2[Root(Cm2)]), lg[AirValues], m.air.airvalues), challenges,
                    StageIds(m.air.challenges, NSTAGES + 1))
  {
    assert AirValues in ScalarKw(inst, lg[AirValues]);
    var airvalues := env[AirValues];
    var root2 := env[Root(Cm2)];
    var t2 := PutStage2(h, h.put(t, root2), airvalues, m.air.airvalues);
    var airgroup := seq(|m.air.airgroupvalues|, (i: nat) => Zeros(3));
    if AirgroupValue in env {
      airgroup := SetAt(airgroup, m.air.airgroupIndex, env[AirgroupValue]);
    }
    var t3, c := SqueezeStage(m, h, t2, challenges, NSTAGES + 1);
    host := HostStaged(t3, c, airvalues, airgroup, root2);
  }

  // ------------------------------------------------------------------- the quotient

  lemma CustomsRead(m: Machine, key: Key, env: Env)
    requires ValidMachine(m) && KeyTrees(m, key, env)
    ensures Sub(CustomExtKw(m, key), env)
  {
    var kw := CustomExtKw(m, key);
    forall n: Name {:trigger n in kw} | n in kw ensures n in env && env[n] == kw[n] {
      var i: nat :| i < |m.air.customs| && m.air.customs[i] == n.tree.id;
      assert CustomIn(m, key, env, i);
      CustomTreeIs(m, key, m.air.customs[i]);
    }
  }

  lemma SectionsIn<S>(m: Machine, key: Key, s: Staged<S>, env: Env)
    requires ValidMachine(m) && IsCommit(m, Cm1, Commit1, s.c1) && IsCommit(m, Cm2, Commit2, s.c2)
    requires KeyTrees(m, key, env) && StageTreesIn(m, s, env)
    ensures Committed(s) && Sub(map[Matrix(Cm1) := s.c1[Matrix(Cm1)], Matrix(Cm2) := s.c2[Matrix(Cm2)],
                                    Matrix(Const) := ConstExt(m, key)], env)
  {
    hide ValidMachine, AllLayers;
    ConstTreeIs(m, key);
  }

  /** The sections the quotient reads. */
  lemma SectionsRead<S>(m: Machine, key: Key, s: Staged<S>, env: Env)
    requires ValidMachine(m) && IsCommit(m, Cm1, Commit1, s.c1) && IsCommit(m, Cm2, Commit2, s.c2)
    requires KeyTrees(m, key, env) && StageTreesIn(m, s, env)
    ensures Committed(s) && Sub(QuotientSections(m, key, s), env)
  {
    hide ValidMachine, Sub, CustomExtKw, ConstExt, KeyTrees, TreeIn;
    SectionsIn(m, key, s, env);
    CustomsRead(m, key, env);
    SubMerge(map[Matrix(Cm1) := s.c1[Matrix(Cm1)], Matrix(Cm2) := s.c2[Matrix(Cm2)], Matrix(Const) := ConstExt(m, key)],
             CustomExtKw(m, key), env);
  }

  /** The scalars the quotient reads. */
  lemma ScalarsRead<S>(m: Machine, inst: Instance, s: Staged<S>, env: Env)
    requires ValidMachine(m) && TablesIn(m, env) && Sub(ScalarKw(inst, s.airvalues), env)
    requires ChallengesName in env && env[ChallengesName] == Flatten(s.challenges)
    requires AirgroupValues in env && env[AirgroupValues] == Flatten(s.airgroup)
    ensures Sub(QuotientScalars(m, inst, s), env)
  {
    hide ValidMachine;
    var kw := QuotientScalars(m, inst, s);
    forall n: Name {:trigger n in kw} | n in kw ensures n in env && env[n] == kw[n] {
      if n != ChallengesName && n != AirgroupValues && n != Zi { assert n in ScalarKw(inst, s.airvalues); }
    }
  }

  lemma QuotientReads<S>(m: Machine, key: Key, inst: Instance, s: Staged<S>, env: Env)
    requires ValidMachine(m) && StagedIn(m, key, inst, s, env)
    requires ChallengesName in env && env[ChallengesName] == Flatten(s.challenges)
    requires AirgroupValues in env && env[AirgroupValues] == Flatten(s.airgroup)
    ensures Committed(s) && Sub(QuotientKw(m, key, inst, s), env)
  {
    hide ValidMachine, Sub, QuotientSections, QuotientScalars, TablesIn, KeyTrees, TreeIn;
    SectionsRead(m, key, s, env);
    ScalarsRead(m, inst, s, env);
    SubMerge(QuotientSections(m, key, s), QuotientScalars(m, inst, s), env);
  }

  /** A step after `commit2` that leaves what later programs read alone. */
  ghost predicate LateSame(env: Env, env': Env) {
    forall n: Name {:trigger Same(n, env, env')} ::
      KeyName(n) || Touches(n, Cm1) || Touches(n, Cm2) || n == Root(Cm1) || n.Publics? || n.AirValues? || n.ProofValues?
      ==> Same(n, env, env')
  }

  lemma StagedKept<S>(m: Machine, key: Key, inst: Instance, s: Staged<S>, env: Env, r: Env)
    requires ValidMachine(m) && StagedIn(m, key, inst, s, env) && LateSame(env, r)
    ensures StagedIn(m, key, inst, s, r)
  {
    assert KeySame(env, r);
    CarryKept(m, key, env, r);
    TreeUntouched(m, Cm1, StageTree(m, Cm1, Commit1, s.c1), env, r);
    TreeUntouched(m, Cm2, StageTree(m, Cm2, Commit2, s.c2), env, r);
    assert Same(Root(Cm1), env, r);
    assert Same(Publics, env, r) && Same(AirValues, env, r) && Same(ProofValues, env, r);
    ScalarsKept(inst, s.airvalues, env, r);
  }

  lemma InsertLate(env: Env, n: Name, v: Words)
    requires !KeyName(n) && !Touches(n, Cm1) && !Touches(n, Cm2) && n != Root(Cm1)
    requires !n.Publics? && !n.AirValues? && !n.ProofValues?
    ensures LateSame(env, env[n := v]) && LateSame(env, env - {n})
  {
    forall k: Name {:trigger Same(k, env, env[n := v])}
      | KeyName(k) || Touches(k, Cm1) || Touches(k, Cm2) || k == Root(Cm1) || k.Publics? || k.AirValues? || k.ProofValues?
      ensures Same(k, env, env[n := v])
    {
      assert k != n;
    }
    forall k: Name {:trigger Same(k, env, env - {n})}
      | KeyName(k) || Touches(k, Cm1) || Touches(k, Cm2) || k == Root(Cm1) || k.Publics? || k.AirValues? || k.ProofValues?
      ensures Same(k, env, env - {n})
    {
      assert k != n;
    }
  }

  lemma LateTrans(a: Env, b: Env, c: Env)
    requires LateSame(a, b) && LateSame(b, c)
    ensures LateSame(a, c)
  {
    forall n: Name {:trigger Same(n, a, c)}
      | KeyName(n) || Touches(n, Cm1) || Touches(n, Cm2) || n == Root(Cm1) || n.Publics? || n.AirValues? || n.ProofValues?
      ensures Same(n, a, c)
    {
      assert Same(n, a, b) && Same(n, b, c);
    }
  }

  /** The env as every quotient window reads it. */
  ghost predicate ForQuotient<S>(m: Machine, key: Key, inst: Instance, s: Staged<S>, env: Env)
    requires ValidMachine(m)
  {
    Committed(s) && TablesIn(m, env) && Sub(QuotientKw(m, key, inst, s), env)
  }

  method WholeQuotient<S>(m: Machine, ghost key: Key, inst: Instance, ghost s: Staged<S>, env: Env) returns (q: Words)
    requires ValidMachine(m) && ForQuotient(m, key, inst, s, env) && |m.air.quotientChunks| == 1
    ensures q == QuotientPart(m, key, inst, s, 0)
  {
    hide QuotientKw;
    var outs := RunProgram(m, Quotient, env);
    QuotientExact(m, key, inst, s);
    OutputAgrees(m, Quotient, QuotientKw(m, key, inst, s), env, 0);
    q := outs.value[0];
  }

  method QuotientWindow<S>(m: Machine, ghost key: Key, inst: Instance, ghost s: Staged<S>, env: Env, k: nat) returns (q: Words)
    requires ValidMachine(m) && ForQuotient(m, key, inst, s, env) && 1 < |m.air.quotientChunks| && k < |m.air.quotientChunks|
    requires Rows in env && env[Rows] == WindowRows(m, k)
    ensures q == QuotientPart(m, key, inst, s, k)
  {
    hide ValidMachine, QuotientKw, TablesIn, Call;
    var size := m.air.quotientChunks[k];
    var outs := RunProgram(m, QuotientRows(size), env);
    ghost var kw := QuotientKw(m, key, inst, s)[Rows := WindowRows(m, k)];
    RowsExact(m, key, inst, s, size, WindowRows(m, k));
    assert Sub(kw, env);
    OutputAgrees(m, QuotientRows(size), kw, env, 0);
    q := outs.value[0];
  }

  lemma RowsForQuotient<S>(m: Machine, key: Key, inst: Instance, s: Staged<S>, env: Env, rows: Words)
    requires ValidMachine(m) && ForQuotient(m, key, inst, s, env)
    ensures ForQuotient(m, key, inst, s, env[Rows := rows])
  {
    hide ValidMachine, QuotientKw, TablesIn, KeySame, Sub;
    RowsUnread(m, key, inst, s);
    SubInsert(QuotientKw(m, key, inst, s), env, Rows, rows);
    InsertKeySame(env, Rows, rows);
    TablesSame(m, env, env[Rows := rows]);
  }

  lemma SectionsUnread<S>(m: Machine, key: Key, s: Staged<S>)
    requires ValidMachine(m) && Committed(s)
    ensures Rows !in QuotientSections(m, key, s)
  {
    hide ValidMachine, ConstExt, Outputs;
  }

  lemma ScalarsUnread<S>(m: Machine, inst: Instance, s: Staged<S>)
    requires ValidMachine(m)
    ensures Rows !in QuotientScalars(m, inst, s)
  {
    hide ValidMachine, ZiOf;
  }

  lemma RowsUnread<S>(m: Machine, key: Key, inst: Instance, s: Staged<S>)
    requires ValidMachine(m) && Committed(s)
    ensures Rows !in QuotientKw(m, key, inst, s)
  {
    hide ValidMachine, QuotientSections, QuotientScalars;
    SectionsUnread(m, key, s);
    ScalarsUnread(m, inst, s);
  }

  lemma SubInsert(kw: Env, env: Env, n: Name, v: Words)
    requires Sub(kw, env) && n !in kw
    ensures Sub(kw, env[n := v])
  {
  }

  /** Every window of the quotient, or the whole at once. */
  method QuotientWindows<S>(m: Machine, ghost key: Key, inst: Instance, ghost s: Staged<S>, env: Env) returns (qenv: Env, r: Env)
    requires ValidMachine(m) && ForQuotient(m, key, inst, s, env) && |m.air.quotientChunks| > 0
    ensures qenv == Numbered(QNames(|m.air.quotientChunks|), QuotientParts(m, key, inst, s, |m.air.quotientChunks|))
    ensures LateSame(env, r)
  {
    if |m.air.quotientChunks| == 1 {
      var q := WholeQuotient(m, key, inst, s, env);
      qenv, r := map[][QOf(0) := q], env;
      NumberedNext(QNames(0), [], QOf(0), q);
      NamesNext(0);
      assert QuotientParts(m, key, inst, s, 1) == [] + [q];
    } else {
      qenv, r := ManyWindows(m, key, inst, s, env);
    }
  }

  method NextWindow<S>(m: Machine, ghost key: Key, inst: Instance, ghost s: Staged<S>, env: Env, k: nat) returns (q: Words, r: Env)
    requires ValidMachine(m) && ForQuotient(m, key, inst, s, env) && 1 < |m.air.quotientChunks| && k < |m.air.quotientChunks|
    ensures q == QuotientPart(m, key, inst, s, k)
    ensures ForQuotient(m, key, inst, s, r) && LateSame(env, r)
  {
    var rows := env[RowsOf(k)];
    RowsForQuotient(m, key, inst, s, env, rows);
    InsertLate(env, Rows, rows);
    r := env[Rows := rows];
    q := QuotientWindow(m, key, inst, s, r, k);
  }

  method ManyWindows<S>(m: Machine, ghost key: Key, inst: Instance, ghost s: Staged<S>, env: Env) returns (qenv: Env, r: Env)
    requires ValidMachine(m) && ForQuotient(m, key, inst, s, env) && |m.air.quotientChunks| > 1
    ensures qenv == Numbered(QNames(|m.air.quotientChunks|), QuotientParts(m, key, inst, s, |m.air.quotientChunks|))
    ensures LateSame(env, r)
  {
    r := env;
    ghost var parts: seq<Words> := [];
    qenv := map[];
    for k := 0 to |m.air.quotientChunks|
      invariant parts == QuotientParts(m, key, inst, s, k) && qenv == Numbered(QNames(k), parts)
      invariant ForQuotient(m, key, inst, s, r) && LateSame(env, r)
    {
      hide ValidMachine, LateSame, Numbered;
      ghost var before := r;
      var q;
      q, r := NextWindow(m, key, inst, s, r, k);
      LateTrans(env, before, r);
      NumberedNext(QNames(k), parts, QOf(k), q);
      qenv := qenv[QOf(k) := q];
      NamesNext(k);
      parts := parts + [q];
    }
    InsertLate(r, Rows, []);
    LateTrans(env, r, r - {Rows});
    r := r - {Rows};
  }

  // ------------------------------------------------- what evaluations and DEEP read

  /** The key, the stages' trees and the quotient's: what the rest of a prove reads. */
  ghost predicate OpenIn<S>(m: Machine, key: Key, s: Staged<S>, d: Divided<S>, env: Env)
    requires ValidMachine(m)
  {
    && IsCommit(m, Cm1, Commit1, s.c1) && IsCommit(m, Cm2, Commit2, s.c2) && IsCommit(m, QSec, QuotientCommit, d.qc)
    && Carry(m, key, env) && StageTreesIn(m, s, env) && TreeIn(m, QSec, StageTree(m, QSec, QuotientCommit, d.qc), env)
  }

  ghost predicate Lasting(n: Name) { KeyName(n) || Touches(n, Cm1) || Touches(n, Cm2) || Touches(n, QSec) || n == Root(Cm1) }

  ghost predicate LastingSame(env: Env, env': Env) {
    forall n: Name {:trigger Same(n, env, env')} :: Lasting(n) ==> Same(n, env, env')
  }

  lemma OpenKept<S>(m: Machine, key: Key, s: Staged<S>, d: Divided<S>, env: Env, r: Env)
    requires ValidMachine(m) && OpenIn(m, key, s, d, env) && LastingSame(env, r)
    ensures OpenIn(m, key, s, d, r)
  {
    assert KeySame(env, r);
    CarryKept(m, key, env, r);
    TreeUntouched(m, Cm1, StageTree(m, Cm1, Commit1, s.c1), env, r);
    TreeUntouched(m, Cm2, StageTree(m, Cm2, Commit2, s.c2), env, r);
    TreeUntouched(m, QSec, StageTree(m, QSec, QuotientCommit, d.qc), env, r);
    assert Same(Root(Cm1), env, r);
  }

  lemma InsertLasting(env: Env, n: Name, v: Words)
    requires !Lasting(n)
    ensures LastingSame(env, env[n := v]) && LastingSame(env, env - {n})
  {
    forall k: Name {:trigger Same(k, env, env[n := v])} | Lasting(k) ensures Same(k, env, env[n := v]) { assert k != n; }
    forall k: Name {:trigger Same(k, env, env - {n})} | Lasting(k) ensures Same(k, env, env - {n}) { assert k != n; }
  }

  lemma LastingTrans(a: Env, b: Env, c: Env)
    requires LastingSame(a, b) && LastingSame(b, c)
    ensures LastingSame(a, c)
  {
    forall n: Name {:trigger Same(n, a, c)} | Lasting(n) ensures Same(n, a, c) { assert Same(n, a, b) && Same(n, b, c); }
  }

  lemma StageTreesUntouched<S>(m: Machine, s: Staged<S>, t: Tree, env: Env, r: Env)
    requires IsCommit(m, Cm1, Commit1, s.c1) && IsCommit(m, Cm2, Commit2, s.c2)
    requires StageTreesIn(m, s, env) && OnlyTree(t, env, r) && t != Cm1 && t != Cm2
    ensures StageTreesIn(m, s, r)
  {
    OtherTreeKept(m, Cm1, StageTree(m, Cm1, Commit1, s.c1), t, env, r);
    OtherTreeKept(m, Cm2, StageTree(m, Cm2, Commit2, s.c2), t, env, r);
    assert Same(Root(Cm1), env, r);
  }

  lemma QuotientTreeLeaves<S>(m: Machine, key: Key, inst: Instance, s: Staged<S>, d: Divided<S>, env: Env, r: Env)
    requires ValidMachine(m) && StagedIn(m, key, inst, s, env) && IsCommit(m, QSec, QuotientCommit, d.qc)
    requires OnlyTree(QSec, env, r) && TreeIn(m, QSec, StageTree(m, QSec, QuotientCommit, d.qc), r)
    ensures OpenIn(m, key, s, d, r)
  {
    OnlyTreeKeySame(QSec, env, r);
    CarryKept(m, key, env, r);
    StageTreesUntouched(m, s, QSec, env, r);
  }

  /** `quotient_commit`, its outputs stored under their names. */
  method CommitQuotient(m: Machine, qenv: Env, env: Env, ghost parts: seq<Words>) returns (r: Env)
    requires ValidMachine(m) && |parts| == |m.air.quotientChunks| && qenv == Numbered(QNames(|m.air.quotientChunks|), parts)
    ensures IsCommit(m, QSec, QuotientCommit, QuotientCommitOut(m, parts))
    ensures TreeIn(m, QSec, StageTree(m, QSec, QuotientCommit, QuotientCommitOut(m, parts)), r)
    ensures Root(QSec) in r && r[Root(QSec)] == QuotientCommitOut(m, parts)[Root(QSec)]
    ensures OnlyTree(QSec, env, r)
  {
    var outs := RunProgram(m, QuotientCommit, qenv);
    ghost var vals := m.exec(QuotientCommit, Args(Inputs(m.air, QuotientCommit), qenv));
    r := InsertAll(env, Outputs(m.air, QuotientCommit), outs.value, false);
    NotRenamed(Outputs(m.air, QuotientCommit));
    TreeAdded(m.air, QSec, Outputs(m.air, QuotientCommit), vals, env);
    CommitBinds(m, QSec, QuotientCommit, env, QuotientCommitOut(m, parts), vals);
  }

  lemma QuotientReady<S>(m: Machine, key: Key, inst: Instance, s: Staged<S>, env: Env)
    requires ValidMachine(m) && StagedIn(m, key, inst, s, env)
    requires ChallengesName in env && env[ChallengesName] == Flatten(s.challenges)
    requires AirgroupValues in env && env[AirgroupValues] == Flatten(s.airgroup)
    ensures ForQuotient(m, key, inst, s, env)
  {
    hide ValidMachine, Sub, TablesIn, KeyTrees, TreeIn;
    QuotientReads(m, key, inst, s, env);
  }

  method ReadyQuotient<S>(m: Machine, ghost key: Key, inst: Instance, ghost s: Staged<S>, env: Env, challenges: seq<Words>, airgroup: seq<Words>)
    returns (r: Env)
    requires ValidMachine(m) && StagedIn(m, key, inst, s, env) && challenges == s.challenges && airgroup == s.airgroup
    ensures StagedIn(m, key, inst, s, r) && ForQuotient(m, key, inst, s, r)
  {
    hide ValidMachine, Sub, StagedIn, ForQuotient, Committed;
    InsertLate(env, ChallengesName, Flatten(challenges));
    var one := env[ChallengesName := Flatten(challenges)];
    InsertLate(one, AirgroupValues, Flatten(airgroup));
    r := one[AirgroupValues := Flatten(airgroup)];
    LateTrans(env, one, r);
    StagedKept(m, key, inst, s, env, r);
    QuotientReady(m, key, inst, s, r);
  }

  /** The quotient: its windows, its commitment, and the challenges after it. */
  method RunQuotient<S>(m: Machine, h: Host<S>, ghost key: Key, inst: Instance, ghost s: Staged<S>, env: Env, host: HostStaged<S>)
    returns (r: Env, t: S, challenges: seq<Words>, rootq: Words)
    requires ValidMachine(m) && ValidAir(m.air) && StagedIn(m, key, inst, s, env)
    requires host.t == s.t && host.challenges == s.challenges && host.airgroup == s.airgroup
    ensures Committed(s) && OpenIn(m, key, s, Divide(m, h, key, inst, s), r)
    ensures t == Divide(m, h, key, inst, s).t && challenges == Divide(m, h, key, inst, s).challenges
    ensures rootq == Divide(m, h, key, inst, s).qc[Root(QSec)]
  {
    r := ReadyQuotient(m, key, inst, s, env, host.challenges, host.airgroup);
    var qenv;
    ghost var before := r;
    qenv, r := QuotientWindows(m, key, inst, s, r);
    StagedKept(m, key, inst, s, before, r);
    ghost var parts := QuotientParts(m, key, inst, s, |m.air.quotientChunks|);
    before := r;
    r := CommitQuotient(m, qenv, r, parts);
    QuotientTreeLeaves(m, key, inst, s, Divide(m, h, key, inst, s), before, r);
    rootq := r[Root(QSec)];
    t, challenges := SqueezeStage(m, h, h.put(host.t, rootq), host.challenges, NSTAGES + 2);
  }
}
