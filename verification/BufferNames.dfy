/** The buffers' names as the bridge spells them, and what its prefix sweeps take. */
module BufferNames {
  import opened AirPrograms
  import Driver

  // ---------------------------------------------------------------------- numerals

  function Digit(d: nat): char
    requires d < 10
  {
    "0123456789"[d]
  }

  /** A number in decimal. */
  function Digits(n: nat): (s: string)
    ensures |s| > 0
  {
    if n < 10 then [Digit(n)] else Digits(n / 10) + [Digit(n % 10)]
  }

  lemma DigitPlain(d: nat)
    requires d < 10
    ensures Digit(d) != '_'
  {
    if d == 0 {} else if d == 1 {} else if d == 2 {} else if d == 3 {} else if d == 4 {}
    else if d == 5 {} else if d == 6 {} else if d == 7 {} else if d == 8 {} else {}
  }

  lemma DigitOf(a: nat, b: nat)
    requires a < 10 && b < 10 && Digit(a) == Digit(b)
    ensures a == b
  {
    var s := "0123456789";
    assert s[0] == '0' && s[1] == '1' && s[2] == '2' && s[3] == '3' && s[4] == '4';
    assert s[5] == '5' && s[6] == '6' && s[7] == '7' && s[8] == '8' && s[9] == '9';
  }

  lemma {:induction false} DigitsPlain(n: nat, i: nat)
    requires i < |Digits(n)|
    ensures Digits(n)[i] != '_'
    decreases n
  {
    if n < 10 {
      DigitPlain(n);
    } else if i + 1 < |Digits(n)| {
      DigitsPlain(n / 10, i);
    } else {
      DigitPlain(n % 10);
    }
  }

  lemma {:induction false} DigitsSpell(a: nat, b: nat)
    requires Digits(a) == Digits(b)
    ensures a == b
    decreases a
  {
    var s, t := Digits(a), Digits(b);
    assert s[|s| - 1] == t[|t| - 1] && s[..|s| - 1] == t[..|t| - 1];
    if a < 10 || b < 10 {
      assert |s| == 1 && |t| == 1;
      DigitOf(a, b);
    } else {
      DigitOf(a % 10, b % 10);
      assert s[..|s| - 1] == Digits(a / 10) && t[..|t| - 1] == Digits(b / 10);
      DigitsSpell(a / 10, b / 10);
    }
  }

  // ------------------------------------------------------------------------- names

  /** The prefix of a tree's digest layers where a prove binds them. */
  function LayersPrefix(t: Tree): string {
    match t
    case Const => "const_layers_"
    case Custom(id) => "custom_layers_" + (Digits(id) + "_")
    case Cm1 => "cm1_layers_"
    case Cm2 => "cm2_layers_"
    case QSec => "qsec_layers_"
    case Fri(i) => "fri_layers_" + (Digits(i) + "_")
  }

  function BaseName(t: Tree): string {
    match t
    case Custom(id) => "custom_base_" + Digits(id)
    case _ => "const_base"
  }

  function MatrixName(t: Tree): string {
    match t
    case Const => "const_ext"
    case Custom(id) => "custom_ext_" + Digits(id)
    case Cm1 => "cm1_ext"
    case Cm2 => "cm2_ext"
    case QSec => "qsec"
    case Fri(i) => "fri_leaves_" + Digits(i)
  }

  function RootName(t: Tree): string {
    match t
    case Const => "const_root"
    case Custom(id) => "custom_root_" + Digits(id)
    case Cm1 => "root1"
    case Cm2 => "root2"
    case QSec => "rootq"
    case Fri(i) => "fri_root_" + Digits(i)
  }

  /** The key's and the stages' trees: the ones the sweeps release. */
  predicate Released(t: Tree) { !t.Fri? }

  /** The names an environment binds: all but a setup program's own layer names and what an
      opening program returns. */
  predicate InEnv(n: Name) {
    !n.SetupLayer? && !n.Openings? && !n.LastLevel? && (n.Base? ==> n.tree.Const? || n.tree.Custom?)
  }

  /** The names with a spelling of their own. */
  predicate Scalar(n: Name) { InEnv(n) && !n.Base? && !n.Matrix? && !n.Layer? && !n.Root? && !Counted(n) }

  /** The windows' names. */
  predicate Counted(n: Name) { n.RowsOf? || n.QOf? || n.EvalsOf? || n.FriPolOf? }

  function ScalarName(n: Name): string {
    match n
    case Zi => "zi"
    case Domain => "domain"
    case Rows => "rows"
    case Publics => "publics"
    case AirValues => "airvalues"
    case ProofValues => "proofvalues"
    case ChallengesName => "challenges"
    case AirgroupValue => "airgroupvalue"
    case AirgroupValues => "airgroupvalues"
    case Trace => "trace"
    case Cm2Base => "cm2"
    case Q => "q"
    case Xi => "xi"
    case LevName => "lev"
    case Start => "start"
    case Evals => "evals"
    case Vf1 => "vf1"
    case Vf2 => "vf2"
    case FriPol => "fri_pol"
    case Codeword => "codeword"
    case Beta => "beta"
    case FinalPol => "final_pol"
    case ChallengeName => "challenge"
    case Nonce => "nonce"
    case _ => "positions"
  }

  function CountedPrefix(n: Name): string {
    match n
    case RowsOf(_) => "rows_"
    case QOf(_) => "q_"
    case EvalsOf(_) => "evals_"
    case _ => "fri_pol_"
  }

  function Spelled(n: Name): string {
    match n
    case Base(t) => BaseName(t)
    case Matrix(t) => MatrixName(t)
    case Layer(t, k) => LayersPrefix(t) + Digits(k)
    case Root(t) => RootName(t)
    case RowsOf(k) => CountedPrefix(n) + Digits(k)
    case QOf(k) => CountedPrefix(n) + Digits(k)
    case EvalsOf(k) => CountedPrefix(n) + Digits(k)
    case FriPolOf(k) => CountedPrefix(n) + Digits(k)
    case _ => ScalarName(n)
  }

  // ------------------------------------------------------------------------- sweeps

  /** `starts_with` */
  predicate Starts(s: string, p: string) { |p| <= |s| && s[..|p|] == p }

  lemma Differs(s: string, p: string, i: nat)
    requires i < |p| && i < |s| && s[i] != p[i]
    ensures !Starts(s, p)
  {
    if |p| <= |s| { assert s[..|p|][i] == s[i]; }
  }

  lemma Begins(p: string, rest: string)
    ensures Starts(p + rest, p)
  {
  }

  /** A numeral and its underscore inside another: the numeral itself. */
  lemma SameNumeral(a: nat, b: nat, rest: string)
    requires Starts(Digits(b) + "_" + rest, Digits(a) + "_")
    ensures a == b
  {
    var x, y := Digits(a), Digits(b);
    var s := y + "_" + rest;
    var p := x + "_";
    assert s[..|p|] == p;
    if |x| < |y| {
      assert p[|x|] == s[|x|] == y[|x|];
      DigitsPlain(b, |x|);
    } else if |x| > |y| {
      assert p[|y|] == s[|y|] == '_';
      DigitsPlain(a, |y|);
    } else {
      assert forall i: nat {:trigger x[i]} | i < |x| :: x[i] == p[i] == s[i] == y[i];
      assert x == y;
      DigitsSpell(a, b);
    }
  }

  /** Some place where the two differ, or the name is too short. */
  predicate Apart(s: string, p: string) {
    |s| < |p| || (exists i: nat {:trigger p[i]} :: i < |p| && i < |s| && s[i] != p[i])
  }

  lemma ApartNever(s: string, p: string)
    requires Apart(s, p)
    ensures !Starts(s, p)
  {
    if |s| >= |p| {
      var i: nat {:trigger p[i]} :| i < |p| && i < |s| && s[i] != p[i];
      Differs(s, p, i);
    }
  }

  predicate DifferAt(s: string, p: string, i: nat) { i < |p| && i < |s| && s[i] != p[i] }

  /** The places where two of the names below part. */
  lemma Places(s: string, p: string)
    ensures DifferAt(s, p, 0) || DifferAt(s, p, 1) || DifferAt(s, p, 2) || DifferAt(s, p, 4) || DifferAt(s, p, 6) || DifferAt(s, p, 7)
            ==> Apart(s, p)
  {
  }

  lemma ScalarApart(n: Name, t: Tree)
    requires Scalar(n) && Released(t)
    ensures Apart(ScalarName(n), LayersPrefix(t))
  {
    Places(ScalarName(n), LayersPrefix(t));
  }

  lemma KeyNameApart(n: Name, t: Tree)
    requires (n.Base? || n.Matrix? || n.Root?) && (n.tree.Const? || n.tree.Custom?) && Released(t)
    ensures Apart(Spelled(n), LayersPrefix(t))
  {
    Places(Spelled(n), LayersPrefix(t));
  }

  lemma StageNameApart(n: Name, t: Tree)
    requires (n.Matrix? || n.Root?) && (n.tree.Cm1? || n.tree.Cm2? || n.tree.QSec?) && Released(t)
    ensures Apart(Spelled(n), LayersPrefix(t))
  {
    Places(Spelled(n), LayersPrefix(t));
  }

  /** Layers of two different trees, unless both are custom ones. */
  lemma LayerApart(u: Tree, k: nat, t: Tree)
    requires Released(u) && Released(t) && u != t && !(u.Custom? && t.Custom?)
    ensures Apart(LayersPrefix(u) + Digits(k), LayersPrefix(t))
  {
    Places(LayersPrefix(u) + Digits(k), LayersPrefix(t));
  }

  lemma CountedApart(n: Name, t: Tree)
    requires Counted(n) && Released(t)
    ensures Apart(Spelled(n), LayersPrefix(t))
  {
    Places(Spelled(n), LayersPrefix(t));
  }

  lemma FriNameApart(n: Name, t: Tree)
    requires (n.Matrix? || n.Root? || n.Layer?) && n.tree.Fri? && Released(t)
    ensures Apart(Spelled(n), LayersPrefix(t))
  {
    Places(Spelled(n), LayersPrefix(t));
  }

  /** Custom 1's sweep leaves custom 10 alone: the underscore ends the numeral. */
  lemma CustomLayers(a: nat, b: nat, k: nat)
    ensures Starts(LayersPrefix(Custom(b)) + Digits(k), LayersPrefix(Custom(a))) <==> a == b
  {
    var head := "custom_layers_";
    var s := head + (Digits(b) + "_" + Digits(k));
    var p := head + (Digits(a) + "_");
    assert LayersPrefix(Custom(b)) + Digits(k) == s && LayersPrefix(Custom(a)) == p;
    if Starts(s, p) {
      assert s[|head|..] == Digits(b) + "_" + Digits(k);
      assert (Digits(b) + "_" + Digits(k))[..|Digits(a) + "_"|] == s[..|p|][|head|..];
      SameNumeral(a, b, Digits(k));
    }
    if a == b { Begins(p, Digits(k)); }
  }

  /** `release_tree`'s prefix sweep takes exactly the tree's own digest layers. */
  lemma SweepTakesOneTree(n: Name, t: Tree)
    requires InEnv(n) && Released(t)
    ensures Starts(Spelled(n), LayersPrefix(t)) <==> n.Layer? && n.tree == t
  {
    if n.Layer? && n.tree.Custom? && t.Custom? {
      CustomLayers(t.id, n.tree.id, n.k);
    } else if n.Layer? && n.tree == t {
      Begins(LayersPrefix(t), Digits(n.k));
    } else {
      if Counted(n) { CountedApart(n, t); }
      else if Scalar(n) { ScalarApart(n, t); }
      else if n.tree.Fri? { FriNameApart(n, t); }
      else if n.Layer? { LayerApart(n.tree, n.k, t); }
      else if n.tree.Const? || n.tree.Custom? { KeyNameApart(n, t); }
      else { StageNameApart(n, t); }
      ApartNever(Spelled(n), LayersPrefix(t));
    }
  }

  // ------------------------------------------------------------------ one name, one text

  /** The name without its numbers. */
  function HeadTree(t: Tree): Tree {
    match t
    case Custom(_) => Custom(0)
    case Fri(_) => Fri(0)
    case _ => t
  }

  function Head(n: Name): Name {
    match n
    case Base(t) => Base(HeadTree(t))
    case Matrix(t) => Matrix(HeadTree(t))
    case Layer(t, _) => Layer(HeadTree(t), 0)
    case Root(t) => Root(HeadTree(t))
    case RowsOf(_) => RowsOf(0)
    case QOf(_) => QOf(0)
    case EvalsOf(_) => EvalsOf(0)
    case FriPolOf(_) => FriPolOf(0)
    case _ => n
  }

  function Char(s: string, i: nat): char { if i < |s| then s[i] else ' ' }

  function ReadConst(s: string): Name {
    var c := Char(s, 6);
    if c == 'b' then Base(Const) else if c == 'e' then Matrix(Const) else if c == 'r' then Root(Const) else Layer(Const, 0)
  }

  function ReadCustom(s: string): Name {
    var c := Char(s, 7);
    if c == 'b' then Base(Custom(0)) else if c == 'e' then Matrix(Custom(0))
    else if c == 'r' then Root(Custom(0)) else Layer(Custom(0), 0)
  }

  function ReadC(s: string): Name {
    var c := Char(s, 1);
    if c == 'h' then if |s| == 10 then ChallengesName else ChallengeName
    else if c == 'u' then ReadCustom(s)
    else if c == 'o' then if Char(s, 2) == 'd' then Codeword else ReadConst(s)
    else if |s| == 3 then Cm2Base
    else
      var t := if Char(s, 2) == '1' then Cm1 else Cm2;
      if Char(s, 4) == 'e' then Matrix(t) else Layer(t, 0)
  }

  function ReadF(s: string): Name {
    var c := Char(s, 4);
    if Char(s, 1) == 'i' then FinalPol
    else if c == 'p' then if |s| == 7 then FriPol else FriPolOf(0)
    else if c == 'r' then Root(Fri(0))
    else if Char(s, 5) == 'e' then Matrix(Fri(0)) else Layer(Fri(0), 0)
  }

  function ReadQ(s: string): Name {
    if |s| == 1 then Q else if Char(s, 1) == '_' then QOf(0) else if |s| == 4 then Matrix(QSec) else Layer(QSec, 0)
  }

  function ReadR(s: string): Name {
    var c := Char(s, 4);
    if Char(s, 2) == 'w' then if |s| == 4 then Rows else RowsOf(0)
    else Root(if c == '1' then Cm1 else if c == '2' then Cm2 else QSec)
  }

  function ReadAP(s: string): Name {
    var c := Char(s, 1);
    if c == 'u' then Publics else if c == 'r' then ProofValues else if c == 'o' then Positions
    else if Char(s, 3) == 'v' then AirValues else if |s| == 13 then AirgroupValue else AirgroupValues
  }

  function ReadOther(s: string): Name {
    var c := Char(s, 0);
    if c == 'z' then Zi else if c == 'd' then Domain else if c == 't' then Trace else if c == 'x' then Xi
    else if c == 'l' then LevName else if c == 's' then Start else if c == 'b' then Beta else if c == 'n' then Nonce
    else if c == 'e' then if |s| == 5 then Evals else EvalsOf(0)
    else if Char(s, 2) == '1' then Vf1 else Vf2
  }

  /** Which name a text spells, up to its numbers. */
  function Read(s: string): Name {
    var c := Char(s, 0);
    if c == 'c' then ReadC(s) else if c == 'f' then ReadF(s) else if c == 'q' then ReadQ(s)
    else if c == 'r' then ReadR(s) else if c == 'a' || c == 'p' then ReadAP(s) else ReadOther(s)
  }

  lemma ReadKeyName(n: Name)
    requires (n.Base? || n.Matrix? || n.Root?) && (n.tree.Const? || n.tree.Custom?)
    ensures Read(Spelled(n)) == Head(n)
  {
    hide Digits, ReadF, ReadQ, ReadR, ReadAP, ReadOther, ScalarName;
  }

  lemma ReadMatrix(t: Tree)
    requires !t.Const? && !t.Custom?
    ensures Read(MatrixName(t)) == Matrix(HeadTree(t))
  {
    hide Digits, ReadConst, ReadCustom, ReadR, ReadAP, ReadOther;
  }

  lemma ReadRoot(t: Tree)
    requires !t.Const? && !t.Custom?
    ensures Read(RootName(t)) == Root(HeadTree(t))
  {
    hide Digits, ReadConst, ReadCustom, ReadQ, ReadAP, ReadOther;
  }

  lemma ReadKeyLayer(t: Tree, k: nat)
    requires t.Const? || t.Custom?
    ensures Read(LayersPrefix(t) + Digits(k)) == Layer(HeadTree(t), 0)
  {
    hide Digits, ReadF, ReadQ, ReadR, ReadAP, ReadOther;
  }

  lemma ReadStageLayer(t: Tree, k: nat)
    requires !t.Const? && !t.Custom?
    ensures Read(LayersPrefix(t) + Digits(k)) == Layer(HeadTree(t), 0)
  {
    hide Digits, ReadConst, ReadCustom, ReadR, ReadAP, ReadOther;
  }

  /** The scalar names by their first letter. */
  predicate StartsAP(n: Name) {
    n.Publics? || n.AirValues? || n.ProofValues? || n.AirgroupValue? || n.AirgroupValues? || n.Positions?
  }

  predicate StartsCFQR(n: Name) {
    n.ChallengesName? || n.Cm2Base? || n.Codeword? || n.ChallengeName? || n.FriPol? || n.FinalPol? || n.Q? || n.Rows?
  }

  lemma ReadCFQR(n: Name)
    requires StartsCFQR(n)
    ensures Read(ScalarName(n)) == n
  {
    hide ReadConst, ReadCustom, ReadAP, ReadOther;
  }

  lemma ReadScalarOther(n: Name)
    requires Scalar(n) && !StartsAP(n) && !StartsCFQR(n)
    ensures Read(ScalarName(n)) == n
  {
    hide ReadC, ReadF, ReadQ, ReadR, ReadAP;
  }

  lemma ReadScalar(n: Name)
    requires Scalar(n)
    ensures Read(ScalarName(n)) == n
  {
    if StartsCFQR(n) {
      ReadCFQR(n);
    } else if StartsAP(n) {
      hide ReadC, ReadF, ReadQ, ReadR, ReadOther;
      assert Read(ScalarName(n)) == n;
    } else {
      ReadScalarOther(n);
    }
  }

  lemma ReadCounted(n: Name)
    requires Counted(n)
    ensures Read(Spelled(n)) == Head(n)
  {
    hide Digits, ScalarName, LayersPrefix, BaseName, MatrixName, RootName, ReadC, ReadAP;
  }

  lemma ReadSpelled(n: Name)
    requires InEnv(n)
    ensures Read(Spelled(n)) == Head(n)
  {
    hide Read, Digits, ScalarName, LayersPrefix, BaseName, MatrixName, RootName;
    if Counted(n) { ReadCounted(n); }
    else if Scalar(n) { ReadScalar(n); }
    else if n.Layer? {
      if n.tree.Const? || n.tree.Custom? { ReadKeyLayer(n.tree, n.k); } else { ReadStageLayer(n.tree, n.k); }
    }
    else if n.tree.Const? || n.tree.Custom? { ReadKeyName(n); }
    else if n.Matrix? { ReadMatrix(n.tree); }
    else { ReadRoot(n.tree); }
  }

  lemma SameTail(p: string, x: string, y: string)
    requires p + x == p + y
    ensures x == y
  {
    assert (p + x)[|p|..] == x && (p + y)[|p|..] == y;
  }

  lemma SameEnd(p: string, a: nat, b: nat)
    requires p + Digits(a) == p + Digits(b)
    ensures a == b
  {
    hide Digits;
    SameTail(p, Digits(a), Digits(b));
    DigitsSpell(a, b);
  }

  lemma Regroup(p: string, x: string, y: string)
    ensures (p + (x + "_")) + y == p + (x + "_" + y)
  {
  }

  /** Two numerals, each with its underscore or at the end. */
  lemma SamePair(p: string, a: nat, k: nat, b: nat, l: nat)
    requires (p + (Digits(a) + "_")) + Digits(k) == (p + (Digits(b) + "_")) + Digits(l)
    ensures a == b && k == l
  {
    hide Digits, Starts;
    Regroup(p, Digits(a), Digits(k));
    Regroup(p, Digits(b), Digits(l));
    SameTail(p, Digits(a) + "_" + Digits(k), Digits(b) + "_" + Digits(l));
    Begins(Digits(a) + "_", Digits(k));
    SameNumeral(a, b, Digits(l));
    SameEnd(Digits(a) + "_", k, l);
  }

  lemma LayersOnce(t: Tree, k: nat, u: Tree, l: nat)
    requires HeadTree(t) == HeadTree(u) && LayersPrefix(t) + Digits(k) == LayersPrefix(u) + Digits(l)
    ensures t == u && k == l
  {
    match t
    case Custom(a) => SamePair("custom_layers_", a, k, u.id, l);
    case Fri(a) => SamePair("fri_layers_", a, k, u.round, l);
    case _ => SameEnd(LayersPrefix(t), k, l);
  }

  lemma TreeNamesOnce(n: Name, m: Name)
    requires InEnv(n) && InEnv(m) && (n.Base? || n.Matrix? || n.Root?) && Head(n) == Head(m) && Spelled(n) == Spelled(m)
    ensures n == m
  {
    if n.tree.Custom? {
      SameEnd(if n.Base? then "custom_base_" else if n.Matrix? then "custom_ext_" else "custom_root_", n.tree.id, m.tree.id);
    } else if n.tree.Fri? {
      SameEnd(if n.Matrix? then "fri_leaves_" else "fri_root_", n.tree.round, m.tree.round);
    }
  }

  /** No two names an environment binds share a text. */
  lemma SpelledOnce(n: Name, m: Name)
    requires InEnv(n) && InEnv(m) && Spelled(n) == Spelled(m)
    ensures n == m
  {
    hide Read, Digits, LayersPrefix, BaseName, MatrixName, RootName, ScalarName;
    ReadSpelled(n);
    ReadSpelled(m);
    if n.Layer? { LayersOnce(n.tree, n.k, m.tree, m.k); }
    else if Counted(n) { SameEnd(CountedPrefix(n), n.k, m.k); }
    else if n.Base? || n.Matrix? || n.Root? { TreeNamesOnce(n, m); }
  }

  // --------------------------------------------------------- the environment keyed by text

  ghost predicate AllInEnv(env: Env) { forall n: Name {:trigger n in env} | n in env :: InEnv(n) }

  ghost predicate SpellsOne(env: Env, s: string) { exists n: Name :: n in env && Spelled(n) == s }

  /** `text` is the environment as the bridge keeps it, keyed by text. */
  ghost predicate IsText(env: Env, text: map<string, Words>) {
    && AllInEnv(env)
    && (forall n: Name {:trigger n in env} | n in env :: Spelled(n) in text && text[Spelled(n)] == env[n])
    && (forall s: string {:trigger s in text} | s in text :: SpellsOne(env, s))
  }

  /** Looking a name up by its text finds what it is bound to, or nothing. */
  lemma TextLooksUp(env: Env, text: map<string, Words>, n: Name)
    requires IsText(env, text) && InEnv(n)
    ensures n in env <==> Spelled(n) in text
    ensures n in env ==> text[Spelled(n)] == env[n]
  {
    hide Spelled, InEnv;
    if Spelled(n) in text {
      var m: Name :| m in env && Spelled(m) == Spelled(n);
      SpelledOnce(m, n);
    }
  }

  lemma TextInserts(env: Env, text: map<string, Words>, n: Name, v: Words)
    requires IsText(env, text) && InEnv(n)
    ensures IsText(env[n := v], text[Spelled(n) := v])
  {
    hide Spelled, InEnv, Starts;
    var e, t := env[n := v], text[Spelled(n) := v];
    forall m: Name {:trigger m in e} | m in e ensures Spelled(m) in t && t[Spelled(m)] == e[m] {
      if m != n && Spelled(m) == Spelled(n) { SpelledOnce(m, n); }
    }
    forall s: string {:trigger s in t} | s in t ensures SpellsOne(e, s) {
      if s == Spelled(n) {
        assert n in e;
      } else {
        var m: Name :| m in env && Spelled(m) == s;
        assert m in e;
      }
    }
  }

  lemma TextRemoves(env: Env, text: map<string, Words>, n: Name)
    requires IsText(env, text) && InEnv(n)
    ensures IsText(env - {n}, text - {Spelled(n)})
  {
    hide Spelled, InEnv, Starts;
    var e, t := env - {n}, text - {Spelled(n)};
    forall m: Name {:trigger m in e} | m in e ensures Spelled(m) in t && t[Spelled(m)] == e[m] {
      if Spelled(m) == Spelled(n) { SpelledOnce(m, n); }
    }
    forall s: string {:trigger s in t} | s in t ensures SpellsOne(e, s) {
      var m: Name :| m in env && Spelled(m) == s;
      assert m in e;
    }
  }

  /** `release_tree`: the section removed, and every name with the layers' prefix. */
  function SweptText(text: map<string, Words>, t: Tree): map<string, Words> {
    map s: string | s in text && s != MatrixName(t) && !Starts(s, LayersPrefix(t)) :: text[s]
  }

  lemma TextReleases(env: Env, text: map<string, Words>, t: Tree)
    requires IsText(env, text) && Released(t)
    ensures IsText(Driver.ReleaseTree(env, t), SweptText(text, t))
  {
    assert InEnv(Matrix(t)) && Spelled(Matrix(t)) == MatrixName(t);
    hide Spelled, InEnv, Starts, MatrixName, LayersPrefix;
    var e, x := Driver.ReleaseTree(env, t), SweptText(text, t);
    forall m: Name {:trigger m in e} | m in e ensures Spelled(m) in x && x[Spelled(m)] == e[m] {
      assert m in env;
      SweepTakesOneTree(m, t);
      if Spelled(m) == MatrixName(t) { SpelledOnce(m, Matrix(t)); }
    }
    forall s: string {:trigger s in x} | s in x ensures SpellsOne(e, s) {
      var m: Name :| m in env && Spelled(m) == s;
      SweepTakesOneTree(m, t);
      assert m in e;
    }
  }

  // ------------------------------------------------------------------ the setup rename

  /** A setup program's own prefix for its layers. */
  function SetupPrefix(t: Tree): string {
    match t
    case Custom(id) => "custom_setup_" + (Digits(id) + "_layers_")
    case _ => "const_setup_layers_"
  }

  /** A setup program's output, as the manifest spells it. */
  function Declared(n: Name): string {
    if n.SetupLayer? then SetupPrefix(n.tree) + Digits(n.k) else Spelled(n)
  }

  /** `run_into`'s rename of one output. */
  function RenamedText(s: string, was: string, now: string): string {
    if Starts(s, was) then now + s[|was|..] else s
  }

  /** On a setup program's outputs the text rename is the structured one: the layers move
      to the tree's own prefix, and its root and section stay. */
  lemma RenameAgrees(n: Name, t: Tree)
    requires (t.Const? || t.Custom?) && (n == Root(t) || n == Matrix(t) || (n.SetupLayer? && n.tree == t))
    ensures RenamedText(Declared(n), SetupPrefix(t), LayersPrefix(t)) == Spelled(Driver.Renamed(n, true))
  {
    if n.SetupLayer? {
      var p, d := SetupPrefix(t), Digits(n.k);
      Begins(p, d);
      assert (p + d)[|p|..] == d;
    } else {
      Differs(Spelled(n), SetupPrefix(t), if t.Const? then 6 else 7);
    }
  }
}
