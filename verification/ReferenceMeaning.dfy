/**
 Straight-line scripts on scalar variables, with references, and what they mean on variables with eager copying and
 explicit reference sets.
 */
module ReferenceMeaning {
  import opened Values
  import opened RefSets
  import opened CowMoves
  import Source

  datatype Expr =
    | Lit(v: Value)
    | Read(x: string)
    | Binary(op: BinOp, l: Expr, r: Expr)
    | Assign(x: string, e: Expr)
    | Bind(x: string, y: string)              // $x =& $y
    | AssignOp(op: BinOp, x: string, e: Expr)
    | IncDecVar(kind: IncDec, x: string)

  datatype Stmt = Do(e: Expr) | Unset(x: string)

  function Entered(s: Vars, x: string): (r: Vars)
    ensures BindReady(r, x, x)
    ensures forall y :: BindReady(s, y, y) ==> BindReady(r, y, y)
  {
    s.Touched(x)
  }

  /** The value of an expression and the variables after it. */
  function Meaning(lib: Lib, e: Expr, s: Vars): (Value, Vars)
    decreases e
  {
    match e
    case Lit(v) => (v, s)
    case Read(x) => (s.Get(x), s)
    case Binary(op, l, r) =>
      var (v, s1) := Meaning(lib, l, s);
      var (w, s2) := Meaning(lib, r, s1);
      (lib.binary(op, v, w), s2)
    case Assign(x, r) =>
      var (v, s1) := Meaning(lib, r, s);
      (v, Entered(s1, x).Assigned(x, v))
    case Bind(x, y) =>
      var s1 := Entered(Entered(s, y), x);
      var s2 := if x == y then s1.Detached(x) else s1.Bound(x, y);
      (s2.Get(x), s2)
    case AssignOp(op, x, r) =>
      var (v, s1) := Meaning(lib, r, s);
      var s2 := Entered(s1, x);
      var w := lib.binary(op, s2.Get(x), v);
      (w, s2.Assigned(x, w))
    case IncDecVar(kind, x) =>
      var s1 := Entered(s, x);
      var w := lib.incDec(kind, s1.Get(x));
      (if kind.Post() then s1.Get(x) else w, s1.Assigned(x, w))
  }

  function StmtMeaning(lib: Lib, c: Stmt, s: Vars): Vars {
    match c
    case Do(e) => Meaning(lib, e, s).1
    case Unset(x) => s.Unset(x)
  }

  function ScriptMeaning(lib: Lib, cs: seq<Stmt>, s: Vars): Vars
    decreases |cs|
  {
    if cs == [] then s else StmtMeaning(lib, cs[|cs| - 1], ScriptMeaning(lib, cs[..|cs| - 1], s))
  }

  // What the reference-set semantics itself guarantees

  /** Reference sets go on partitioning the variables, each set with one value. */
  lemma {:induction false} MeaningCoherent(lib: Lib, e: Expr, s: Vars)
    requires s.Coherent()
    ensures Meaning(lib, e, s).1.Coherent()
    decreases e
  {
    hide Vars.Coherent, Vars.Touched, Vars.Assigned, Vars.Bound, Vars.Detached, Vars.Get;
    match e {
      case Lit(_) =>
      case Read(_) =>
      case Binary(op, l, r) =>
        MeaningCoherent(lib, l, s);
        MeaningCoherent(lib, r, Meaning(lib, l, s).1);
      case Assign(x, r) =>
        MeaningCoherent(lib, r, s);
        TouchedCoherent(Meaning(lib, r, s).1, x);
        AssignedCoherent(Entered(Meaning(lib, r, s).1, x), x, Meaning(lib, r, s).0);
      case Bind(x, y) =>
        TouchedCoherent(s, y);
        TouchedCoherent(Entered(s, y), x);
        var t := Entered(Entered(s, y), x);
        if x == y {
          DetachedCoherent(t, x);
        } else {
          BoundCoherent(t, x, y);
        }
      case AssignOp(op, x, r) =>
        MeaningCoherent(lib, r, s);
        TouchedCoherent(Meaning(lib, r, s).1, x);
        var t := Entered(Meaning(lib, r, s).1, x);
        AssignedCoherent(t, x, lib.binary(op, t.Get(x), Meaning(lib, r, s).0));
      case IncDecVar(k, x) =>
        TouchedCoherent(s, x);
        AssignedCoherent(Entered(s, x), x, lib.incDec(k, Entered(s, x).Get(x)));
    }
  }

  lemma TouchedCoherent(s: Vars, x: string)
    requires s.Coherent()
    ensures s.Touched(x).Coherent()
  {
  }

  lemma AssignedCoherent(s: Vars, x: string, v: Value)
    requires s.Coherent() && x in s.refs
    ensures s.Assigned(x, v).Coherent()
  {
  }

  lemma DetachedCoherent(s: Vars, x: string)
    requires s.Coherent() && x in s.refs
    ensures s.Detached(x).Coherent()
  {
  }

  lemma BoundCoherent(s: Vars, x: string, y: string)
    requires s.Coherent() && BindReady(s, x, y) && x != y
    ensures s.Bound(x, y).Coherent()
  {
    var b := s.Bound(x, y);
    forall z, w | z in b.refs && w in b.refs[z]
      ensures w in b.refs && b.refs[w] == b.refs[z] && b.value[w] == b.value[z]
    {
      Mutual(s, y, z);
      Mutual(s, x, z);
      BoundMember(s, x, y, z, w);
    }
  }

  lemma BoundMember(s: Vars, x: string, y: string, z: string, w: string)
    requires s.Coherent() && BindReady(s, x, y) && x != y && z in s.refs && w in s.Bound(x, y).refs[z]
    ensures var b := s.Bound(x, y); w in s.refs && b.refs[w] == b.refs[z] && b.value[w] == b.value[z]
  {
  }

  lemma UnsetCoherent(s: Vars, x: string)
    requires s.Coherent()
    ensures s.Unset(x).Coherent()
  {
  }

  lemma {:induction false} ScriptCoherent(lib: Lib, cs: seq<Stmt>, s: Vars)
    requires s.Coherent()
    ensures ScriptMeaning(lib, cs, s).Coherent()
    decreases |cs|
  {
    if cs != [] {
      var s1 := ScriptMeaning(lib, cs[..|cs| - 1], s);
      ScriptCoherent(lib, cs[..|cs| - 1], s);
      if cs[|cs| - 1].Do? {
        MeaningCoherent(lib, cs[|cs| - 1].e, s1);
      } else {
        UnsetCoherent(s1, cs[|cs| - 1].x);
      }
    }
  }

  /**
   A variable bound to itself should stay as it is. It leaves its set instead, so this holds exactly when it is
   in no set to begin with.
   */
  lemma SelfBindingKeeps(lib: Lib, s: Vars, x: string)
    requires s.Coherent() && x in s.refs
    ensures Meaning(lib, Bind(x, x), s).1 == s <==> s.refs[x] == {x}
  {
    assert Entered(Entered(s, x), x) == s;
    if s.refs[x] == {x} {
      DetachedAlone(s, x);
    } else {
      assert s.Detached(x).refs[x] == {x};
    }
  }

  /** $b = 1; $a =& $b; and then, or not, $a =& $a; and finally $b = 2 */
  function SelfBindingScript(own: bool): seq<Stmt> {
    [Do(Assign("b", Lit(Long(1)))), Do(Bind("a", "b"))] + (if own then [Do(Bind("a", "a"))] else []) + [Do(Assign("b", Lit(Long(2))))]
  }

  /** Having been bound to itself, $a no longer follows $b. */
  lemma SelfBindingLeaves(lib: Lib, own: bool)
    ensures ScriptMeaning(lib, SelfBindingScript(own), Vars(map[], map[])).Get("a") == Long(if own then 1 else 2)
  {
    hide StmtMeaning, ScriptMeaning;
    var cs := SelfBindingScript(own);
    var s0 := Vars(map[], map[]);
    var both := {"a", "b"};
    var s2 := Vars(map["a" := Long(1), "b" := Long(1)], map["a" := both, "b" := both]);
    ScriptNext(lib, cs[..1], s0);
    ScriptNext(lib, cs[..2], s0);
    ScriptNext(lib, cs[..3], s0);
    ScriptNext(lib, cs, s0);
    assert cs[..2][..1] == cs[..1] && cs[..3][..2] == cs[..2] && cs[..1][..0] == [];
    ScriptNone(lib, s0);
    AssignedFirst(lib, s0, "b");
    BoundSecond(lib);
    assert ScriptMeaning(lib, cs[..2], s0) == s2;
    if own {
      assert cs[..|cs| - 1] == cs[..3] && cs[..|cs| - 1][..2] == cs[..2];
      var s3 := Vars(map["a" := Long(1), "b" := Long(1)], map["a" := {"a"}, "b" := {"b"}]);
      LeftThird(lib, s2, s3);
      AssignedLast(lib, s3, {"b"});
    } else {
      assert cs[..|cs| - 1] == cs[..2];
      AssignedLast(lib, s2, both);
    }
  }

  lemma ScriptNext(lib: Lib, cs: seq<Stmt>, s: Vars)
    requires cs != []
    ensures ScriptMeaning(lib, cs, s) == StmtMeaning(lib, cs[|cs| - 1], ScriptMeaning(lib, cs[..|cs| - 1], s))
  {
  }

  lemma ScriptNone(lib: Lib, s: Vars)
    ensures ScriptMeaning(lib, [], s) == s
  {
  }

  lemma AssignedFirst(lib: Lib, s: Vars, x: string)
    requires s == Vars(map[], map[])
    ensures StmtMeaning(lib, Do(Assign(x, Lit(Long(1)))), s) == Vars(map[x := Long(1)], map[x := {x}])
  {
    assert Meaning(lib, Lit(Long(1)), s) == (Long(1), s);
    SameVars(Entered(s, x).Assigned(x, Long(1)), Vars(map[x := Long(1)], map[x := {x}]));
  }

  lemma BoundSecond(lib: Lib)
    ensures StmtMeaning(lib, Do(Bind("a", "b")), Vars(map["b" := Long(1)], map["b" := {"b"}]))
      == Vars(map["a" := Long(1), "b" := Long(1)], map["a" := {"a", "b"}, "b" := {"a", "b"}])
  {
    var s := Vars(map["b" := Long(1)], map["b" := {"b"}]);
    var u := Entered(Entered(s, "b"), "a");
    assert u == Vars(map["b" := Long(1), "a" := Null], map["b" := {"b"}, "a" := {"a"}]);
    SameVars(u.Bound("a", "b"), Vars(map["a" := Long(1), "b" := Long(1)], map["a" := {"a", "b"}, "b" := {"a", "b"}]));
  }

  lemma LeftThird(lib: Lib, s: Vars, r: Vars)
    requires s == Vars(map["a" := Long(1), "b" := Long(1)], map["a" := {"a", "b"}, "b" := {"a", "b"}])
    requires r == Vars(map["a" := Long(1), "b" := Long(1)], map["a" := {"a"}, "b" := {"b"}])
    ensures StmtMeaning(lib, Do(Bind("a", "a")), s) == r
  {
    assert Entered(Entered(s, "a"), "a") == s;
    assert {"a", "b"} - {"a"} == {"b"};
    SameVars(s.Detached("a"), r);
  }

  lemma AssignedLast(lib: Lib, s: Vars, w: set<string>)
    requires s.value == map["a" := Long(1), "b" := Long(1)] && s.refs.Keys == {"a", "b"} && s.refs["b"] == w
    ensures StmtMeaning(lib, Do(Assign("b", Lit(Long(2)))), s).Get("a") == Long(if "a" in w then 2 else 1)
  {
    assert Meaning(lib, Lit(Long(2)), s) == (Long(2), s) && Entered(s, "b") == s;
  }

  /** No expression in here binds references. */
  predicate BindFree(e: Expr) {
    match e
    case Lit(_) => true
    case Read(_) => true
    case Binary(_, l, r) => BindFree(l) && BindFree(r)
    case Assign(_, r) => BindFree(r)
    case Bind(_, _) => false
    case AssignOp(_, _, r) => BindFree(r)
    case IncDecVar(_, _) => true
  }

  function Plain(e: Expr): Source.Expr
    requires BindFree(e)
  {
    match e
    case Lit(v) => Source.Lit(v)
    case Read(x) => Source.Read(x)
    case Binary(op, l, r) => Source.Binary(op, Plain(l), Plain(r))
    case Assign(x, r) => Source.Assign(x, Plain(r))
    case AssignOp(op, x, r) => Source.AssignOp(op, x, Plain(r))
    case IncDecVar(k, x) => Source.IncDecVar(k, x)
  }

  /** Every variable is alone in its set. */
  ghost predicate AllAlone(s: Vars) {
    s.refs.Keys == s.value.Keys && forall x :: x in s.refs ==> s.refs[x] == {x}
  }

  /** Without references, the variables seen through shared zvals are the plain store of the compiler's source language. */
  lemma {:induction false} PlainStore(lib: Lib, e: Expr, s: Vars, st: Store)
    requires BindFree(e) && AllAlone(s) && s.value == st.vars
    ensures AllAlone(Meaning(lib, e, s).1)
    ensures Meaning(lib, e, s).0 == Source.Eval(lib, Plain(e), st).0
    ensures Meaning(lib, e, s).1.value == Source.Eval(lib, Plain(e), st).1.vars
    decreases e
  {
    hide AllAlone, Vars.Touched, Vars.Assigned;
    match e {
      case Lit(_) =>
      case Read(_) =>
      case Binary(op, l, r) =>
        PlainStore(lib, l, s, st);
        PlainStore(lib, r, Meaning(lib, l, s).1, Source.Eval(lib, Plain(l), st).1);
      case Assign(x, r) =>
        PlainStore(lib, r, s, st);
        PlainAssignment(Meaning(lib, r, s).1, x, Meaning(lib, r, s).0);
      case AssignOp(op, x, r) =>
        PlainStore(lib, r, s, st);
        var t := Meaning(lib, r, s).1;
        PlainAssignment(t, x, lib.binary(op, Entered(t, x).Get(x), Meaning(lib, r, s).0));
      case IncDecVar(k, x) =>
        PlainAssignment(s, x, lib.incDec(k, Entered(s, x).Get(x)));
    }
  }

  lemma PlainAssignment(s: Vars, x: string, v: Value)
    requires AllAlone(s)
    ensures AllAlone(Entered(s, x).Assigned(x, v)) && Entered(s, x).Assigned(x, v).value == s.value[x := v]
    ensures Entered(s, x).Get(x) == s.Get(x)
  {
  }
}
