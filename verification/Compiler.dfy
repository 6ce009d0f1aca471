/**
 The one-pass compiler: the calls of the emitters in the order of the grammar rules of zend_language_parser.y.
 Every method is proved to leave the op array extended by exactly the code of module Codegen, with every
 backpatched target filled in, although the targets were unknown when the jumps were emitted.
 */
module Compiler {
  import opened Values
  import opened Source
  import opened Opcodes
  import opened Codegen
  import opened Unfold
  import opened Emitters

  /** The state after the code of an expression has been appended. */
  function AfterE(s: State, g: ECode): State { s.(ops := s.ops + g.ops, t := g.t) }

  /** The compilation context a state stands for. */
  function CtxOf(s: State): Ctx { Ctx(|s.ops|, s.t, |s.loops|, s.cur, Subjects(s.sw)) }

  /** The state after the code of a statement has been appended. */
  function AfterS(s: State, c: SCode): State { s.(ops := s.ops + c.ops, loops := s.loops + c.loops, t := c.t) }

  function CodeE(s: State, e: Expr): ECode { GenE(e, |s.ops|, s.t) }

  function CodeS(s: State, st: Stmt): SCode { GenS(st, CtxOf(s)) }

  /** An element inside a sequence is replaced. */
  lemma Inside<T>(a: seq<T>, x: T, b: seq<T>, y: T)
    ensures (a + [x] + b)[|a|] == x && (a + [x] + b)[|a| := y] == a + [y] + b
  {
  }

  method CompileExpr(c: OpArray, e: Expr) returns (result: Node)
    modifies c
    ensures result == CodeE(old(c.Now()), e).node && c.Now() == AfterE(old(c.Now()), CodeE(old(c.Now()), e))
    decreases e, 1
  {
    hide GenE;
    match e {
      case Lit(v) =>
        UnfoldLit(e, |c.opcodes|, c.T);
        result := Const(v);
        assert c.opcodes == c.opcodes + [];
      case Read(x) =>
        UnfoldRead(e, |c.opcodes|, c.T);
        var n := c.GetTemporaryVariable();
        result := VarTmp(n);
        c.Emit(Mk(OpFetchR(x), result, Unused, Unused));
      case Assign(_, _) => result := CompileAssign(c, e);
      case AssignOp(_, _, _) => result := CompileAssign(c, e);
      case IncDecVar(kind, x) =>
        UnfoldIncDec(e, |c.opcodes|, c.T);
        var n := c.GetTemporaryVariable();
        c.Emit(Mk(OpFetchRW(x), VarTmp(n), Unused, Unused));
        result := c.VariableOp(OpIncDec(kind), kind.Post(), VarTmp(n), Unused);
      case Binary(op, l, r) =>
        UnfoldBinary(op, l, r, |c.opcodes|, c.T);
        var a := CompileExpr(c, l);
        var b := CompileExpr(c, r);
        result := c.BinaryOp(op, a, b);
      case Greater(op, l, r) =>
        UnfoldGreater(op, l, r, |c.opcodes|, c.T);
        var a := CompileExpr(c, l);
        var b := CompileExpr(c, r);
        result := c.BinaryOp(op, b, a);
      case Unary(op, e1) =>
        ghost var k := UnfoldUnary(e, |c.opcodes|, c.T);
        var a := CompileExpr(c, e1);
        result := c.UnaryOp(OpUnary(op), a);
      case Or(_, _) => result := CompileLogical(c, e);
      case And(_, _) => result := CompileLogical(c, e);
      case Ternary(_, _, _) => result := CompileTernary(c, e);
      case Print(e1) =>
        ghost var k := UnfoldUnary(e, |c.opcodes|, c.T);
        var a := CompileExpr(c, e1);
        result := c.UnaryOp(OpPrint, a);
    }
  }

  /** The fetch of the assigned variable takes its temporary first, but is emitted after the right-hand side. */
  method CompileAssign(c: OpArray, e: Expr) returns (result: Node)
    requires e.Assign? || e.AssignOp?
    modifies c
    ensures result == CodeE(old(c.Now()), e).node && c.Now() == AfterE(old(c.Now()), CodeE(old(c.Now()), e))
    decreases e, 0
  {
    hide GenE;
    ghost var k, f, a := UnfoldAssign(e, |c.opcodes|, c.T);
    var n := c.GetTemporaryVariable();
    var v := CompileExpr(c, e.e);
    c.Emit(Mk(if e.Assign? then OpFetchW(e.x) else OpFetchRW(e.x), VarTmp(n), Unused, Unused));
    result := c.VariableOp(if e.Assign? then Opcode.OpAssign else OpAssignOp(e.op), false, VarTmp(n), v);
    assert old(c.opcodes) + k.ops + [f] + [a] == old(c.opcodes) + (k.ops + [f, a]);
  }

  method CompileLogical(c: OpArray, e: Expr) returns (result: Node)
    requires e.Or? || e.And?
    modifies c
    ensures result == CodeE(old(c.Now()), e).node && c.Now() == AfterE(old(c.Now()), CodeE(old(c.Now()), e))
    decreases e, 0
  {
    hide GenE, Logical;
    ghost var o := c.opcodes;
    ghost var a := GenE(e.l, |o|, c.T);
    ghost var b := GenE(e.r, |o| + |a.ops| + 1, BoolNode(a).1);
    if e.Or? { UnfoldOr(e.l, e.r, |o|, c.T); } else { UnfoldAnd(e.l, e.r, |o|, c.T); }
    var jump := if e.Or? then OpJmpNZEx else OpJmpZEx;
    var l := CompileExpr(c, e.l);
    var opToken, left := c.BooleanBegin(jump, l);
    var r := CompileExpr(c, e.r);
    ghost var x := Mk(jump, left, l, Unused);
    ghost var last := Mk(OpBool, left, r, Unused);
    Inside(o + a.ops, x, b.ops, x);
    Inside(o + a.ops, x, b.ops + [last], Patched(x, Op2, |o| + |a.ops| + |b.ops| + 2));
    assert o + a.ops + [x] + b.ops + [last] == o + a.ops + [x] + (b.ops + [last]);
    c.BooleanEnd(left, r, opToken);
    result := left;
    LogicalParts(o, jump, a, b, |o|);
  }

  method CompileTernary(c: OpArray, e: Expr) returns (result: Node)
    requires e.Ternary?
    modifies c
    ensures result == CodeE(old(c.Now()), e).node && c.Now() == AfterE(old(c.Now()), CodeE(old(c.Now()), e))
    decreases e, 0
  {
    hide GenE;
    ghost var o := c.opcodes;
    ghost var k, y, f := UnfoldTernary(e, |o|, c.T);
    var cond := CompileExpr(c, e.c);
    var qmToken := c.BeginQmOp(cond);
    ghost var x := Mk(OpJmpZ, Unused, cond, Unused);
    var yes := CompileExpr(c, e.yes);
    ghost var q := |o| + |k.ops| + 1 + |y.ops|;
    ghost var x' := Patched(x, Op2, q + 2);
    ghost var u := Mk(OpQmAssign, Tmp(y.t), yes, Unused);
    Inside(o + k.ops, x, y.ops, x);
    Inside(o + k.ops, x, y.ops + [u], x');
    assert o + k.ops + [x] + y.ops + [u] == o + k.ops + [x] + (y.ops + [u]);
    var colonToken;
    result, colonToken := c.QmTrue(yes, qmToken);
    ghost var j := Mk(OpJmp, Unused, Unused, Unused);
    ghost var head := o + k.ops + [x'] + (y.ops + [u]);
    assert c.opcodes == head + [j];
    var no := CompileExpr(c, e.no);
    ghost var w := Mk(OpQmAssign, result, no, Unused);
    Inside(head, j, f.ops, j);
    Inside(head, j, f.ops + [w], Patched(j, Op1, q + 3 + |f.ops|));
    assert head + [j] + f.ops + [w] == head + [j] + (f.ops + [w]);
    c.QmFalse(no, result, colonToken);
    ChoiceParts(o, k, y, f, |o|);
  }

  lemma LogicalParts(o: seq<Op>, jump: Opcode, a: ECode, b: ECode, pc: nat)
    ensures var res := BoolNode(a).0;
      && o + a.ops + [Mk(jump, res, a.node, Addr(pc + |a.ops| + |b.ops| + 2))] + (b.ops + [Mk(OpBool, res, b.node, Unused)])
        == o + Logical(jump, a, b, pc).ops
      && Logical(jump, a, b, pc).node == res && Logical(jump, a, b, pc).t == b.t
  {
  }

  lemma ChoiceParts(o: seq<Op>, k: ECode, y: ECode, f: ECode, pc: nat)
    ensures var q := pc + |k.ops| + 1 + |y.ops|;
      o + k.ops + [Mk(OpJmpZ, Unused, k.node, Addr(q + 2))] + (y.ops + [Mk(OpQmAssign, Tmp(y.t), y.node, Unused)])
        + [Mk(OpJmp, Unused, Addr(q + 3 + |f.ops|), Unused)] + (f.ops + [Mk(OpQmAssign, Tmp(y.t), f.node, Unused)])
      == o + Choice(k, y, f, pc).ops
  {
  }

  // Comma lists and echo lists

  method CompileList(c: OpArray, es: seq<Expr>) returns (result: Node)
    modifies c
    ensures var g := GenList(es, |old(c.opcodes)|, old(c.T)); result == g.node && c.Now() == AfterE(old(c.Now()), g)
  {
    hide GenE, FreeOps;
    ghost var o := c.opcodes;
    if es == [] {
      result := Const(Bool(true));
      assert o == o + [];
    } else if |es| == 1 {
      result := CompileExpr(c, es[0]);
    } else {
      ghost var k := GenE(es[0], |o|, c.T);
      ghost var d := GenList(es[1..], |o + (k.ops + FreeOps(k.node))|, k.t);
      var first := CompileExpr(c, es[0]);
      c.Free(first);
      assert c.opcodes == o + (k.ops + FreeOps(k.node));
      result := CompileList(c, es[1..]);
      assert o + (k.ops + FreeOps(k.node)) + d.ops == o + (k.ops + FreeOps(k.node) + d.ops);
    }
  }

  method CompileListFreed(c: OpArray, es: seq<Expr>)
    modifies c
    ensures c.Now() == AfterE(old(c.Now()), GenListFreed(es, |old(c.opcodes)|, old(c.T)))
  {
    hide GenList, FreeOps;
    ghost var g := GenList(es, |c.opcodes|, c.T);
    var last := CompileList(c, es);
    c.Free(last);
    assert old(c.opcodes) + g.ops + FreeOps(g.node) == old(c.opcodes) + (g.ops + FreeOps(g.node));
  }

  method CompileEcho(c: OpArray, es: seq<Expr>)
    modifies c
    ensures c.Now() == AfterE(old(c.Now()), GenEcho(es, |old(c.opcodes)|, old(c.T)))
  {
    hide GenE;
    ghost var o := c.opcodes;
    if es == [] {
      assert o == o + [];
    } else {
      ghost var k := GenE(es[0], |o|, c.T);
      var v := CompileExpr(c, es[0]);
      var x := Mk(OpEcho, Unused, v, Unused);
      c.Emit(x);
      assert c.opcodes == o + (k.ops + [x]);
      CompileEcho(c, es[1..]);
      ghost var d := GenEcho(es[1..], |o| + |k.ops| + 1, k.t);
      assert o + (k.ops + [x]) + d.ops == o + (k.ops + [x] + d.ops);
    }
  }

  // Statements

  method CompileStmt(c: OpArray, s: Stmt)
    modifies c
    ensures c.Now() == AfterS(old(c.Now()), CodeS(old(c.Now()), s))
    decreases s, 1
  {
    hide GenS, GenE, ReturnFrees, FreeOps, Subjects, AfterS;
    match s {
      case Block(ss) =>
        UnfoldBlock(s, CtxOf(c.Now()));
        CompileSeq(c, ss);
      case ExprStmt(_) => CompilePlain(c, s);
      case Echo(_) => CompilePlain(c, s);
      case If(_, _, _, _) => CompileIf(c, s);
      case While(_, _) => CompileWhile(c, s);
      case DoWhile(_, _) => CompileDo(c, s);
      case For(_, _, _, _) => CompileFor(c, s);
      case Switch(_, _) => CompileSwitch(c, s);
      case Break(_) => CompilePlain(c, s);
      case Continue(_) => CompilePlain(c, s);
      case Return(_) => CompilePlain(c, s);
    }
  }

  method CompileSeq(c: OpArray, ss: seq<Stmt>)
    modifies c
    ensures c.Now() == AfterS(old(c.Now()), GenSeq(ss, CtxOf(old(c.Now()))))
    decreases ss, 0
  {
    hide GenS, Subjects;
    ghost var s0 := c.Now();
    if ss == [] {
      assert s0.ops == s0.ops + [] && s0.loops == s0.loops + [];
    } else {
      ghost var x := CtxOf(s0);
      ghost var a := GenS(ss[0], x);
      ghost var b := GenSeq(ss[1..], x.After(a));
      CompileStmt(c, ss[0]);
      CompileSeq(c, ss[1..]);
      assert s0.ops + a.ops + b.ops == s0.ops + (a.ops + b.ops);
      assert s0.loops + a.loops + b.loops == s0.loops + (a.loops + b.loops);
    }
  }

  /** Statements without statements inside. */
  method CompilePlain(c: OpArray, s: Stmt)
    requires s.ExprStmt? || s.Echo? || s.Break? || s.Continue? || s.Return?
    modifies c
    ensures c.Now() == AfterS(old(c.Now()), CodeS(old(c.Now()), s))
    decreases s, 0
  {
    hide GenE, GenEcho, ReturnFrees, FreeOps, Subjects, AfterS;
    ghost var s0 := c.Now();
    ghost var x := CtxOf(s0);
    match s {
      case ExprStmt(e) =>
        ghost var g := GenE(e, x.pc, x.t);
        var v := CompileExpr(c, e);
        c.Free(v);
        AfterNoLoops(s0, s, g.ops, FreeOps(g.node), g.t);
      case Echo(es) =>
        ghost var g := GenEcho(es, x.pc, x.t);
        CompileEcho(c, es);
        AfterNoLoops(s0, s, g.ops, [], g.t);
      case Break(n) =>
        c.BreakOrContinue(OpBrk, n);
        AfterNoLoops(s0, s, [Mk(OpBrk, Unused, Addr(x.cur), Const(Long(n)))], [], x.t);
      case Continue(n) =>
        c.BreakOrContinue(OpCont, n);
        AfterNoLoops(s0, s, [Mk(OpCont, Unused, Addr(x.cur), Const(Long(n)))], [], x.t);
      case Return(es) =>
        if es == [] {
          c.Return(Const(Null));
          AfterNoLoops(s0, s, [], ReturnFrees(x.sw) + [Mk(OpReturn, Unused, Const(Null), Unused)], x.t);
        } else {
          ghost var g := GenE(es[0], x.pc, x.t);
          var v := CompileExpr(c, es[0]);
          c.Return(v);
          ghost var r := [Mk(OpReturn, Unused, v, Unused)];
          assert g.ops + ReturnFrees(x.sw) + r == g.ops + (ReturnFrees(x.sw) + r);
          AfterNoLoops(s0, s, g.ops, ReturnFrees(x.sw) + r, g.t);
        }
    }
  }

  lemma AfterNoLoops(s0: State, s: Stmt, a: seq<Op>, b: seq<Op>, t: nat)
    requires CodeS(s0, s) == SCode(a + b, [], t)
    ensures AfterS(s0, CodeS(s0, s)) == s0.(ops := s0.ops + a + b, t := t)
  {
    hide GenS;
    assert s0.loops + [] == s0.loops;
    assert s0.ops + (a + b) == s0.ops + a + b;
  }

  method CompileWhile(c: OpArray, s: Stmt)
    requires s.While?
    modifies c
    ensures c.Now() == AfterS(old(c.Now()), CodeS(old(c.Now()), s))
    decreases s, 0
  {
    hide GenS, GenE, Subjects;
    ghost var s0 := c.Now();
    ghost var x := CtxOf(s0);
    UnfoldWhile(s, x);
    ghost var k := GenE(s.c, x.pc, x.t);
    ghost var b := GenS(s.body, x.Inside(x.pc + |k.ops| + 1, k.t));
    var whileToken := |c.opcodes|;
    var cond := CompileExpr(c, s.c);
    var closeBracket := c.WhileCond(cond);
    CompileStmt(c, s.body);
    ghost var j := Mk(OpJmpZ, Unused, cond, Unused);
    ghost var g := Mk(OpJmp, Unused, Addr(whileToken), Unused);
    ghost var end := x.pc + |k.ops| + |b.ops| + 2;
    Inside(s0.ops + k.ops, j, b.ops, j);
    Inside(s0.ops + k.ops, j, b.ops + [g], Patched(j, Op2, end));
    assert s0.ops + k.ops + [j] + b.ops + [g] == s0.ops + k.ops + [j] + (b.ops + [g]);
    Inside(s0.loops, BrkCont(0, 0, x.cur), b.loops, BrkCont(whileToken, end, x.cur));
    c.WhileEnd(whileToken, closeBracket);
    assert c.opcodes == s0.ops + WhileCode(k, b, x).ops;
    assert c.brkContArray == s0.loops + WhileCode(k, b, x).loops;
  }

  method CompileDo(c: OpArray, s: Stmt)
    requires s.DoWhile?
    modifies c
    ensures c.Now() == AfterS(old(c.Now()), CodeS(old(c.Now()), s))
    decreases s, 0
  {
    hide GenS, GenE, Subjects;
    ghost var s0 := c.Now();
    ghost var x := CtxOf(s0);
    UnfoldDo(s, x);
    ghost var b := GenS(s.body, x.Inside(x.pc, x.t));
    ghost var k := GenE(s.c, x.pc + |b.ops|, b.t);
    var doToken := |c.opcodes|;
    c.BeginLoop();
    CompileStmt(c, s.body);
    var openBracket := |c.opcodes|;
    var cond := CompileExpr(c, s.c);
    ghost var end := x.pc + |b.ops| + |k.ops| + 1;
    Inside(s0.loops, BrkCont(0, 0, x.cur), b.loops, BrkCont(openBracket, end, x.cur));
    c.DoWhileEnd(doToken, openBracket, cond);
    assert c.opcodes == s0.ops + DoCode(b, k, x).ops;
    assert c.brkContArray == s0.loops + DoCode(b, k, x).loops;
  }

  method CompileFor(c: OpArray, s: Stmt)
    requires s.For?
    modifies c
    ensures c.Now() == AfterS(old(c.Now()), CodeS(old(c.Now()), s))
    decreases s, 0
  {
    hide GenS, GenList, GenListFreed, Subjects, ForCode;
    ghost var s0 := c.Now();
    ghost var x := CtxOf(s0);
    ghost var i, k, u, b := UnfoldFor(s, x);
    CompileListFreed(c, s.init);
    var condStart := |c.opcodes|;
    var cond := CompileList(c, s.cond);
    ghost var head := s0.ops + i.ops + k.ops;
    var second := c.ForCond(cond);
    CompileListFreed(c, s.step);
    ghost var f := Op(OpJmpZNZ, Unused, cond, Unused, Unused);
    ghost var f1 := Patched(f, Ext, |head| + |u.ops| + 2);
    ghost var g := Mk(OpJmp, Unused, Addr(condStart), Unused);
    Inside(head, f, u.ops, f);
    Inside(head, f, u.ops + [g], f1);
    assert head + [f] + u.ops + [g] == head + [f] + (u.ops + [g]);
    c.ForBeforeStatement(condStart, second);
    assert c.opcodes == head + [f1] + (u.ops + [g]);
    CompileStmt(c, s.body);
    ghost var h := Mk(OpJmp, Unused, Addr(second + 1), Unused);
    ghost var end := |head| + |u.ops| + |b.ops| + 3;
    ghost var rest := u.ops + [g] + b.ops;
    assert c.opcodes == head + [f1] + rest;
    Inside(head, f1, rest, f1);
    Inside(head, f1, rest + [h], Patched(f1, Op2, end));
    assert head + [f1] + rest + [h] == head + [f1] + (rest + [h]);
    Inside(s0.loops, BrkCont(0, 0, x.cur), b.loops, BrkCont(second + 1, end, x.cur));
    c.ForEnd(second);
    ForParts(s0.ops, i, k, u, b, x);
    assert s0.loops + [BrkCont(second + 1, end, x.cur)] + b.loops == s0.loops + ([BrkCont(second + 1, end, x.cur)] + b.loops);
  }

  lemma ForParts(o: seq<Op>, i: ECode, k: ECode, u: ECode, b: SCode, x: Ctx)
    ensures var top := x.pc + |i.ops|; var next := top + |k.ops| + 1; var start := next + |u.ops| + 1; var end := start + |b.ops| + 1;
      o + i.ops + k.ops + [Op(OpJmpZNZ, Unused, k.node, Addr(end), Addr(start))]
        + (u.ops + [Mk(OpJmp, Unused, Addr(top), Unused)] + b.ops + [Mk(OpJmp, Unused, Addr(next), Unused)])
      == o + ForCode(i, k, u, b, x).ops
      && ForCode(i, k, u, b, x).loops == [BrkCont(next, end, x.cur)] + b.loops && ForCode(i, k, u, b, x).t == b.t
  {
  }

  // if

  /** Opcode numbers of the jumps at the ends of the elseif branches from the i-th on. */
  ghost function Exits(s: Stmt, i: nat, x: Ctx): seq<nat>
    requires s.If? && i <= |s.elifs|
    decreases |s.elifs| - i
  {
    if i == |s.elifs| then []
    else
      var a := GenBranch(s.elifs[i].c, s.elifs[i].body, x, Unused);
      assert a.ops != [];
      [x.pc + |a.ops| - 1] + Exits(s, i + 1, x.After(a))
  }

  /** The innermost jump list grows. */
  function Noted(bp: seq<seq<nat>>, js: seq<nat>): seq<seq<nat>>
    requires bp != []
  {
    bp[|bp| - 1 := bp[|bp| - 1] + js]
  }

  lemma NotedTop(bp: seq<seq<nat>>, l: seq<nat>, js: seq<nat>)
    ensures Noted(bp + [l], js) == bp + [l + js]
    ensures l == [] ==> Noted(bp + [l], js) == bp + [js]
  {
    if l == [] {
      assert l + js == js;
    }
  }

  lemma BranchParts(o: seq<Op>, k: ECode, b: SCode, x: Ctx, end: Node)
    requires |o| == x.pc
    ensures o + k.ops + [Mk(OpJmpZ, Unused, k.node, Addr(|o| + |k.ops| + |b.ops| + 2))] + (b.ops + [Mk(OpJmp, Unused, end, Unused)])
      == o + BranchCode(k, b, x, end).ops
  {
  }

  method CompileBranch(c: OpArray, cond: Expr, body: Stmt, initialize: bool)
    requires initialize || c.bpStack != []
    modifies c
    ensures var g := GenBranch(cond, body, CtxOf(old(c.Now())), Unused);
      && g.ops != []
      && c.Now() == AfterS(old(c.Now()), g).(
        bp := Noted(if initialize then old(c.bpStack) + [[]] else old(c.bpStack), [|old(c.opcodes)| + |g.ops| - 1]))
    decreases body, 2
  {
    hide GenS, GenE, Subjects;
    ghost var s0 := c.Now();
    ghost var x := CtxOf(s0);
    ghost var k := GenE(cond, x.pc, x.t);
    ghost var b := GenS(body, x.At(x.pc + |k.ops| + 1, k.t, x.nl));
    var v := CompileExpr(c, cond);
    var bracket := c.IfCond(v);
    CompileStmt(c, body);
    ghost var j := Mk(OpJmpZ, Unused, v, Unused);
    ghost var g := Mk(OpJmp, Unused, Unused, Unused);
    Inside(s0.ops + k.ops, j, b.ops, j);
    Inside(s0.ops + k.ops, j, b.ops + [g], Patched(j, Op2, |s0.ops| + |k.ops| + |b.ops| + 2));
    assert s0.ops + k.ops + [j] + b.ops + [g] == s0.ops + k.ops + [j] + (b.ops + [g]);
    c.IfAfterStatement(bracket, initialize);
    BranchParts(s0.ops, k, b, x, Unused);
  }

  method CompileElse(c: OpArray, s: Stmt, i: nat)
    requires s.If? && i <= |s.elifs| && c.bpStack != []
    modifies c
    ensures var x := CtxOf(old(c.Now()));
      c.Now() == AfterS(old(c.Now()), GenElse(s, i, x, Unused)).(bp := Noted(old(c.bpStack), Exits(s, i, x)))
    decreases s, 0, |s.elifs| - i
  {
    hide GenS, GenBranch, Subjects;
    ghost var s0 := c.Now();
    ghost var x := CtxOf(s0);
    if i == |s.elifs| {
      CompileStmt(c, s.els);
      assert s0.bp[|s0.bp| - 1] + [] == s0.bp[|s0.bp| - 1];
    } else {
      ghost var a := GenBranch(s.elifs[i].c, s.elifs[i].body, x, Unused);
      CompileBranch(c, s.elifs[i].c, s.elifs[i].body, false);
      ghost var b := GenElse(s, i + 1, x.After(a), Unused);
      CompileElse(c, s, i + 1);
      assert s0.ops + a.ops + b.ops == s0.ops + (a.ops + b.ops);
      assert s0.loops + a.loops + b.loops == s0.loops + (a.loops + b.loops);
      ghost var l := s0.bp[|s0.bp| - 1];
      ghost var n := x.pc + |a.ops| - 1;
      assert l + [n] + Exits(s, i + 1, x.After(a)) == l + ([n] + Exits(s, i + 1, x.After(a)));
    }
  }

  /** The exits lie in order in the code of their branches, each still open. */
  lemma {:induction false} ExitsOpen(pre: seq<Op>, s: Stmt, i: nat, x: Ctx)
    requires s.If? && i <= |s.elifs| && |pre| == x.pc
    ensures forall j :: 0 <= j < |Exits(s, i, x)| ==> x.pc <= Exits(s, i, x)[j]
    ensures AllOpen(pre + GenElse(s, i, x, Unused).ops, Exits(s, i, x))
    decreases |s.elifs| - i
  {
    hide GenE, GenS, GenBranch;
    if i < |s.elifs| {
      var a := GenBranch(s.elifs[i].c, s.elifs[i].body, x, Unused);
      var rest := GenElse(s, i + 1, x.After(a), Unused);
      ExitsOpen(pre + a.ops, s, i + 1, x.After(a));
      BranchOpen(s.elifs[i].c, s.elifs[i].body, x);
      assert pre + a.ops + rest.ops == pre + (a.ops + rest.ops);
    }
  }

  lemma BranchOpen(cond: Expr, body: Stmt, x: Ctx)
    ensures var a := GenBranch(cond, body, x, Unused); a.ops != [] && Open(a.ops[|a.ops| - 1], Op1)
  {
    hide GenE, GenS;
  }

  /** Patching the last jump of a branch that is followed by more code. */
  lemma PatchBranch(pre: seq<Op>, cond: Expr, body: Stmt, x: Ctx, rest: seq<Op>, end: nat)
    requires |pre| == x.pc
    ensures var a := GenBranch(cond, body, x, Unused); var n := x.pc + |a.ops| - 1; var ops := pre + (a.ops + rest);
      && x.pc <= n < |ops|
      && ops[n := Patched(ops[n], Op1, end)] == pre + GenBranch(cond, body, x, Addr(end)).ops + rest
  {
    hide GenE, GenS;
  }

  lemma {:induction false} PatchElse(pre: seq<Op>, s: Stmt, i: nat, x: Ctx, end: nat)
    requires s.If? && i <= |s.elifs| && |pre| == x.pc
    ensures AllOpen(pre + GenElse(s, i, x, Unused).ops, Exits(s, i, x))
    ensures PatchAll(pre + GenElse(s, i, x, Unused).ops, Exits(s, i, x), end) == pre + GenElse(s, i, x, Addr(end)).ops
    decreases |s.elifs| - i
  {
    hide GenE, GenS, GenBranch;
    ExitsOpen(pre, s, i, x);
    if i < |s.elifs| {
      var b := s.elifs[i];
      var a := GenBranch(b.c, b.body, x, Unused);
      var a' := GenBranch(b.c, b.body, x, Addr(end));
      GenBranchEnd(b.c, b.body, x, Unused, Addr(end));
      var rest := GenElse(s, i + 1, x.After(a), Unused);
      PatchBranch(pre, b.c, b.body, x, rest.ops, end);
      PatchElse(pre + a'.ops, s, i + 1, x.After(a), end);
      var last := GenElse(s, i + 1, x.After(a), Addr(end));
      assert pre + a'.ops + last.ops == pre + (a'.ops + last.ops);
    }
  }

  method CompileIf(c: OpArray, s: Stmt)
    requires s.If?
    modifies c
    ensures c.Now() == AfterS(old(c.Now()), CodeS(old(c.Now()), s))
    decreases s, 0, |s.elifs| + 1
  {
    hide GenS, GenBranch, GenElse, Subjects, PatchAll, Exits;
    ghost var s0 := c.Now();
    ghost var x := CtxOf(s0);
    UnfoldIf(s, x);
    ghost var a := GenBranch(s.c, s.thn, x, Unused);
    ghost var y := x.After(a);
    ghost var b := GenElse(s, 0, y, Unused);
    CompileBranch(c, s.c, s.thn, true);
    CompileElse(c, s, 0);
    ghost var end := |s0.ops| + |a.ops| + |b.ops|;
    ghost var n := x.pc + |a.ops| - 1;
    ghost var list := [n] + Exits(s, 0, y);
    NotedTop(s0.bp, [], [n]);
    NotedTop(s0.bp, [n], Exits(s, 0, y));
    assert c.bpStack == s0.bp + [list];
    assert c.opcodes == s0.ops + (a.ops + b.ops);
    PatchIf(s0.ops, s, x, end);
    assert (s0.bp + [list])[..|s0.bp|] == s0.bp;
    c.IfEnd();
    GenIfEnd(s, x, Unused, Addr(end));
    ghost var a' := GenBranch(s.c, s.thn, x, Addr(end));
    GenBranchEnd(s.c, s.thn, x, Unused, Addr(end));
    GenElseEnd(s, 0, y, Unused, Addr(end));
    assert s0.loops + a.loops + b.loops == s0.loops + (a.loops + b.loops);
  }

  lemma PatchIf(pre: seq<Op>, s: Stmt, x: Ctx, end: nat)
    requires s.If? && |pre| == x.pc
    ensures var a := GenBranch(s.c, s.thn, x, Unused);
      var list := [x.pc + |a.ops| - 1] + Exits(s, 0, x.After(a));
      && |a.ops| > 0
      && AllOpen(pre + GenIf(s, x, Unused).ops, list)
      && PatchAll(pre + GenIf(s, x, Unused).ops, list, end) == pre + GenIf(s, x, Addr(end)).ops
  {
    hide GenBranch, GenElse, Exits;
    var a := GenBranch(s.c, s.thn, x, Unused);
    var a' := GenBranch(s.c, s.thn, x, Addr(end));
    var y := x.After(a);
    GenBranchEnd(s.c, s.thn, x, Unused, Addr(end));
    var rest := GenElse(s, 0, y, Unused);
    ExitsOpen(pre + a.ops, s, 0, y);
    BranchOpen(s.c, s.thn, x);
    assert pre + a.ops + rest.ops == pre + (a.ops + rest.ops);
    PatchBranch(pre, s.c, s.thn, x, rest.ops, end);
    PatchElse(pre + a'.ops, s, 0, y, end);
    var n := x.pc + |a.ops| - 1;
    var list := [n] + Exits(s, 0, y);
    assert list[0] == n && list[1..] == Exits(s, 0, y);
    var last := GenElse(s, 0, y, Addr(end));
    assert pre + a'.ops + last.ops == pre + (a'.ops + last.ops);
  }

  // switch

  lemma ClosedAppend(ops: seq<Op>, caseList: int, more: seq<Op>, to: nat)
    requires caseList == -1 || 0 <= caseList < |ops|
    ensures Closed(ops + more, caseList, to) == Closed(ops, caseList, to) + more
  {
  }

  /** The switch entry of the innermost switch after a case or default. */
  function EntryAfter(k: Case, e: SwitchEntry, pc: nat): SwitchEntry {
    if k.Default? then e.(defaultCase := pc + 1) else e
  }

  /** The state after one more case, whose last jump stays open. */
  ghost function AfterCase(s: State, k: Case, caseList: int): State
    requires s.sw != [] && (caseList == -1 || 0 <= caseList < |s.ops|)
  {
    var e := s.sw[|s.sw| - 1];
    var y := CtxOf(s);
    var g := GenCase(k, e.cond, e.controlVar, y);
    s.(ops := Closed(s.ops, caseList, BodyCtx(k, y).pc) + g.ops, loops := s.loops + g.loops, t := g.t,
       sw := s.sw[|s.sw| - 1 := EntryAfter(k, e, |s.ops|)])
  }

  method CompileCase(c: OpArray, k: Case, caseList: int) returns (next: nat)
    requires c.switchCondStack != []
    requires caseList == -1 || (0 <= caseList < |c.opcodes| && Open(c.opcodes[caseList], Op1))
    modifies c
    ensures c.Now() == AfterCase(old(c.Now()), k, caseList)
    ensures next == |c.opcodes| - 1 && Open(c.opcodes[next], Op1)
    decreases k, 1
  {
    hide AfterCase;
    if k.Case? {
      next := CompileMatchCase(c, k, caseList);
    } else {
      next := CompileDefault(c, k, caseList);
    }
  }

  method CompileMatchCase(c: OpArray, k: Case, caseList: int) returns (next: nat)
    requires k.Case? && c.switchCondStack != []
    requires caseList == -1 || (0 <= caseList < |c.opcodes| && Open(c.opcodes[caseList], Op1))
    modifies c
    ensures c.Now() == AfterCase(old(c.Now()), k, caseList)
    ensures next == |c.opcodes| - 1 && Open(c.opcodes[next], Op1)
    decreases k, 0
  {
    hide GenSeq, GenE, Subjects, CaseCode;
    ghost var s0 := c.Now();
    ghost var y := CtxOf(s0);
    ghost var e := s0.sw[|s0.sw| - 1];
    ghost var bx := BodyCtx(k, y);
    ghost var b := GenSeq(k.body, bx);
    ghost var g := GenE(k.e, y.pc, y.t);
    ghost var jump := Mk(OpJmp, Unused, Unused, Unused);
    var v := CompileExpr(c, k.e);
    ClosedAppend(s0.ops, caseList, g.ops, bx.pc);
    var token := c.CaseBeforeStatement(caseList, v);
    ghost var u := Mk(OpCase, Tmp(e.controlVar), e.cond, v);
    ghost var head := Closed(s0.ops, caseList, bx.pc) + g.ops + [u];
    ghost var z := Mk(OpJmpZ, Unused, Tmp(e.controlVar), Unused);
    assert c.opcodes == head + [z];
    CompileSeq(c, k.body);
    Inside(head, z, b.ops, z);
    Inside(head, z, b.ops + [jump], Patched(z, Op2, |head| + |b.ops| + 2));
    assert head + [z] + b.ops + [jump] == head + [z] + (b.ops + [jump]);
    next := c.CaseAfterStatement(token);
    CaseParts(Closed(s0.ops, caseList, bx.pc), g, b, e.cond, e.controlVar, y);
    assert s0.sw[|s0.sw| - 1 := e] == s0.sw;
  }

  method CompileDefault(c: OpArray, k: Case, caseList: int) returns (next: nat)
    requires k.Default? && c.switchCondStack != []
    requires caseList == -1 || (0 <= caseList < |c.opcodes| && Open(c.opcodes[caseList], Op1))
    modifies c
    ensures c.Now() == AfterCase(old(c.Now()), k, caseList)
    ensures next == |c.opcodes| - 1 && Open(c.opcodes[next], Op1)
    decreases k, 0
  {
    hide GenSeq, GenE, Subjects, DefaultCode;
    ghost var s0 := c.Now();
    ghost var y := CtxOf(s0);
    ghost var e := s0.sw[|s0.sw| - 1];
    ghost var bx := BodyCtx(k, y);
    ghost var b := GenSeq(k.body, bx);
    ghost var jump := Mk(OpJmp, Unused, Unused, Unused);
    ghost var head := Closed(s0.ops, caseList, bx.pc);
    ghost var u := Mk(OpBool, Tmp(e.controlVar), Const(Bool(true)), Unused);
    var token := c.DefaultBeforeStatement(caseList);
    assert c.opcodes == head + [jump] + [u];
    SubjectsSame(s0.sw, |s0.sw| - 1, EntryAfter(k, e, |s0.ops|));
    CompileSeq(c, k.body);
    ghost var rest := [u] + b.ops;
    assert c.opcodes == head + [jump] + rest;
    Inside(head, jump, rest, jump);
    Inside(head, jump, rest + [jump], Patched(jump, Op1, |head| + |b.ops| + 3));
    assert head + [jump] + rest + [jump] == head + [jump] + (rest + [jump]);
    next := c.CaseAfterStatement(token);
    DefaultParts(head, b, e.controlVar, y);
  }

  lemma SubjectsSame(sw: seq<SwitchEntry>, n: nat, e: SwitchEntry)
    requires n < |sw| && e.cond == sw[n].cond
    ensures Subjects(sw[n := e]) == Subjects(sw)
  {
  }

  lemma CaseParts(o: seq<Op>, g: ECode, b: SCode, subject: Node, ctl: nat, y: Ctx)
    requires |o| == y.pc
    ensures o + g.ops + [Mk(OpCase, Tmp(ctl), subject, g.node)]
        + [Mk(OpJmpZ, Unused, Tmp(ctl), Addr(|o| + |g.ops| + |b.ops| + 3))] + (b.ops + [Mk(OpJmp, Unused, Unused, Unused)])
      == o + CaseCode(g, b, subject, ctl, y).ops
    ensures var r := CaseCode(g, b, subject, ctl, y); r.loops == b.loops && r.t == b.t && |r.ops| == |g.ops| + |b.ops| + 3
    ensures var r := CaseCode(g, b, subject, ctl, y); r.ops[|r.ops| - 1] == Mk(OpJmp, Unused, Unused, Unused)
  {
  }

  lemma DefaultParts(o: seq<Op>, b: SCode, ctl: nat, y: Ctx)
    requires |o| == y.pc
    ensures o + [Mk(OpJmp, Unused, Addr(|o| + |b.ops| + 3), Unused)]
        + ([Mk(OpBool, Tmp(ctl), Const(Bool(true)), Unused)] + b.ops + [Mk(OpJmp, Unused, Unused, Unused)])
      == o + DefaultCode(b, ctl, y).ops
    ensures var r := DefaultCode(b, ctl, y); r.loops == b.loops && r.t == b.t && |r.ops| == |b.ops| + 3
    ensures var r := DefaultCode(b, ctl, y); r.ops[|r.ops| - 1] == Mk(OpJmp, Unused, Unused, Unused)
  {
  }

  /** The state after all of these cases, starting from the state right after the switch was opened. */
  ghost function AfterCases(s: State, cases: seq<Case>): State
    requires s.sw != []
  {
    var e := s.sw[|s.sw| - 1];
    var g := GenCases(cases, e.cond, e.controlVar, CtxOf(s));
    s.(ops := s.ops + g.ops, loops := s.loops + g.loops, t := g.t,
       sw := s.sw[|s.sw| - 1 := e.(defaultCase := DefaultAddr(cases, e.cond, e.controlVar, CtxOf(s)))])
  }

  /** The open jump of the last case, or -1. */
  ghost function LastJump(s: State, cases: seq<Case>): int
    requires s.sw != []
  {
    if cases == [] then -1 else |AfterCases(s, cases).ops| - 1
  }

  lemma GenCasesNonEmpty(cases: seq<Case>, subject: Node, ctl: nat, x: Ctx)
    requires cases != []
    ensures GenCases(cases, subject, ctl, x).ops != []
  {
    hide GenE, GenSeq;
  }

  lemma UnfoldCases(cases: seq<Case>, k: Case, subject: Node, ctl: nat, x: Ctx)
    ensures var a := GenCases(cases, subject, ctl, x); var y := x.After(a);
      GenCases(cases + [k], subject, ctl, x) == Seq2(CloseLast(a, BodyCtx(k, y).pc), GenCase(k, subject, ctl, y))
    ensures DefaultAddr(cases + [k], subject, ctl, x) ==
      if k.Default? then x.pc + |GenCases(cases, subject, ctl, x).ops| + 1 else DefaultAddr(cases, subject, ctl, x)
  {
    hide GenCase, BodyCtx;
    assert (cases + [k])[..|cases|] == cases;
  }

  lemma ClosedLast(o: seq<Op>, g: SCode, caseList: int, to: nat)
    requires caseList == if g.ops == [] then -1 else |o + g.ops| - 1
    ensures Closed(o + g.ops, caseList, to) == o + CloseLast(g, to).ops
  {
  }

  lemma CtxAfterCases(s: State, cases: seq<Case>)
    requires s.sw != []
    ensures var e := s.sw[|s.sw| - 1]; CtxOf(AfterCases(s, cases)) == CtxOf(s).After(GenCases(cases, e.cond, e.controlVar, CtxOf(s)))
  {
    hide GenCases, Subjects, DefaultAddr;
    var e := s.sw[|s.sw| - 1];
    SubjectsSame(s.sw, |s.sw| - 1, e.(defaultCase := DefaultAddr(cases, e.cond, e.controlVar, CtxOf(s))));
  }

  lemma LastJumpInRange(s: State, cases: seq<Case>)
    requires s.sw != []
    ensures LastJump(s, cases) == -1 || 0 <= LastJump(s, cases) < |AfterCases(s, cases).ops|
  {
    hide GenCases, DefaultAddr;
    if cases != [] {
      var e := s.sw[|s.sw| - 1];
      GenCasesNonEmpty(cases, e.cond, e.controlVar, CtxOf(s));
    }
  }

  lemma OneMoreCase(s: State, cases: seq<Case>, k: Case)
    requires s.sw != []
    requires LastJump(s, cases) == -1 || 0 <= LastJump(s, cases) < |AfterCases(s, cases).ops|
    ensures AfterCase(AfterCases(s, cases), k, LastJump(s, cases)) == AfterCases(s, cases + [k])
  {
    hide GenCases, GenCase, BodyCtx, DefaultAddr, Subjects, CloseLast, Closed;
    var e := s.sw[|s.sw| - 1];
    var x := CtxOf(s);
    var a := GenCases(cases, e.cond, e.controlVar, x);
    var y := x.After(a);
    var g := GenCase(k, e.cond, e.controlVar, y);
    var to := BodyCtx(k, y).pc;
    CtxAfterCases(s, cases);
    UnfoldCases(cases, k, e.cond, e.controlVar, x);
    NoCasesNoCode(cases, e.cond, e.controlVar, x);
    ClosedLast(s.ops, a, LastJump(s, cases), to);
    CloseLastLoops(a, to);
    assert s.ops + CloseLast(a, to).ops + g.ops == s.ops + (CloseLast(a, to).ops + g.ops);
    assert s.loops + a.loops + g.loops == s.loops + (a.loops + g.loops);
  }

  lemma CloseLastLoops(a: SCode, to: int)
    ensures CloseLast(a, to).loops == a.loops && CloseLast(a, to).t == a.t && |CloseLast(a, to).ops| == |a.ops|
  {
  }

  lemma NoCasesNoCode(cases: seq<Case>, subject: Node, ctl: nat, x: Ctx)
    ensures GenCases(cases, subject, ctl, x).ops == [] <==> cases == []
  {
    hide GenCase, BodyCtx;
    if cases != [] {
      GenCasesNonEmpty(cases, subject, ctl, x);
    }
  }

  /** All cases, each closing the open jump of the one before it. */
  method CompileCases(c: OpArray, cases: seq<Case>) returns (caseList: int)
    requires c.switchCondStack != []
    requires c.switchCondStack[|c.switchCondStack| - 1].defaultCase == -1
    modifies c
    ensures c.Now() == AfterCases(old(c.Now()), cases)
    ensures caseList == LastJump(old(c.Now()), cases)
    ensures caseList == -1 || (0 <= caseList < |c.opcodes| && Open(c.opcodes[caseList], Op1))
    decreases cases
  {
    hide AfterCase, AfterCases, GenCases;
    ghost var s1 := c.Now();
    var i := 0;
    caseList := -1;
    AfterNoCases(s1);
    while i < |cases|
      invariant 0 <= i <= |cases|
      invariant c.Now() == AfterCases(s1, cases[..i]) && c.switchCondStack != []
      invariant caseList == LastJump(s1, cases[..i])
      invariant caseList == -1 || (0 <= caseList < |c.opcodes| && Open(c.opcodes[caseList], Op1))
    {
      LastJumpInRange(s1, cases[..i]);
      OneMoreCase(s1, cases[..i], cases[i]);
      assert cases[..i] + [cases[i]] == cases[..i + 1];
      caseList := CompileCase(c, cases[i], caseList);
      StillInside(s1, cases[..i + 1]);
      i := i + 1;
    }
    assert cases[..i] == cases;
  }

  lemma StillInside(s: State, cases: seq<Case>)
    requires s.sw != []
    ensures AfterCases(s, cases).sw != []
  {
    hide GenCases;
  }

  lemma AfterNoCases(s: State)
    requires s.sw != [] && s.sw[|s.sw| - 1].defaultCase == -1
    ensures AfterCases(s, []) == s
  {
    assert s.ops + [] == s.ops && s.loops + [] == s.loops;
    var e := s.sw[|s.sw| - 1];
    assert s.sw[|s.sw| - 1 := e] == s.sw;
  }

  method CompileSwitch(c: OpArray, s: Stmt)
    requires s.Switch?
    modifies c
    ensures c.Now() == AfterS(old(c.Now()), CodeS(old(c.Now()), s))
    decreases s, 0
  {
    hide GenS, GenE, GenCases, DefaultAddr, SwitchFrees, Subjects, Closed;
    ghost var s0 := c.Now();
    ghost var x := CtxOf(s0);
    ghost var k := GenE(s.c, x.pc, x.t);
    var v := CompileExpr(c, s.c);
    c.SwitchCond(v);
    ghost var s1 := c.Now();
    ghost var y := SwitchCtx(k, x);
    SubjectsPush(s0.sw, SwitchEntry(v, -1, k.t));
    assert CtxOf(s1) == y;
    var caseList := CompileCases(c, s.cases);
    ghost var open := GenCases(s.cases, v, k.t, y);
    ghost var d := DefaultAddr(s.cases, v, k.t, y);
    NoCasesNoCode(s.cases, v, k.t, y);
    ghost var tail := |c.opcodes|;
    ClosedLast(s1.ops, open, caseList, tail);
    c.SwitchEnd(caseList);
    UnfoldSwitch(s, x);
    SwitchParts(s0, k, open, d, x);
    assert c.switchCondStack == s0.sw;
  }

  lemma SubjectsPush(sw: seq<SwitchEntry>, e: SwitchEntry)
    ensures Subjects(sw + [e]) == Subjects(sw) + [e.cond]
  {
  }

  lemma SwitchParts(s0: State, k: ECode, open: SCode, d: int, x: Ctx)
    requires x == CtxOf(s0)
    ensures var tail := x.pc + |k.ops| + 1 + |open.ops|;
      var again := if d == -1 then [] else [Mk(OpJmpZ, Unused, Tmp(k.t), Addr(d))];
      var end := tail + |again|;
      var g := SwitchCode(k, open, d, x);
      && s0.ops + k.ops + [Mk(OpBool, Tmp(k.t), Const(Bool(false)), Unused)] + CloseLast(open, tail).ops + again + SwitchFrees(k.node)
        == s0.ops + g.ops
      && (s0.loops + [BrkCont(0, 0, x.cur)] + open.loops)[|s0.loops| := BrkCont(end, end, x.cur)] == s0.loops + g.loops
      && g.t == open.t
  {
    hide CloseLast, SwitchFrees;
  }

  /** compile_file: a fresh op array, the statements, and `return 1`. */
  method CompileScript(ss: seq<Stmt>) returns (p: Program)
    ensures p == GenScript(ss)
  {
    hide GenSeq;
    var c := new OpArray();
    CompileSeq(c, ss);
    ghost var g := GenSeq(ss, Ctx(0, 0, 0, -1, []));
    assert [] + g.ops == g.ops && [] + g.loops == g.loops;
    c.Return(Const(Long(1)));
    p := Program(c.opcodes, c.brkContArray, c.T);
  }
}
