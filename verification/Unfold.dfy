/** One-level equations of the code generator, construct by construct; the larger proofs keep its definition hidden. */
module Unfold {
  import opened Values
  import opened Source
  import opened Opcodes
  import opened Codegen

  lemma UnfoldLit(e: Expr, pc: nat, t: nat)
    requires e.Lit?
    ensures GenE(e, pc, t) == ECode([], Const(e.v), t)
  {
  }

  lemma UnfoldRead(e: Expr, pc: nat, t: nat)
    requires e.Read?
    ensures GenE(e, pc, t) == ECode([Mk(OpFetchR(e.x), VarTmp(t), Unused, Unused)], VarTmp(t), t + 1)
  {
  }

  lemma UnfoldIncDec(e: Expr, pc: nat, t: nat)
    requires e.IncDecVar?
    ensures var r := if e.kind.Post() then Tmp(t + 1) else VarTmp(t + 1);
      GenE(e, pc, t) == ECode([Mk(OpFetchRW(e.x), VarTmp(t), Unused, Unused), Mk(OpIncDec(e.kind), r, VarTmp(t), Unused)], r, t + 2)
  {
  }

  lemma UnfoldUnary(e: Expr, pc: nat, t: nat) returns (c: ECode)
    requires e.Unary? || e.Print?
    ensures c == GenE(e.e, pc, t)
    ensures GenE(e, pc, t) == ECode(c.ops + [Mk(if e.Print? then OpPrint else OpUnary(e.uop), Tmp(c.t), c.node, Unused)], Tmp(c.t), c.t + 1)
  {
    c := GenE(e.e, pc, t);
  }

  lemma UnfoldAssign(e: Expr, pc: nat, t: nat) returns (c: ECode, f: Op, a: Op)
    requires e.Assign? || e.AssignOp?
    ensures c == GenE(e.e, pc, t + 1)
    ensures f == Mk(if e.Assign? then OpFetchW(e.x) else OpFetchRW(e.x), VarTmp(t), Unused, Unused)
    ensures a == Mk(if e.Assign? then Opcode.OpAssign else OpAssignOp(e.op), VarTmp(c.t), VarTmp(t), c.node)
    ensures GenE(e, pc, t) == ECode(c.ops + [f, a], VarTmp(c.t), c.t + 1)
  {
    c := GenE(e.e, pc, t + 1);
    f := Mk(if e.Assign? then OpFetchW(e.x) else OpFetchRW(e.x), VarTmp(t), Unused, Unused);
    a := Mk(if e.Assign? then Opcode.OpAssign else OpAssignOp(e.op), VarTmp(c.t), VarTmp(t), c.node);
  }

  lemma UnfoldBinary(op: BinOp, l: Expr, r: Expr, pc: nat, t: nat)
    ensures var a := GenE(l, pc, t); var b := GenE(r, pc + |a.ops|, a.t);
      GenE(Binary(op, l, r), pc, t) == ECode(a.ops + b.ops + [Mk(OpBinary(op), Tmp(b.t), a.node, b.node)], Tmp(b.t), b.t + 1)
  {
  }

  lemma UnfoldGreater(op: BinOp, l: Expr, r: Expr, pc: nat, t: nat)
    ensures var a := GenE(l, pc, t); var b := GenE(r, pc + |a.ops|, a.t);
      GenE(Greater(op, l, r), pc, t) == ECode(a.ops + b.ops + [Mk(OpBinary(op), Tmp(b.t), b.node, a.node)], Tmp(b.t), b.t + 1)
  {
  }

  lemma UnfoldOr(l: Expr, r: Expr, pc: nat, t: nat)
    ensures var a := GenE(l, pc, t);
      GenE(Or(l, r), pc, t) == Logical(OpJmpNZEx, a, GenE(r, pc + |a.ops| + 1, BoolNode(a).1), pc)
  {
  }

  lemma UnfoldAnd(l: Expr, r: Expr, pc: nat, t: nat)
    ensures var a := GenE(l, pc, t);
      GenE(And(l, r), pc, t) == Logical(OpJmpZEx, a, GenE(r, pc + |a.ops| + 1, BoolNode(a).1), pc)
  {
  }

  lemma UnfoldTernary(e: Expr, pc: nat, t: nat) returns (k: ECode, y: ECode, f: ECode)
    requires e.Ternary?
    ensures k == GenE(e.c, pc, t) && y == GenE(e.yes, pc + |k.ops| + 1, k.t)
    ensures f == GenE(e.no, pc + |k.ops| + |y.ops| + 3, y.t + 1)
    ensures GenE(e, pc, t) == Choice(k, y, f, pc)
  {
    k := GenE(e.c, pc, t);
    y := GenE(e.yes, pc + |k.ops| + 1, k.t);
    f := GenE(e.no, pc + |k.ops| + |y.ops| + 3, y.t + 1);
  }

  lemma UnfoldWhile(s: Stmt, x: Ctx)
    requires s.While?
    ensures GenS(s, x) == WhileCode(GenE(s.c, x.pc, x.t),
      GenS(s.body, x.Inside(x.pc + |GenE(s.c, x.pc, x.t).ops| + 1, GenE(s.c, x.pc, x.t).t)), x)
  {
    hide GenE, GenEcho, GenList, GenListFreed, GenSeq, GenIf, GenElse, GenBranch, GenSwitch, GenCases, GenCase, WhileCode, DoCode, ForCode, ReturnFrees;
  }

  lemma UnfoldDo(s: Stmt, x: Ctx)
    requires s.DoWhile?
    ensures GenS(s, x) == DoCode(GenS(s.body, x.Inside(x.pc, x.t)),
      GenE(s.c, x.pc + |GenS(s.body, x.Inside(x.pc, x.t)).ops|, GenS(s.body, x.Inside(x.pc, x.t)).t), x)
  {
    hide GenE, GenEcho, GenList, GenListFreed, GenSeq, GenIf, GenElse, GenBranch, GenSwitch, GenCases, GenCase, WhileCode, DoCode, ForCode, ReturnFrees;
  }

  /** The four parts of a for statement: init, condition, step, body. */
  lemma UnfoldFor(s: Stmt, x: Ctx) returns (i: ECode, k: ECode, u: ECode, b: SCode)
    requires s.For?
    ensures i == GenListFreed(s.init, x.pc, x.t)
    ensures k == GenList(s.cond, x.pc + |i.ops|, i.t)
    ensures u == GenListFreed(s.step, x.pc + |i.ops| + |k.ops| + 1, k.t)
    ensures b == GenS(s.body, x.Inside(x.pc + |i.ops| + |k.ops| + |u.ops| + 2, u.t))
    ensures GenS(s, x) == ForCode(i, k, u, b, x)
  {
    hide GenE, GenEcho, GenList, GenListFreed, GenSeq, GenIf, GenElse, GenBranch, GenSwitch, GenCases, GenCase, WhileCode, DoCode, ForCode, ReturnFrees;
    i := GenListFreed(s.init, x.pc, x.t);
    k := GenList(s.cond, x.pc + |i.ops|, i.t);
    u := GenListFreed(s.step, x.pc + |i.ops| + |k.ops| + 1, k.t);
    b := GenS(s.body, x.Inside(x.pc + |i.ops| + |k.ops| + |u.ops| + 2, u.t));
  }

  lemma UnfoldIf(s: Stmt, x: Ctx)
    requires s.If?
    ensures GenS(s, x) == GenIf(s, x, Addr(x.pc + |GenIf(s, x, Unused).ops|))
  {
    hide GenE, GenEcho, GenList, GenListFreed, GenSeq, GenElse, GenBranch, GenSwitch, GenCases, GenCase, WhileCode, DoCode, ForCode, ReturnFrees;
  }

  lemma UnfoldSwitch(s: Stmt, x: Ctx)
    requires s.Switch?
    ensures GenS(s, x) == GenSwitch(s.c, s.cases, x)
  {
    hide GenE, GenEcho, GenList, GenListFreed, GenSeq, GenIf, GenElse, GenBranch, GenCases, GenCase, WhileCode, DoCode, ForCode, ReturnFrees;
  }

  lemma GenBranchEnd(c: Expr, body: Stmt, x: Ctx, e: Node, f: Node)
    ensures |GenBranch(c, body, x, e).ops| == |GenBranch(c, body, x, f).ops|
    ensures GenBranch(c, body, x, e).loops == GenBranch(c, body, x, f).loops && GenBranch(c, body, x, e).t == GenBranch(c, body, x, f).t
  {
    hide GenE, GenS;
  }

  /** The target of the branches' final jumps changes neither the size, the loops nor the temporaries of an if. */
  lemma {:induction false} GenElseEnd(s: Stmt, i: nat, x: Ctx, e: Node, f: Node)
    requires s.If? && i <= |s.elifs|
    ensures |GenElse(s, i, x, e).ops| == |GenElse(s, i, x, f).ops|
    ensures GenElse(s, i, x, e).loops == GenElse(s, i, x, f).loops && GenElse(s, i, x, e).t == GenElse(s, i, x, f).t
    decreases |s.elifs| - i
  {
    hide GenE, GenS, GenBranch;
    if i < |s.elifs| {
      GenBranchEnd(s.elifs[i].c, s.elifs[i].body, x, e, f);
      GenElseEnd(s, i + 1, x.After(GenBranch(s.elifs[i].c, s.elifs[i].body, x, e)), e, f);
    }
  }

  lemma GenIfEnd(s: Stmt, x: Ctx, e: Node, f: Node)
    requires s.If?
    ensures |GenIf(s, x, e).ops| == |GenIf(s, x, f).ops|
  {
    hide GenE, GenS, GenElse, GenBranch;
    GenBranchEnd(s.c, s.thn, x, e, f);
    GenElseEnd(s, 0, x.After(GenBranch(s.c, s.thn, x, e)), e, f);
  }

  lemma UnfoldBlock(s: Stmt, x: Ctx)
    requires s.Block?
    ensures GenS(s, x) == GenSeq(s.ss, x)
  {
    hide GenE, GenEcho, GenList, GenListFreed, GenIf, GenElse, GenBranch, GenCases, GenCase, WhileCode, DoCode, ForCode, ReturnFrees, GenSwitch;
  }
}
