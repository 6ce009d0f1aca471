/**
 Where jumps may lead, in all the code of a script, also in code that is never run: no target is left open, none lies
 outside the op array, and the parent of a loop table entry is an earlier one.
 */
module JumpRanges {
  import opened Values
  import opened Source
  import opened Opcodes
  import opened Codegen
  import opened Unfold

  /** The opcode numbers that jumps may lead to, and the loop table entries that exist or, as cur, enclose everything. */
  datatype Zone = Zone(lo: nat, hi: nat, cur: int, from: nat, to: nat) {
    predicate Loop(n: int) { n == cur || from <= n < to }
  }

  predicate Leads(a: Node, z: Zone) { a.Addr? && z.lo <= a.to <= z.hi }

  predicate OpOk(op: Op, z: Zone) {
    && (op.code.OpJmp? ==> Leads(op.op1, z))
    && (op.code.Jumps() ==> Leads(op.op2, z))
    && (op.code.OpJmpZNZ? ==> Leads(op.ext, z))
    && (op.code.OpBrk? || op.code.OpCont? ==> op.op1.Addr? && z.Loop(op.op1.to))
  }

  ghost predicate AllOk(ops: seq<Op>, z: Zone) { forall i :: 0 <= i < |ops| ==> OpOk(ops[i], z) }

  /** Entry number n of the loop table. */
  predicate LoopOk(l: BrkCont, n: nat, z: Zone) {
    z.lo <= l.cont <= z.hi && z.lo <= l.brk <= z.hi && l.parent < n && z.Loop(l.parent)
  }

  ghost predicate AllLoops(loops: seq<BrkCont>, n: nat, z: Zone) {
    forall i :: 0 <= i < |loops| ==> LoopOk(loops[i], n + i, z)
  }

  /** A construct compiled here, of so many opcodes and loops, lies within the zone. */
  predicate Within(x: Ctx, ops: nat, loops: nat, z: Zone) {
    z.lo <= x.pc && x.pc + ops <= z.hi && x.cur < x.nl && z.Loop(x.cur) && z.from <= x.nl && x.nl + loops <= z.to
  }

  lemma OkBoth(a: seq<Op>, b: seq<Op>, z: Zone)
    requires AllOk(a, z) && AllOk(b, z)
    ensures AllOk(a + b, z)
  {
  }

  lemma LoopsBoth(a: seq<BrkCont>, b: seq<BrkCont>, n: nat, z: Zone)
    requires AllLoops(a, n, z) && AllLoops(b, n + |a|, z)
    ensures AllLoops(a + b, n, z)
  {
    forall i | 0 <= i < |a + b|
      ensures LoopOk((a + b)[i], n + i, z)
    {
      if i >= |a| {
        assert LoopOk(b[i - |a|], n + |a| + (i - |a|), z);
      }
    }
  }

  /** Opcodes that do not jump. */
  lemma OkPlain(ops: seq<Op>, z: Zone)
    requires forall i :: 0 <= i < |ops| ==> !ops[i].code.Jumps() && !ops[i].code.OpJmp? && !ops[i].code.OpBrk? && !ops[i].code.OpCont?
    ensures AllOk(ops, z)
  {
  }

  lemma FreesOk(n: Node, sw: seq<Node>, z: Zone)
    ensures AllOk(FreeOps(n), z) && AllOk(ReturnFrees(sw), z) && AllOk(SwitchFrees(n), z)
  {
    if sw != [] {
      FreesOk(n, sw[..|sw| - 1], z);
    }
  }

  lemma {:induction false} ExprOk(e: Expr, pc: nat, t: nat, z: Zone)
    requires z.lo <= pc && pc + |GenE(e, pc, t).ops| <= z.hi
    ensures AllOk(GenE(e, pc, t).ops, z)
    decreases e
  {
    hide GenE, AllOk;
    match e {
      case Lit(_) =>
        UnfoldLit(e, pc, t);
        OkPlain(GenE(e, pc, t).ops, z);
      case Read(_) =>
        UnfoldRead(e, pc, t);
        OkPlain(GenE(e, pc, t).ops, z);
      case IncDecVar(_, _) =>
        UnfoldIncDec(e, pc, t);
        OkPlain(GenE(e, pc, t).ops, z);
      case Assign(_, e1) => AssignOk(e, pc, t, z);
      case AssignOp(_, _, e1) => AssignOk(e, pc, t, z);
      case Unary(_, e1) => UnaryOk(e, pc, t, z);
      case Print(e1) => UnaryOk(e, pc, t, z);
      case Binary(op, l, r) =>
        UnfoldBinary(op, l, r, pc, t);
        PairOk(e, l, r, pc, t, GenE(e, pc, t).ops, z);
      case Greater(op, l, r) =>
        UnfoldGreater(op, l, r, pc, t);
        PairOk(e, l, r, pc, t, GenE(e, pc, t).ops, z);
      case Or(l, r) =>
        UnfoldOr(l, r, pc, t);
        LogicalOk(e, l, r, OpJmpNZEx, pc, t, z);
      case And(l, r) =>
        UnfoldAnd(l, r, pc, t);
        LogicalOk(e, l, r, OpJmpZEx, pc, t, z);
      case Ternary(_, _, _) => TernaryOk(e, pc, t, z);
    }
  }

  lemma {:induction false} AssignOk(e: Expr, pc: nat, t: nat, z: Zone)
    requires (e.Assign? || e.AssignOp?) && z.lo <= pc && pc + |GenE(e, pc, t).ops| <= z.hi
    ensures AllOk(GenE(e, pc, t).ops, z)
    decreases e, 0
  {
    hide GenE, AllOk;
    var c, f, a := UnfoldAssign(e, pc, t);
    ExprOk(e.e, pc, t + 1, z);
    OkPlain([f, a], z);
    OkBoth(c.ops, [f, a], z);
  }

  lemma {:induction false} UnaryOk(e: Expr, pc: nat, t: nat, z: Zone)
    requires (e.Unary? || e.Print?) && z.lo <= pc && pc + |GenE(e, pc, t).ops| <= z.hi
    ensures AllOk(GenE(e, pc, t).ops, z)
    decreases e, 0
  {
    hide GenE, AllOk;
    var c := UnfoldUnary(e, pc, t);
    ExprOk(e.e, pc, t, z);
    var more := [Mk(if e.Print? then OpPrint else OpUnary(e.uop), Tmp(c.t), c.node, Unused)];
    OkPlain(more, z);
    OkBoth(c.ops, more, z);
  }

  /** Two operands, and an opcode that does not jump. */
  lemma {:induction false} PairOk(e: Expr, l: Expr, r: Expr, pc: nat, t: nat, ops: seq<Op>, z: Zone)
    requires (e.Binary? || e.Greater?) && e.l == l && e.r == r
    requires z.lo <= pc && pc + |ops| <= z.hi && |ops| > 0
    requires var a := GenE(l, pc, t); var b := GenE(r, pc + |a.ops|, a.t); ops == a.ops + b.ops + [ops[|ops| - 1]]
    requires ops[|ops| - 1].code.OpBinary?
    ensures AllOk(ops, z)
    decreases e, 0
  {
    hide GenE, AllOk;
    var a := GenE(l, pc, t);
    var b := GenE(r, pc + |a.ops|, a.t);
    ExprOk(l, pc, t, z);
    ExprOk(r, pc + |a.ops|, a.t, z);
    OkBoth(a.ops, b.ops, z);
    OkPlain([ops[|ops| - 1]], z);
    OkBoth(a.ops + b.ops, [ops[|ops| - 1]], z);
  }

  lemma {:induction false} LogicalOk(e: Expr, l: Expr, r: Expr, jump: Opcode, pc: nat, t: nat, z: Zone)
    requires (e.Or? || e.And?) && e.l == l && e.r == r && (jump.OpJmpNZEx? || jump.OpJmpZEx?)
    requires var a := GenE(l, pc, t); var b := GenE(r, pc + |a.ops| + 1, BoolNode(a).1);
      z.lo <= pc && pc + |Logical(jump, a, b, pc).ops| <= z.hi
    ensures var a := GenE(l, pc, t); AllOk(Logical(jump, a, GenE(r, pc + |a.ops| + 1, BoolNode(a).1), pc).ops, z)
    decreases e, 0
  {
    hide GenE, AllOk;
    var a := GenE(l, pc, t);
    var b := GenE(r, pc + |a.ops| + 1, BoolNode(a).1);
    ExprOk(l, pc, t, z);
    ExprOk(r, pc + |a.ops| + 1, BoolNode(a).1, z);
    var j, u := Mk(jump, BoolNode(a).0, a.node, Addr(pc + |a.ops| + |b.ops| + 2)), Mk(OpBool, BoolNode(a).0, b.node, Unused);
    OneOk(j, z);
    OneOk(u, z);
    OkBoth(a.ops, [j], z);
    OkBoth(a.ops + [j], b.ops, z);
    OkBoth(a.ops + [j] + b.ops, [u], z);
  }

  lemma OneOk(op: Op, z: Zone)
    requires OpOk(op, z)
    ensures AllOk([op], z)
  {
  }

  lemma {:induction false} TernaryOk(e: Expr, pc: nat, t: nat, z: Zone)
    requires e.Ternary? && z.lo <= pc && pc + |GenE(e, pc, t).ops| <= z.hi
    ensures AllOk(GenE(e, pc, t).ops, z)
    decreases e, 0
  {
    hide GenE, AllOk;
    var k, y, n := UnfoldTernary(e, pc, t);
    ExprOk(e.c, pc, t, z);
    ExprOk(e.yes, pc + |k.ops| + 1, k.t, z);
    ExprOk(e.no, pc + |k.ops| + |y.ops| + 3, y.t + 1, z);
    var q := pc + |k.ops| + 1 + |y.ops|;
    var j := Mk(OpJmpZ, Unused, k.node, Addr(q + 2));
    var mid := [Mk(OpQmAssign, Tmp(y.t), y.node, Unused), Mk(OpJmp, Unused, Addr(q + 3 + |n.ops|), Unused)];
    var last := Mk(OpQmAssign, Tmp(y.t), n.node, Unused);
    OneOk(j, z);
    OneOk(last, z);
    OneOk(mid[0], z);
    OneOk(mid[1], z);
    OkBoth([mid[0]], [mid[1]], z);
    OkBoth(k.ops, [j], z);
    OkBoth(k.ops + [j], y.ops, z);
    OkBoth(k.ops + [j] + y.ops, mid, z);
    OkBoth(k.ops + [j] + y.ops + mid, n.ops, z);
    OkBoth(k.ops + [j] + y.ops + mid + n.ops, [last], z);
  }

  lemma {:induction false} ListOk(es: seq<Expr>, pc: nat, t: nat, z: Zone)
    requires z.lo <= pc && pc + |GenList(es, pc, t).ops| <= z.hi
    ensures AllOk(GenList(es, pc, t).ops, z)
    decreases |es|
  {
    hide GenE, AllOk, FreeOps;
    if es == [] {
      OkPlain([], z);
    } else if |es| == 1 {
      ExprOk(es[0], pc, t, z);
    } else {
      var c := GenE(es[0], pc, t);
      var f := c.ops + FreeOps(c.node);
      ExprOk(es[0], pc, t, z);
      FreesOk(c.node, [], z);
      OkBoth(c.ops, FreeOps(c.node), z);
      ListOk(es[1..], pc + |f|, c.t, z);
      OkBoth(f, GenList(es[1..], pc + |f|, c.t).ops, z);
    }
  }

  lemma ListFreedOk(es: seq<Expr>, pc: nat, t: nat, z: Zone)
    requires z.lo <= pc && pc + |GenListFreed(es, pc, t).ops| <= z.hi
    ensures AllOk(GenListFreed(es, pc, t).ops, z)
  {
    hide GenList, AllOk, FreeOps;
    var c := GenList(es, pc, t);
    ListOk(es, pc, t, z);
    FreesOk(c.node, [], z);
    OkBoth(c.ops, FreeOps(c.node), z);
  }

  lemma {:induction false} EchoOk(es: seq<Expr>, pc: nat, t: nat, z: Zone)
    requires z.lo <= pc && pc + |GenEcho(es, pc, t).ops| <= z.hi
    ensures AllOk(GenEcho(es, pc, t).ops, z)
    decreases |es|
  {
    hide GenE, AllOk;
    if es == [] {
      OkPlain([], z);
    } else {
      var c := GenE(es[0], pc, t);
      var d := GenEcho(es[1..], pc + |c.ops| + 1, c.t);
      var echo := Mk(OpEcho, Unused, c.node, Unused);
      ExprOk(es[0], pc, t, z);
      EchoOk(es[1..], pc + |c.ops| + 1, c.t, z);
      OneOk(echo, z);
      OkBoth(c.ops, [echo], z);
      OkBoth(c.ops + [echo], d.ops, z);
    }
  }

  // Statements

  ghost predicate CodeOk(c: SCode, x: Ctx, z: Zone) { AllOk(c.ops, z) && AllLoops(c.loops, x.nl, z) }

  lemma {:induction false} StmtOk(s: Stmt, x: Ctx, z: Zone)
    requires Within(x, |GenS(s, x).ops|, |GenS(s, x).loops|, z)
    ensures CodeOk(GenS(s, x), x, z)
    decreases s, 1
  {
    hide GenS, CodeOk;
    match s {
      case Block(ss) =>
        UnfoldBlock(s, x);
        SeqOk(ss, x, z);
      case While(_, _) => WhileOk(s, x, z);
      case DoWhile(_, _) => DoOk(s, x, z);
      case For(_, _, _, _) => ForOk(s, x, z);
      case If(_, _, _, _) => IfOk(s, x, z);
      case Switch(c, cases) =>
        UnfoldSwitch(s, x);
        SwitchOk(c, cases, x, z);
      case _ => SimpleOk(s, x, z);
    }
  }

  /** Statements without statements in them. */
  lemma SimpleOk(s: Stmt, x: Ctx, z: Zone)
    requires s.ExprStmt? || s.Echo? || s.Break? || s.Continue? || s.Return?
    requires Within(x, |GenS(s, x).ops|, |GenS(s, x).loops|, z)
    ensures CodeOk(GenS(s, x), x, z)
  {
    hide GenE, GenEcho, ReturnFrees, FreeOps, AllOk;
    match s {
      case ExprStmt(e) =>
        var c := GenE(e, x.pc, x.t);
        ExprOk(e, x.pc, x.t, z);
        FreesOk(c.node, [], z);
        OkBoth(c.ops, FreeOps(c.node), z);
      case Echo(es) => EchoOk(es, x.pc, x.t, z);
      case Break(n) => OneOk(Mk(OpBrk, Unused, Addr(x.cur), Const(Long(n))), z);
      case Continue(n) => OneOk(Mk(OpCont, Unused, Addr(x.cur), Const(Long(n))), z);
      case Return(es) =>
        FreesOk(Unused, x.sw, z);
        var last := Mk(OpReturn, Unused, if es == [] then Const(Null) else GenE(es[0], x.pc, x.t).node, Unused);
        OneOk(last, z);
        OkBoth(ReturnFrees(x.sw), [last], z);
        if es != [] {
          var c := GenE(es[0], x.pc, x.t);
          ExprOk(es[0], x.pc, x.t, z);
          OkBoth(c.ops, ReturnFrees(x.sw), z);
          OkBoth(c.ops + ReturnFrees(x.sw), [last], z);
        }
    }
  }

  lemma {:induction false} SeqOk(ss: seq<Stmt>, x: Ctx, z: Zone)
    requires Within(x, |GenSeq(ss, x).ops|, |GenSeq(ss, x).loops|, z)
    ensures CodeOk(GenSeq(ss, x), x, z)
    decreases ss, 0
  {
    hide GenS, AllOk, AllLoops;
    if ss == [] {
      NoCodeOk(x, z);
    } else {
      var a := GenS(ss[0], x);
      var b := GenSeq(ss[1..], x.After(a));
      StmtOk(ss[0], x, z);
      SeqOk(ss[1..], x.After(a), z);
      OkBoth(a.ops, b.ops, z);
      LoopsBoth(a.loops, b.loops, x.nl, z);
    }
  }

  lemma NoCodeOk(x: Ctx, z: Zone)
    ensures AllOk([], z) && AllLoops([], x.nl, z)
  {
  }

  /** A loop table entry before those of the body. */
  lemma LoopFirst(l: BrkCont, loops: seq<BrkCont>, x: Ctx, z: Zone)
    requires LoopOk(l, x.nl, z) && AllLoops(loops, x.nl + 1, z)
    ensures AllLoops([l] + loops, x.nl, z)
  {
    LoopsBoth([l], loops, x.nl, z);
  }

  lemma {:induction false} WhileOk(s: Stmt, x: Ctx, z: Zone)
    requires s.While? && Within(x, |GenS(s, x).ops|, |GenS(s, x).loops|, z)
    ensures CodeOk(GenS(s, x), x, z)
    decreases s, 0
  {
    hide GenS, GenE, AllOk, AllLoops;
    UnfoldWhile(s, x);
    var k := GenE(s.c, x.pc, x.t);
    var y := x.Inside(x.pc + |k.ops| + 1, k.t);
    var b := GenS(s.body, y);
    ExprOk(s.c, x.pc, x.t, z);
    StmtOk(s.body, y, z);
    var end := x.pc + |k.ops| + |b.ops| + 2;
    var j, back := Mk(OpJmpZ, Unused, k.node, Addr(end)), Mk(OpJmp, Unused, Addr(x.pc), Unused);
    OneOk(j, z);
    OneOk(back, z);
    OkBoth(k.ops, [j], z);
    OkBoth(k.ops + [j], b.ops, z);
    OkBoth(k.ops + [j] + b.ops, [back], z);
    LoopFirst(BrkCont(x.pc, end, x.cur), b.loops, x, z);
  }

  lemma {:induction false} DoOk(s: Stmt, x: Ctx, z: Zone)
    requires s.DoWhile? && Within(x, |GenS(s, x).ops|, |GenS(s, x).loops|, z)
    ensures CodeOk(GenS(s, x), x, z)
    decreases s, 0
  {
    hide GenS, GenE, AllOk, AllLoops;
    UnfoldDo(s, x);
    var y := x.Inside(x.pc, x.t);
    var b := GenS(s.body, y);
    var k := GenE(s.c, x.pc + |b.ops|, b.t);
    StmtOk(s.body, y, z);
    ExprOk(s.c, x.pc + |b.ops|, b.t, z);
    var j := Mk(OpJmpNZ, Unused, k.node, Addr(x.pc));
    OneOk(j, z);
    OkBoth(b.ops, k.ops, z);
    OkBoth(b.ops + k.ops, [j], z);
    LoopFirst(BrkCont(x.pc + |b.ops|, x.pc + |b.ops| + |k.ops| + 1, x.cur), b.loops, x, z);
  }

  lemma {:induction false} ForOk(s: Stmt, x: Ctx, z: Zone)
    requires s.For? && Within(x, |GenS(s, x).ops|, |GenS(s, x).loops|, z)
    ensures CodeOk(GenS(s, x), x, z)
    decreases s, 0
  {
    hide GenS, GenList, GenListFreed, AllOk, AllLoops;
    var i, k, u, b := UnfoldFor(s, x);
    var top := x.pc + |i.ops|;
    var next := top + |k.ops| + 1;
    var start := next + |u.ops| + 1;
    var end := start + |b.ops| + 1;
    ListFreedOk(s.init, x.pc, x.t, z);
    ListOk(s.cond, top, i.t, z);
    ListFreedOk(s.step, next, k.t, z);
    StmtOk(s.body, x.Inside(start, u.t), z);
    var j := Op(OpJmpZNZ, Unused, k.node, Addr(end), Addr(start));
    var again, back := Mk(OpJmp, Unused, Addr(top), Unused), Mk(OpJmp, Unused, Addr(next), Unused);
    OneOk(j, z);
    OneOk(again, z);
    OneOk(back, z);
    OkBoth(i.ops, k.ops, z);
    OkBoth(i.ops + k.ops, [j], z);
    OkBoth(i.ops + k.ops + [j], u.ops, z);
    OkBoth(i.ops + k.ops + [j] + u.ops, [again], z);
    OkBoth(i.ops + k.ops + [j] + u.ops + [again], b.ops, z);
    OkBoth(i.ops + k.ops + [j] + u.ops + [again] + b.ops, [back], z);
    LoopFirst(BrkCont(next, end, x.cur), b.loops, x, z);
  }

  lemma {:induction false} BranchOk(c: Expr, body: Stmt, x: Ctx, end: Node, z: Zone)
    requires var g := GenBranch(c, body, x, end); Within(x, |g.ops|, |g.loops|, z) && Leads(end, z)
    ensures CodeOk(GenBranch(c, body, x, end), x, z)
    decreases body, 2
  {
    hide GenS, GenE, AllOk, AllLoops;
    var k := GenE(c, x.pc, x.t);
    var y := x.At(x.pc + |k.ops| + 1, k.t, x.nl);
    var b := GenS(body, y);
    ExprOk(c, x.pc, x.t, z);
    StmtOk(body, y, z);
    var j, out := Mk(OpJmpZ, Unused, k.node, Addr(x.pc + |k.ops| + |b.ops| + 2)), Mk(OpJmp, Unused, end, Unused);
    OneOk(j, z);
    OneOk(out, z);
    OkBoth(k.ops, [j], z);
    OkBoth(k.ops + [j], b.ops, z);
    OkBoth(k.ops + [j] + b.ops, [out], z);
  }

  lemma {:induction false} ElseOk(s: Stmt, i: nat, x: Ctx, end: Node, z: Zone)
    requires s.If? && i <= |s.elifs|
    requires var g := GenElse(s, i, x, end); Within(x, |g.ops|, |g.loops|, z) && Leads(end, z)
    ensures CodeOk(GenElse(s, i, x, end), x, z)
    decreases s, 0, |s.elifs| - i
  {
    hide GenS, GenBranch, AllOk, AllLoops;
    if i == |s.elifs| {
      StmtOk(s.els, x, z);
    } else {
      var a := GenBranch(s.elifs[i].c, s.elifs[i].body, x, end);
      var b := GenElse(s, i + 1, x.After(a), end);
      BranchOk(s.elifs[i].c, s.elifs[i].body, x, end, z);
      ElseOk(s, i + 1, x.After(a), end, z);
      OkBoth(a.ops, b.ops, z);
      LoopsBoth(a.loops, b.loops, x.nl, z);
    }
  }

  lemma {:induction false} IfOk(s: Stmt, x: Ctx, z: Zone)
    requires s.If? && Within(x, |GenS(s, x).ops|, |GenS(s, x).loops|, z)
    ensures CodeOk(GenS(s, x), x, z)
    decreases s, 0, |s.elifs| + 1
  {
    hide GenS, GenElse, GenBranch, AllOk, AllLoops;
    UnfoldIf(s, x);
    var end := Addr(x.pc + |GenIf(s, x, Unused).ops|);
    GenIfEnd(s, x, Unused, end);
    var a := GenBranch(s.c, s.thn, x, end);
    var b := GenElse(s, 0, x.After(a), end);
    BranchOk(s.c, s.thn, x, end, z);
    ElseOk(s, 0, x.After(a), end, z);
    OkBoth(a.ops, b.ops, z);
    LoopsBoth(a.loops, b.loops, x.nl, z);
  }

  // Switches

  /** All of it is in order but the last opcode, which is a jump with its target still open. */
  ghost predicate OpenOk(c: SCode, x: Ctx, z: Zone) {
    && AllLoops(c.loops, x.nl, z)
    && (c.ops != [] ==> AllOk(c.ops[..|c.ops| - 1], z) && c.ops[|c.ops| - 1] == Mk(OpJmp, Unused, Unused, Unused))
  }

  lemma ClosedOk(c: SCode, x: Ctx, target: nat, z: Zone)
    requires OpenOk(c, x, z) && z.lo <= target <= z.hi
    ensures CodeOk(CloseLast(c, target), x, z)
  {
    if c.ops != [] {
      var j := Mk(OpJmp, Unused, Addr(target), Unused);
      OneOk(j, z);
      OkBoth(c.ops[..|c.ops| - 1], [j], z);
      assert CloseLast(c, target).ops == c.ops[..|c.ops| - 1] + [j];
    }
  }

  /** Code in order, and then an open jump. */
  lemma OpenAfter(ops: seq<Op>, c: SCode, x: Ctx, z: Zone)
    requires AllOk(ops, z) && AllLoops(c.loops, x.nl, z) && c.ops == ops + [Mk(OpJmp, Unused, Unused, Unused)]
    ensures OpenOk(c, x, z)
  {
    assert c.ops[..|c.ops| - 1] == ops;
  }

  lemma {:induction false} CaseOk(k: Case, subject: Node, ctl: nat, x: Ctx, z: Zone)
    requires var g := GenCase(k, subject, ctl, x); Within(x, |g.ops|, |g.loops|, z)
    ensures OpenOk(GenCase(k, subject, ctl, x), x, z) && GenCase(k, subject, ctl, x).ops != []
    ensures x.pc <= BodyCtx(k, x).pc <= x.pc + |GenCase(k, subject, ctl, x).ops|
    decreases k
  {
    hide GenE, GenSeq, AllOk, AllLoops, OpenOk;
    var y := BodyCtx(k, x);
    var b := GenSeq(k.body, y);
    SeqOk(k.body, y, z);
    match k {
      case Case(e, _) =>
        var c := GenE(e, x.pc, x.t);
        ExprOk(e, x.pc, x.t, z);
        var test := [Mk(OpCase, Tmp(ctl), subject, c.node), Mk(OpJmpZ, Unused, Tmp(ctl), Addr(x.pc + |c.ops| + |b.ops| + 3))];
        TwoOk(test[0], test[1], z);
        OkBoth(c.ops, test, z);
        OkBoth(c.ops + test, b.ops, z);
        OpenAfter(c.ops + test + b.ops, GenCase(k, subject, ctl, x), x, z);
      case Default(_) =>
        var arm := [Mk(OpJmp, Unused, Addr(x.pc + |b.ops| + 3), Unused), Mk(OpBool, Tmp(ctl), Const(Bool(true)), Unused)];
        TwoOk(arm[0], arm[1], z);
        OkBoth(arm, b.ops, z);
        OpenAfter(arm + b.ops, GenCase(k, subject, ctl, x), x, z);
    }
  }

  lemma TwoOk(a: Op, b: Op, z: Zone)
    requires OpOk(a, z) && OpOk(b, z)
    ensures AllOk([a, b], z)
  {
  }

  lemma {:induction false} CasesOk(cases: seq<Case>, subject: Node, ctl: nat, x: Ctx, z: Zone)
    requires var g := GenCases(cases, subject, ctl, x); Within(x, |g.ops|, |g.loops|, z)
    ensures OpenOk(GenCases(cases, subject, ctl, x), x, z)
    ensures -1 == DefaultAddr(cases, subject, ctl, x) ||
      x.pc <= DefaultAddr(cases, subject, ctl, x) <= x.pc + |GenCases(cases, subject, ctl, x).ops|
    decreases cases, 0
  {
    hide GenCase, AllOk, AllLoops, BodyCtx;
    if cases == [] {
      NoCodeOk(x, z);
    } else {
      var n := |cases| - 1;
      var a := GenCases(cases[..n], subject, ctl, x);
      var y := x.After(a);
      var b := GenCase(cases[n], subject, ctl, y);
      CasesOk(cases[..n], subject, ctl, x, z);
      CaseOk(cases[n], subject, ctl, y, z);
      CaseSize(cases[n], subject, ctl, y);
      ClosedOk(a, x, BodyCtx(cases[n], y).pc, z);
      var c := CloseLast(a, BodyCtx(cases[n], y).pc);
      OkBoth(c.ops, b.ops[..|b.ops| - 1], z);
      LoopsBoth(c.loops, b.loops, x.nl, z);
      assert c.ops + b.ops == c.ops + b.ops[..|b.ops| - 1] + [b.ops[|b.ops| - 1]];
      OpenAfter(c.ops + b.ops[..|b.ops| - 1], Seq2(c, b), x, z);
    }
  }

  lemma CaseSize(k: Case, subject: Node, ctl: nat, x: Ctx)
    ensures |GenCase(k, subject, ctl, x).ops| >= 3
  {
    hide GenE, GenSeq;
  }

  lemma {:induction false} SwitchOk(c: Expr, cases: seq<Case>, x: Ctx, z: Zone)
    requires var g := GenSwitch(c, cases, x); Within(x, |g.ops|, |g.loops|, z)
    ensures CodeOk(GenSwitch(c, cases, x), x, z)
    decreases cases, 1
  {
    hide GenE, GenCases, DefaultAddr, AllOk, AllLoops, SwitchFrees, OpenOk;
    var k := GenE(c, x.pc, x.t);
    var y := SwitchCtx(k, x);
    var open := GenCases(cases, k.node, k.t, y);
    var d := DefaultAddr(cases, k.node, k.t, y);
    ExprOk(c, x.pc, x.t, z);
    CasesOk(cases, k.node, k.t, y, z);
    var tail := x.pc + |k.ops| + 1 + |open.ops|;
    ClosedOk(open, y, tail, z);
    FreesOk(k.node, [], z);
    var init := Mk(OpBool, Tmp(k.t), Const(Bool(false)), Unused);
    var again := if d == -1 then [] else [Mk(OpJmpZ, Unused, Tmp(k.t), Addr(d))];
    AgainOk(d, k.t, z);
    OneOk(init, z);
    var body := CloseLast(open, tail);
    OkBoth(k.ops, [init], z);
    OkBoth(k.ops + [init], body.ops, z);
    OkBoth(k.ops + [init] + body.ops, again, z);
    OkBoth(k.ops + [init] + body.ops + again, SwitchFrees(k.node), z);
    var end := tail + |again|;
    LoopFirst(BrkCont(end, end, x.cur), open.loops, x, z);
  }

  lemma AgainOk(d: int, ctl: nat, z: Zone)
    requires d == -1 || z.lo <= d <= z.hi
    ensures AllOk(if d == -1 then [] else [Mk(OpJmpZ, Unused, Tmp(ctl), Addr(d))], z)
  {
  }

  /**
   In the code of a script every jump leads to one of its opcodes or right behind the last, every break and continue
   starts at an entry of the loop table or at none, and in that table parents come before their children.
   */
  lemma ScriptOk(ss: seq<Stmt>)
    ensures var p := GenScript(ss); var z := Zone(0, |p.ops|, -1, 0, |p.loops|); AllOk(p.ops, z) && AllLoops(p.loops, 0, z)
  {
    hide GenSeq, AllOk, AllLoops;
    var x := Ctx(0, 0, 0, -1, []);
    var c := GenSeq(ss, x);
    var z := Zone(0, |c.ops| + 1, -1, 0, |c.loops|);
    SeqOk(ss, x, z);
    var last := Mk(OpReturn, Unused, Const(Long(1)), Unused);
    OneOk(last, z);
    OkBoth(c.ops, [last], z);
  }
}
