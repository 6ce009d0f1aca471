/**
 The code of each source construct at a given opcode number, written down with final jump targets.
 It is the reference against which the one-pass, backpatching compiler of module Compiler is proved,
 and the object the simulation proofs are about.
 */
module Codegen {
  import opened Values
  import opened Source
  import opened Opcodes

  function Mk(code: Opcode, result: Node, op1: Node, op2: Node): Op { Op(code, result, op1, op2, Unused) }

  /** Code of an expression: its opcodes, the node of its value, and the next free temporary. */
  datatype ECode = ECode(ops: seq<Op>, node: Node, t: nat)

  /** The temporary that && and || use for their result: that of the left operand if it is one already. */
  function BoolNode(left: ECode): (Node, nat) {
    if left.node.Tmp? then (left.node, left.t) else (Tmp(left.t), left.t + 1)
  }

  /** The node is a constant or a temporary with a number in from..to. */
  predicate NodeIn(a: Node, from: nat, to: nat) {
    a.Const? || ((a.Tmp? || a.VarTmp?) && from <= a.n < to)
  }

  function GenE(e: Expr, pc: nat, t: nat): (c: ECode)
    ensures t <= c.t && NodeIn(c.node, t, c.t)
  {
    match e
    case Lit(v) => ECode([], Const(v), t)
    case Read(x) => ECode([Mk(OpFetchR(x), VarTmp(t), Unused, Unused)], VarTmp(t), t + 1)
    case Assign(x, e1) =>
      var c := GenE(e1, pc, t + 1);
      ECode(c.ops + [Mk(OpFetchW(x), VarTmp(t), Unused, Unused), Mk(OpAssign, VarTmp(c.t), VarTmp(t), c.node)],
        VarTmp(c.t), c.t + 1)
    case AssignOp(op, x, e1) =>
      var c := GenE(e1, pc, t + 1);
      ECode(c.ops + [Mk(OpFetchRW(x), VarTmp(t), Unused, Unused), Mk(OpAssignOp(op), VarTmp(c.t), VarTmp(t), c.node)],
        VarTmp(c.t), c.t + 1)
    case IncDecVar(kind, x) =>
      var r := if kind.Post() then Tmp(t + 1) else VarTmp(t + 1);
      ECode([Mk(OpFetchRW(x), VarTmp(t), Unused, Unused), Mk(OpIncDec(kind), r, VarTmp(t), Unused)], r, t + 2)
    case Binary(op, l, r) =>
      var a := GenE(l, pc, t);
      var b := GenE(r, pc + |a.ops|, a.t);
      ECode(a.ops + b.ops + [Mk(OpBinary(op), Tmp(b.t), a.node, b.node)], Tmp(b.t), b.t + 1)
    case Greater(op, l, r) =>
      var a := GenE(l, pc, t);
      var b := GenE(r, pc + |a.ops|, a.t);
      ECode(a.ops + b.ops + [Mk(OpBinary(op), Tmp(b.t), b.node, a.node)], Tmp(b.t), b.t + 1)
    case Unary(op, e1) =>
      var c := GenE(e1, pc, t);
      ECode(c.ops + [Mk(OpUnary(op), Tmp(c.t), c.node, Unused)], Tmp(c.t), c.t + 1)
    case Or(l, r) =>
      var a := GenE(l, pc, t);
      var b := GenE(r, pc + |a.ops| + 1, BoolNode(a).1);
      Logical(OpJmpNZEx, a, b, pc)
    case And(l, r) =>
      var a := GenE(l, pc, t);
      var b := GenE(r, pc + |a.ops| + 1, BoolNode(a).1);
      Logical(OpJmpZEx, a, b, pc)
    case Ternary(c, yes, no) =>
      var k := GenE(c, pc, t);
      var y := GenE(yes, pc + |k.ops| + 1, k.t);
      var n := GenE(no, pc + |k.ops| + |y.ops| + 3, y.t + 1);
      Choice(k, y, n, pc)
    case Print(e1) =>
      var c := GenE(e1, pc, t);
      ECode(c.ops + [Mk(OpPrint, Tmp(c.t), c.node, Unused)], Tmp(c.t), c.t + 1)
  }

  /** A short circuit: the jump skips the right operand, leaving the truth of the left one in the result. */
  function Logical(jump: Opcode, a: ECode, b: ECode, pc: nat): ECode {
    var res := BoolNode(a).0;
    ECode(a.ops + [Mk(jump, res, a.node, Addr(pc + |a.ops| + |b.ops| + 2))]
        + b.ops + [Mk(OpBool, res, b.node, Unused)],
      res, b.t)
  }

  /** A conditional expression: both arms leave their value in the temporary after those of the first arm. */
  function Choice(k: ECode, y: ECode, n: ECode, pc: nat): ECode {
    var q := pc + |k.ops| + 1 + |y.ops|;
    ECode(k.ops + [Mk(OpJmpZ, Unused, k.node, Addr(q + 2))]
        + y.ops + [Mk(OpQmAssign, Tmp(y.t), y.node, Unused), Mk(OpJmp, Unused, Addr(q + 3 + |n.ops|), Unused)]
        + n.ops + [Mk(OpQmAssign, Tmp(y.t), n.node, Unused)],
      Tmp(y.t), n.t)
  }

  /** zend_do_free: only a plain temporary gets an opcode. */
  function FreeOps(n: Node): seq<Op> { if n.Tmp? then [Mk(OpFree, Unused, n, Unused)] else [] }

  /** A comma list: every element but the last is freed. */
  function GenList(es: seq<Expr>, pc: nat, t: nat): (c: ECode)
    ensures t <= c.t && NodeIn(c.node, t, c.t)
  {
    if es == [] then ECode([], Const(Bool(true)), t)
    else if |es| == 1 then GenE(es[0], pc, t)
    else
      var c := GenE(es[0], pc, t);
      var f := c.ops + FreeOps(c.node);
      var d := GenList(es[1..], pc + |f|, c.t);
      ECode(f + d.ops, d.node, d.t)
  }

  /** A comma list whose value is dropped as well. */
  function GenListFreed(es: seq<Expr>, pc: nat, t: nat): (c: ECode)
    ensures t <= c.t
  {
    var c := GenList(es, pc, t);
    c.(ops := c.ops + FreeOps(c.node))
  }

  function GenEcho(es: seq<Expr>, pc: nat, t: nat): (c: ECode)
    ensures t <= c.t
  {
    if es == [] then ECode([], Unused, t)
    else
      var c := GenE(es[0], pc, t);
      var d := GenEcho(es[1..], pc + |c.ops| + 1, c.t);
      ECode(c.ops + [Mk(OpEcho, Unused, c.node, Unused)] + d.ops, Unused, d.t)
  }

  /** The frees a return emits: one per enclosing switch, innermost first, up to the first constant subject. */
  function ReturnFrees(sw: seq<Node>): seq<Op> {
    if sw == [] || !(sw[|sw| - 1].Tmp? || sw[|sw| - 1].VarTmp?) then []
    else [Mk(OpSwitchFree, Unused, sw[|sw| - 1], Unused)] + ReturnFrees(sw[..|sw| - 1])
  }

  /** Code of a statement: its opcodes, its entries of the loop table, and the next free temporary. */
  datatype SCode = SCode(ops: seq<Op>, loops: seq<BrkCont>, t: nat)

  /** Where a statement is compiled: opcode number, next temporary, next loop table index, innermost loop, enclosing switch subjects. */
  datatype Ctx = Ctx(pc: nat, t: nat, nl: nat, cur: int, sw: seq<Node>) {
    function At(pc: nat, t: nat, nl: nat): Ctx { this.(pc := pc, t := t, nl := nl) }

    function After(c: SCode): Ctx { At(pc + |c.ops|, c.t, nl + |c.loops|) }

    /** Inside the loop whose table entry is the next one. */
    function Inside(pc: nat, t: nat): Ctx { this.(pc := pc, t := t, nl := nl + 1, cur := nl) }
  }

  function Seq2(a: SCode, b: SCode): SCode { SCode(a.ops + b.ops, a.loops + b.loops, b.t) }

  /** while: the loop table entry comes before those of the body; continue leads to the condition. */
  function WhileCode(k: ECode, b: SCode, x: Ctx): SCode {
    var end := x.pc + |k.ops| + |b.ops| + 2;
    SCode(k.ops + [Mk(OpJmpZ, Unused, k.node, Addr(end))] + b.ops + [Mk(OpJmp, Unused, Addr(x.pc), Unused)],
      [BrkCont(x.pc, end, x.cur)] + b.loops, b.t)
  }

  /** do-while: continue leads to the condition behind the body. */
  function DoCode(b: SCode, k: ECode, x: Ctx): SCode {
    var end := x.pc + |b.ops| + |k.ops| + 1;
    SCode(b.ops + k.ops + [Mk(OpJmpNZ, Unused, k.node, Addr(x.pc))],
      [BrkCont(x.pc + |b.ops|, end, x.cur)] + b.loops, k.t)
  }

  /** for: the step sits between condition and body; continue leads to it. */
  function ForCode(i: ECode, k: ECode, u: ECode, b: SCode, x: Ctx): SCode {
    var top := x.pc + |i.ops|;
    var next := top + |k.ops| + 1;
    var start := next + |u.ops| + 1;
    var end := start + |b.ops| + 1;
    SCode(i.ops + k.ops + [Op(OpJmpZNZ, Unused, k.node, Addr(end), Addr(start))]
        + u.ops + [Mk(OpJmp, Unused, Addr(top), Unused)]
        + b.ops + [Mk(OpJmp, Unused, Addr(next), Unused)],
      [BrkCont(next, end, x.cur)] + b.loops, b.t)
  }

  /** One tested branch: the condition, a jump over the branch, the branch, and its jump to the end of the whole if. */
  function BranchCode(k: ECode, b: SCode, x: Ctx, end: Node): SCode {
    SCode(k.ops + [Mk(OpJmpZ, Unused, k.node, Addr(x.pc + |k.ops| + |b.ops| + 2))]
        + b.ops + [Mk(OpJmp, Unused, end, Unused)],
      b.loops, b.t)
  }

  function GenS(s: Stmt, x: Ctx): (r: SCode)
    ensures x.t <= r.t
    decreases s, 1
  {
    match s
    case Block(ss) => GenSeq(ss, x)
    case ExprStmt(e) =>
      var c := GenE(e, x.pc, x.t);
      SCode(c.ops + FreeOps(c.node), [], c.t)
    case Echo(es) =>
      var c := GenEcho(es, x.pc, x.t);
      SCode(c.ops, [], c.t)
    case If(_, _, _, _) =>
      var open := GenIf(s, x, Unused);
      GenIf(s, x, Addr(x.pc + |open.ops|))
    case While(c, body) =>
      var k := GenE(c, x.pc, x.t);
      WhileCode(k, GenS(body, x.Inside(x.pc + |k.ops| + 1, k.t)), x)
    case DoWhile(body, c) =>
      var b := GenS(body, x.Inside(x.pc, x.t));
      DoCode(b, GenE(c, x.pc + |b.ops|, b.t), x)
    case For(init, cond, step, body) =>
      var i := GenListFreed(init, x.pc, x.t);
      var k := GenList(cond, x.pc + |i.ops|, i.t);
      var u := GenListFreed(step, x.pc + |i.ops| + |k.ops| + 1, k.t);
      var b := GenS(body, x.Inside(x.pc + |i.ops| + |k.ops| + |u.ops| + 2, u.t));
      ForCode(i, k, u, b, x)
    case Switch(c, cases) => GenSwitch(c, cases, x)
    case Break(n) => SCode([Mk(OpBrk, Unused, Addr(x.cur), Const(Long(n)))], [], x.t)
    case Continue(n) => SCode([Mk(OpCont, Unused, Addr(x.cur), Const(Long(n)))], [], x.t)
    case Return(es) =>
      if es == [] then SCode(ReturnFrees(x.sw) + [Mk(OpReturn, Unused, Const(Null), Unused)], [], x.t)
      else
        var c := GenE(es[0], x.pc, x.t);
        SCode(c.ops + ReturnFrees(x.sw) + [Mk(OpReturn, Unused, c.node, Unused)], [], c.t)
  }

  function GenSeq(ss: seq<Stmt>, x: Ctx): (r: SCode)
    ensures x.t <= r.t
    decreases ss, 0
  {
    if ss == [] then SCode([], [], x.t)
    else
      var a := GenS(ss[0], x);
      Seq2(a, GenSeq(ss[1..], x.After(a)))
  }

  function GenBranch(c: Expr, body: Stmt, x: Ctx, end: Node): (r: SCode)
    ensures x.t <= r.t
    decreases body, 2
  {
    var k := GenE(c, x.pc, x.t);
    BranchCode(k, GenS(body, x.At(x.pc + |k.ops| + 1, k.t, x.nl)), x, end)
  }

  /** The whole if statement with `end` as the target of every branch's last jump. */
  function GenIf(s: Stmt, x: Ctx, end: Node): (r: SCode)
    requires s.If?
    ensures x.t <= r.t
    decreases s, 0
  {
    var a := GenBranch(s.c, s.thn, x, end);
    Seq2(a, GenElse(s, 0, x.After(a), end))
  }

  function GenElse(s: Stmt, i: nat, x: Ctx, end: Node): (r: SCode)
    requires s.If? && i <= |s.elifs|
    ensures x.t <= r.t
    decreases s, 0, |s.elifs| - i
  {
    if i == |s.elifs| then GenS(s.els, x)
    else
      var a := GenBranch(s.elifs[i].c, s.elifs[i].body, x, end);
      Seq2(a, GenElse(s, i + 1, x.After(a), end))
  }

  /** Retargets the last opcode, the open jump of the latest case. */
  function CloseLast(c: SCode, target: int): SCode {
    if c.ops == [] then c
    else c.(ops := c.ops[|c.ops| - 1 := c.ops[|c.ops| - 1].(op1 := Addr(target))])
  }

  function CaseCode(c: ECode, b: SCode, subject: Node, ctl: nat, x: Ctx): SCode {
    SCode(c.ops + [Mk(OpCase, Tmp(ctl), subject, c.node),
                   Mk(OpJmpZ, Unused, Tmp(ctl), Addr(x.pc + |c.ops| + |b.ops| + 3))]
        + b.ops + [Mk(OpJmp, Unused, Unused, Unused)],
      b.loops, b.t)
  }

  /** A default is jumped over when reached in order; its second opcode arms the control temporary. */
  function DefaultCode(b: SCode, ctl: nat, x: Ctx): SCode {
    SCode([Mk(OpJmp, Unused, Addr(x.pc + |b.ops| + 3), Unused), Mk(OpBool, Tmp(ctl), Const(Bool(true)), Unused)]
        + b.ops + [Mk(OpJmp, Unused, Unused, Unused)],
      b.loops, b.t)
  }

  /** One case with its final jump still open. `subject` is the switch value and `ctl` the control temporary. */
  function GenCase(k: Case, subject: Node, ctl: nat, x: Ctx): (r: SCode)
    ensures x.t <= r.t
    decreases k
  {
    var b := GenSeq(k.body, BodyCtx(k, x));
    match k
    case Case(e, _) => CaseCode(GenE(e, x.pc, x.t), b, subject, ctl, x)
    case Default(_) => DefaultCode(b, ctl, x)
  }

  /** Where the body of a case is compiled; the case before it falls through to that point. */
  function BodyCtx(k: Case, x: Ctx): (y: Ctx)
    ensures x.t <= y.t
  {
    match k
    case Case(e, _) => var c := GenE(e, x.pc, x.t); x.At(x.pc + |c.ops| + 2, c.t, x.nl)
    case Default(_) => x.At(x.pc + 2, x.t, x.nl)
  }

  /** All cases in order: each case's last jump leads into the body of the next; the very last stays open. */
  function GenCases(cases: seq<Case>, subject: Node, ctl: nat, x: Ctx): (r: SCode)
    ensures x.t <= r.t
    decreases cases, 0
  {
    if cases == [] then SCode([], [], x.t)
    else
      var n := |cases| - 1;
      var a := GenCases(cases[..n], subject, ctl, x);
      var y := x.After(a);
      Seq2(CloseLast(a, BodyCtx(cases[n], y).pc), GenCase(cases[n], subject, ctl, y))
  }

  /** Where the opcode that re-arms the control temporary for the last default is; -1 without a default. */
  function DefaultAddr(cases: seq<Case>, subject: Node, ctl: nat, x: Ctx): int
    decreases cases, 0
  {
    if cases == [] then -1
    else
      var n := |cases| - 1;
      if cases[n].Default? then x.pc + |GenCases(cases[..n], subject, ctl, x).ops| + 1
      else DefaultAddr(cases[..n], subject, ctl, x)
  }

  /** What closes the switch after its end label: the free of a computed subject. */
  function SwitchFrees(n: Node): seq<Op> {
    if n.Tmp? || n.VarTmp? then [Mk(OpSwitchFree, Unused, n, Unused)] else []
  }

  /** Where the first case of a switch with this subject is compiled. */
  function SwitchCtx(k: ECode, x: Ctx): Ctx {
    x.Inside(x.pc + |k.ops| + 1, k.t + 1).(sw := x.sw + [k.node])
  }

  /** The temporary after those of the subject controls the switch: false until a case or the default is entered. */
  function SwitchCode(k: ECode, open: SCode, d: int, x: Ctx): SCode {
    var tail := x.pc + |k.ops| + 1 + |open.ops|;
    var again := if d == -1 then [] else [Mk(OpJmpZ, Unused, Tmp(k.t), Addr(d))];
    var end := tail + |again|;
    SCode(k.ops + [Mk(OpBool, Tmp(k.t), Const(Bool(false)), Unused)] + CloseLast(open, tail).ops + again + SwitchFrees(k.node),
      [BrkCont(end, end, x.cur)] + open.loops, open.t)
  }

  function GenSwitch(c: Expr, cases: seq<Case>, x: Ctx): (r: SCode)
    ensures x.t <= r.t
    decreases cases, 1
  {
    var k := GenE(c, x.pc, x.t);
    var y := SwitchCtx(k, x);
    SwitchCode(k, GenCases(cases, k.node, k.t, y), DefaultAddr(cases, k.node, k.t, y), x)
  }

  /** A whole script: its statements followed by `return 1`. */
  function GenScript(ss: seq<Stmt>): Program {
    var c := GenSeq(ss, Ctx(0, 0, 0, -1, []));
    Program(c.ops + [Mk(OpReturn, Unused, Const(Long(1)), Unused)], c.loops, c.t)
  }
}
