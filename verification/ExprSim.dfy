/** Running the code of an expression computes what the expression means. */
module ExprSim {
  import opened Values
  import opened Source
  import opened Common
  import opened Opcodes
  import opened Codegen
  import opened Unfold

  /** The program holds these opcodes from opcode number pc on. */
  ghost predicate HasOps(p: Program, pc: nat, ops: seq<Op>) {
    pc + |ops| <= |p.ops| && p.ops[pc..pc + |ops|] == ops
  }

  lemma HasOpsSplit(p: Program, pc: nat, a: seq<Op>, b: seq<Op>)
    requires HasOps(p, pc, a + b)
    ensures HasOps(p, pc, a) && HasOps(p, pc + |a|, b)
  {
    var s := p.ops[pc..pc + |a + b|];
    assert p.ops[pc..pc + |a|] == s[..|a|] == a;
    assert p.ops[pc + |a|..pc + |a| + |b|] == s[|a|..] == b;
  }

  lemma HasOpsAt(p: Program, pc: nat, ops: seq<Op>, i: nat)
    requires HasOps(p, pc, ops) && i < |ops|
    ensures pc + i < |p.ops| && p.ops[pc + i] == ops[i]
  {
    assert p.ops[pc..pc + |ops|][i] == p.ops[pc + i];
  }

  /** A block followed by one opcode. */
  lemma Layout1(p: Program, pc: nat, a: seq<Op>, x: Op)
    requires HasOps(p, pc, a + [x])
    ensures HasOps(p, pc, a) && pc + |a| < |p.ops| && p.ops[pc + |a|] == x
  {
    HasOpsSplit(p, pc, a, [x]);
    HasOpsAt(p, pc + |a|, [x], 0);
  }

  /** Same number of temporaries, and none below t differs. */
  ghost predicate Kept(ts: seq<Temp>, us: seq<Temp>, t: nat) {
    |us| == |ts| && forall i :: 0 <= i < t && i < |ts| ==> us[i] == ts[i]
  }

  /** The machine m2 stands right after code c entered at m, with value r.0 in the node of c and store r.1. */
  ghost predicate Computed(c: ECode, t: nat, m: Machine, m2: Machine, r: (Value, Store)) {
    && m2.pc == m.pc + |c.ops|
    && m2.st == r.1
    && Kept(m.ts, m2.ts, t)
    && Operand(c.node, m2.ts) == Some(r.0)
  }

  /** n rounds lead from m to m2. */
  ghost predicate Goes(lib: Lib, p: Program, m: Machine, n: nat, m2: Machine) {
    Steps(lib, p, m, n) == Running(m2)
  }

  lemma GoesAdd(lib: Lib, p: Program, m: Machine, a: nat, m1: Machine, b: nat, m2: Machine)
    requires Goes(lib, p, m, a, m1) && Goes(lib, p, m1, b, m2)
    ensures Goes(lib, p, m, a + b, m2)
  {
    hide Steps, Step;
    StepsAdd(lib, p, m, a, b);
  }

  /** One round. */
  lemma GoesOne(lib: Lib, p: Program, m: Machine, m2: Machine)
    requires Step(lib, p, m) == Running(m2)
    ensures Goes(lib, p, m, 1, m2)
  {
    hide Step;
    assert Steps(lib, p, m2, 0) == Running(m2);
  }

  /** a rounds and one more. */
  lemma GoesThen(lib: Lib, p: Program, m: Machine, a: nat, m1: Machine, m2: Machine)
    requires Goes(lib, p, m, a, m1) && Step(lib, p, m1) == Running(m2)
    ensures Goes(lib, p, m, a + 1, m2)
  {
    hide Steps, Step;
    GoesOne(lib, p, m1, m2);
    GoesAdd(lib, p, m, a, m1, 1, m2);
  }

  lemma OperandKept(a: Node, ts: seq<Temp>, us: seq<Temp>, t: nat, from: nat)
    requires NodeIn(a, from, t) && Kept(ts, us, t)
    ensures Operand(a, us) == Operand(a, ts)
  {
  }

  lemma OperandKeptAbove(a: Node, ts: seq<Temp>, i: nat, x: Temp, from: nat, to: nat)
    requires NodeIn(a, from, to) && i < from && i < |ts|
    ensures Operand(a, ts[i := x]) == Operand(a, ts)
  {
  }

  /** The claim about one expression compiled at the machine's opcode number. */
  ghost predicate Simulated(lib: Lib, p: Program, e: Expr, t: nat, m: Machine, n: nat, m2: Machine) {
    Goes(lib, p, m, n, m2) && Computed(GenE(e, m.pc, t), t, m, m2, Eval(lib, e, m.st))
  }

  ghost predicate Ready(p: Program, e: Expr, t: nat, m: Machine) {
    HasOps(p, m.pc, GenE(e, m.pc, t).ops) && GenE(e, m.pc, t).t <= |m.ts|
  }

  lemma {:induction false} SimE(lib: Lib, p: Program, e: Expr, t: nat, m: Machine) returns (n: nat, m2: Machine)
    requires Ready(p, e, t, m)
    ensures Simulated(lib, p, e, t, m, n, m2)
    decreases e, 1
  {
    hide Step, Steps;
    match e
    case Lit(v) => n, m2 := SimLit(lib, p, e, t, m);
    case Read(x) => n, m2 := SimRead(lib, p, e, t, m);
    case Assign(x, e1) => n, m2 := SimAssign(lib, p, e, t, m);
    case AssignOp(op, x, e1) => n, m2 := SimAssign(lib, p, e, t, m);
    case IncDecVar(kind, x) => n, m2 := SimIncDec(lib, p, e, t, m);
    case Binary(op, l, r) => n, m2 := SimBinary(lib, p, e, t, m);
    case Greater(op, l, r) => n, m2 := SimBinary(lib, p, e, t, m);
    case Unary(op, e1) => n, m2 := SimUnary(lib, p, e, t, m);
    case Or(l, r) => n, m2 := SimLogical(lib, p, e, t, m);
    case And(l, r) => n, m2 := SimLogical(lib, p, e, t, m);
    case Ternary(c, yes, no) => n, m2 := SimTernary(lib, p, e, t, m);
    case Print(e1) => n, m2 := SimUnary(lib, p, e, t, m);
  }

  lemma SimLit(lib: Lib, p: Program, e: Expr, t: nat, m: Machine) returns (n: nat, m2: Machine)
    requires e.Lit? && Ready(p, e, t, m)
    ensures Simulated(lib, p, e, t, m, n, m2)
  {
    hide Step;
    n, m2 := 0, m;
  }

  lemma SimRead(lib: Lib, p: Program, e: Expr, t: nat, m: Machine) returns (n: nat, m2: Machine)
    requires e.Read? && Ready(p, e, t, m)
    ensures Simulated(lib, p, e, t, m, n, m2)
  {
    hide Steps;
    n, m2 := 1, Machine(m.pc + 1, m.ts[t := Val(m.st.Get(e.x))], m.st.FetchedR(e.x));
    HasOpsAt(p, m.pc, GenE(e, m.pc, t).ops, 0);
    GoesOne(lib, p, m, m2);
  }

  /** Applies a unary operator or print to the value just computed. */
  lemma UnaryStep(lib: Lib, p: Program, e: Expr, c: ECode, m: Machine, v: Value) returns (m2: Machine)
    requires e.Unary? || e.Print?
    requires m.pc < |p.ops| && c.t < |m.ts| && Operand(c.node, m.ts) == Some(v)
    requires p.ops[m.pc] == Mk(if e.Print? then OpPrint else OpUnary(e.uop), Tmp(c.t), c.node, Unused)
    ensures m2 == (if e.Print? then Machine(m.pc + 1, m.ts[c.t := Val(Long(1))], m.st.Emit(Echoed(v)))
                   else Machine(m.pc + 1, m.ts[c.t := Val(lib.unary(e.uop, v))], m.st))
    ensures Step(lib, p, m) == Running(m2)
  {
    m2 := if e.Print? then Machine(m.pc + 1, m.ts[c.t := Val(Long(1))], m.st.Emit(Echoed(v)))
          else Machine(m.pc + 1, m.ts[c.t := Val(lib.unary(e.uop, v))], m.st);
  }

  lemma {:induction false} SimUnary(lib: Lib, p: Program, e: Expr, t: nat, m: Machine) returns (n: nat, m2: Machine)
    requires (e.Unary? || e.Print?) && Ready(p, e, t, m)
    ensures Simulated(lib, p, e, t, m, n, m2)
    decreases e, 0
  {
    hide Step, Steps, GenE, HasOps;
    var c := UnfoldUnary(e, m.pc, t);
    Layout1(p, m.pc, c.ops, Mk(if e.Print? then OpPrint else OpUnary(e.uop), Tmp(c.t), c.node, Unused));
    var k, m1 := SimE(lib, p, e.e, t, m);
    m2 := UnaryStep(lib, p, e, c, m1, Eval(lib, e.e, m.st).0);
    n := k + 1;
    GoesThen(lib, p, m, k, m1, m2);
  }

  /** The two opcodes of an assignment, run after the value has been computed. */
  lemma AssignSteps(lib: Lib, p: Program, e: Expr, c: ECode, t: nat, m: Machine, v: Value) returns (m1: Machine, m2: Machine)
    requires e.Assign? || e.AssignOp?
    requires m.pc + 1 < |p.ops| && t < c.t < |m.ts| && NodeIn(c.node, t + 1, c.t) && Operand(c.node, m.ts) == Some(v)
    requires p.ops[m.pc] == Mk(if e.Assign? then OpFetchW(e.x) else OpFetchRW(e.x), VarTmp(t), Unused, Unused)
    requires p.ops[m.pc + 1] == Mk(if e.Assign? then Opcode.OpAssign else OpAssignOp(e.op), VarTmp(c.t), VarTmp(t), c.node)
    ensures Step(lib, p, m) == Running(m1) && Step(lib, p, m1) == Running(m2)
    ensures m2.pc == m.pc + 2 && Kept(m.ts, m2.ts, t)
    ensures var w := if e.Assign? then v else lib.binary(e.op, m.st.Get(e.x), v);
      && Operand(VarTmp(c.t), m2.ts) == Some(w)
      && m2.st == if e.Assign? then m.st.Set(e.x, w) else m.st.FetchedR(e.x).Set(e.x, w)
  {
    m1 := Machine(m.pc + 1, m.ts[t := Slot(e.x)], if e.Assign? then m.st.FetchedW(e.x) else m.st.FetchedRW(e.x));
    OperandKeptAbove(c.node, m.ts, t, Slot(e.x), t + 1, c.t);
    var w := if e.Assign? then v else lib.binary(e.op, m.st.Get(e.x), v);
    m2 := Machine(m.pc + 2, m1.ts[c.t := Val(w)], m1.st.Set(e.x, w));
  }

  lemma {:induction false} SimAssign(lib: Lib, p: Program, e: Expr, t: nat, m: Machine) returns (n: nat, m2: Machine)
    requires (e.Assign? || e.AssignOp?) && Ready(p, e, t, m)
    ensures Simulated(lib, p, e, t, m, n, m2)
    decreases e, 0
  {
    hide Step, Steps, GenE, HasOps;
    var c, f, a := UnfoldAssign(e, m.pc, t);
    HasOpsSplit(p, m.pc, c.ops, [f, a]);
    HasOpsAt(p, m.pc + |c.ops|, [f, a], 0);
    HasOpsAt(p, m.pc + |c.ops|, [f, a], 1);
    var k, m0 := SimE(lib, p, e.e, t + 1, m);
    var m1;
    m1, m2 := AssignSteps(lib, p, e, c, t, m0, Eval(lib, e.e, m.st).0);
    n := k + 2;
    GoesThen(lib, p, m, k, m0, m1);
    GoesThen(lib, p, m, k + 1, m1, m2);
  }

  lemma SimIncDec(lib: Lib, p: Program, e: Expr, t: nat, m: Machine) returns (n: nat, m2: Machine)
    requires e.IncDecVar? && Ready(p, e, t, m)
    ensures Simulated(lib, p, e, t, m, n, m2)
  {
    hide Steps;
    var c := GenE(e, m.pc, t);
    HasOpsAt(p, m.pc, c.ops, 0);
    HasOpsAt(p, m.pc, c.ops, 1);
    var m1 := Machine(m.pc + 1, m.ts[t := Slot(e.x)], m.st.FetchedRW(e.x));
    GoesOne(lib, p, m, m1);
    var old_ := m.st.Get(e.x);
    var new_ := lib.incDec(e.kind, old_);
    m2 := Machine(m.pc + 2, m1.ts[t + 1 := Val(if e.kind.Post() then old_ else new_)], m1.st.Set(e.x, new_));
    assert m2.st == m.st.FetchedR(e.x).Set(e.x, new_);
    n := 2;
    GoesThen(lib, p, m, 1, m1, m2);
  }

  lemma BinaryStep(lib: Lib, p: Program, m: Machine, x: Op, v: Value, w: Value) returns (m2: Machine)
    requires m.pc < |p.ops| && p.ops[m.pc] == x && x.code.OpBinary? && x.result.Tmp? && x.result.n < |m.ts|
    requires Operand(x.op1, m.ts) == Some(v) && Operand(x.op2, m.ts) == Some(w)
    ensures m2 == Machine(m.pc + 1, m.ts[x.result.n := Val(lib.binary(x.code.bop, v, w))], m.st)
    ensures Step(lib, p, m) == Running(m2)
  {
    m2 := Machine(m.pc + 1, m.ts[x.result.n := Val(lib.binary(x.code.bop, v, w))], m.st);
  }

  lemma {:induction false} SimBinary(lib: Lib, p: Program, e: Expr, t: nat, m: Machine) returns (n: nat, m2: Machine)
    requires (e.Binary? || e.Greater?) && Ready(p, e, t, m)
    ensures Simulated(lib, p, e, t, m, n, m2)
    decreases e, 0
  {
    hide Step, Steps, GenE, HasOps;
    var a := GenE(e.l, m.pc, t);
    var b := GenE(e.r, m.pc + |a.ops|, a.t);
    var x := if e.Binary? then Mk(OpBinary(e.op), Tmp(b.t), a.node, b.node) else Mk(OpBinary(e.op), Tmp(b.t), b.node, a.node);
    if e.Binary? { UnfoldBinary(e.op, e.l, e.r, m.pc, t); } else { UnfoldGreater(e.op, e.l, e.r, m.pc, t); }
    Layout1(p, m.pc, a.ops + b.ops, x);
    HasOpsSplit(p, m.pc, a.ops, b.ops);
    var i, m1 := SimE(lib, p, e.l, t, m);
    var j, m3 := SimE(lib, p, e.r, a.t, m1);
    var v := Eval(lib, e.l, m.st).0;
    var w := Eval(lib, e.r, m1.st).0;
    OperandKept(a.node, m1.ts, m3.ts, a.t, t);
    m2 := BinaryStep(lib, p, m3, x, if e.Binary? then v else w, if e.Binary? then w else v);
    GoesAdd(lib, p, m, i, m1, j, m3);
    GoesThen(lib, p, m, i + j, m3, m2);
    n := i + j + 1;
  }

  lemma LayoutLogical(p: Program, jump: Opcode, a: ECode, b: ECode, pc: nat)
    requires HasOps(p, pc, Logical(jump, a, b, pc).ops)
    ensures HasOps(p, pc, a.ops) && HasOps(p, pc + |a.ops| + 1, b.ops)
    ensures var j := pc + |a.ops|; var k := j + 1 + |b.ops|; var res := BoolNode(a).0;
      k < |p.ops| && p.ops[j] == Mk(jump, res, a.node, Addr(k + 1)) && p.ops[k] == Mk(OpBool, res, b.node, Unused)
  {
    var res := BoolNode(a).0;
    var x := Mk(jump, res, a.node, Addr(pc + |a.ops| + |b.ops| + 2));
    Layout1(p, pc, a.ops + [x] + b.ops, Mk(OpBool, res, b.node, Unused));
    HasOpsSplit(p, pc, a.ops + [x], b.ops);
    Layout1(p, pc, a.ops, x);
  }

  /** The short-circuit jump. */
  lemma JumpExStep(lib: Lib, p: Program, m: Machine, or: bool, res: Node, a: Node, to: nat, v: Value) returns (m2: Machine)
    requires m.pc < |p.ops| && p.ops[m.pc] == Mk(if or then OpJmpNZEx else OpJmpZEx, res, a, Addr(to))
    requires res.Tmp? && res.n < |m.ts| && Operand(a, m.ts) == Some(v)
    ensures m2 == Machine(if IsTrue(v) == or then to else m.pc + 1, m.ts[res.n := Val(Bool(IsTrue(v)))], m.st)
    ensures Step(lib, p, m) == Running(m2)
  {
    m2 := Machine(if IsTrue(v) == or then to else m.pc + 1, m.ts[res.n := Val(Bool(IsTrue(v)))], m.st);
  }

  /** BOOL and QM_ASSIGN. */
  lemma MoveStep(lib: Lib, p: Program, m: Machine, bool_: bool, i: nat, a: Node, v: Value) returns (m2: Machine)
    requires m.pc < |p.ops| && p.ops[m.pc] == Mk(if bool_ then OpBool else OpQmAssign, Tmp(i), a, Unused)
    requires i < |m.ts| && Operand(a, m.ts) == Some(v)
    ensures m2 == Machine(m.pc + 1, m.ts[i := Val(if bool_ then Bool(IsTrue(v)) else v)], m.st)
    ensures Step(lib, p, m) == Running(m2)
  {
    m2 := Machine(m.pc + 1, m.ts[i := Val(if bool_ then Bool(IsTrue(v)) else v)], m.st);
  }

  lemma {:induction false} SimLogical(lib: Lib, p: Program, e: Expr, t: nat, m: Machine) returns (n: nat, m2: Machine)
    requires (e.Or? || e.And?) && Ready(p, e, t, m)
    ensures Simulated(lib, p, e, t, m, n, m2)
    decreases e, 0
  {
    hide Step, Steps, GenE, HasOps;
    var a := GenE(e.l, m.pc, t);
    var b := GenE(e.r, m.pc + |a.ops| + 1, BoolNode(a).1);
    if e.Or? { UnfoldOr(e.l, e.r, m.pc, t); } else { UnfoldAnd(e.l, e.r, m.pc, t); }
    LayoutLogical(p, if e.Or? then OpJmpNZEx else OpJmpZEx, a, b, m.pc);
    var (res, t1) := BoolNode(a);
    var i, m1 := SimE(lib, p, e.l, t, m);
    var v := Eval(lib, e.l, m.st).0;
    var m3 := JumpExStep(lib, p, m1, e.Or?, res, a.node, m.pc + |a.ops| + |b.ops| + 2, v);
    GoesThen(lib, p, m, i, m1, m3);
    if IsTrue(v) == e.Or? {
      n, m2 := i + 1, m3;
    } else {
      var j, m4 := SimE(lib, p, e.r, t1, m3);
      m2 := MoveStep(lib, p, m4, true, res.n, b.node, Eval(lib, e.r, m3.st).0);
      GoesAdd(lib, p, m, i + 1, m3, j, m4);
      GoesThen(lib, p, m, i + 1 + j, m4, m2);
      n := i + j + 2;
    }
  }

  /** Blocks a, b, c with single opcodes between and after them. */
  lemma Layout3(p: Program, pc: nat, a: seq<Op>, x: Op, b: seq<Op>, u: Op, v: Op, c: seq<Op>, w: Op)
    requires HasOps(p, pc, a + [x] + b + [u, v] + c + [w])
    ensures HasOps(p, pc, a) && HasOps(p, pc + |a| + 1, b) && HasOps(p, pc + |a| + |b| + 3, c)
    ensures pc + |a| + |b| + |c| + 3 < |p.ops|
    ensures p.ops[pc + |a|] == x && p.ops[pc + |a| + |b| + 1] == u && p.ops[pc + |a| + |b| + 2] == v
    ensures p.ops[pc + |a| + |b| + |c| + 3] == w
  {
    hide HasOps;
    Layout1(p, pc, a + [x] + b + [u, v] + c, w);
    HasOpsSplit(p, pc, a + [x] + b + [u, v], c);
    HasOpsSplit(p, pc, a + [x] + b, [u, v]);
    HasOpsAt(p, pc + |a| + |b| + 1, [u, v], 0);
    HasOpsAt(p, pc + |a| + |b| + 1, [u, v], 1);
    HasOpsSplit(p, pc, a + [x], b);
    Layout1(p, pc, a, x);
  }

  lemma LayoutChoice(p: Program, k: ECode, y: ECode, f: ECode, pc: nat)
    requires HasOps(p, pc, Choice(k, y, f, pc).ops)
    ensures var q := pc + |k.ops| + 1 + |y.ops|;
      && HasOps(p, pc, k.ops) && HasOps(p, pc + |k.ops| + 1, y.ops) && HasOps(p, q + 2, f.ops)
      && q + 2 + |f.ops| < |p.ops|
      && p.ops[pc + |k.ops|] == Mk(OpJmpZ, Unused, k.node, Addr(q + 2))
      && p.ops[q] == Mk(OpQmAssign, Tmp(y.t), y.node, Unused)
      && p.ops[q + 1] == Mk(OpJmp, Unused, Addr(q + 3 + |f.ops|), Unused)
      && p.ops[q + 2 + |f.ops|] == Mk(OpQmAssign, Tmp(y.t), f.node, Unused)
  {
    var q := pc + |k.ops| + 1 + |y.ops|;
    Layout3(p, pc, k.ops, Mk(OpJmpZ, Unused, k.node, Addr(q + 2)), y.ops, Mk(OpQmAssign, Tmp(y.t), y.node, Unused),
      Mk(OpJmp, Unused, Addr(q + 3 + |f.ops|), Unused), f.ops, Mk(OpQmAssign, Tmp(y.t), f.node, Unused));
  }

  /** JMPZ and JMPNZ. */
  lemma JumpStep(lib: Lib, p: Program, m: Machine, nz: bool, a: Node, to: nat, v: Value) returns (m2: Machine)
    requires m.pc < |p.ops| && p.ops[m.pc] == Mk(if nz then OpJmpNZ else OpJmpZ, Unused, a, Addr(to))
    requires Operand(a, m.ts) == Some(v)
    ensures m2 == Machine(if IsTrue(v) == nz then to else m.pc + 1, m.ts, m.st)
    ensures Step(lib, p, m) == Running(m2)
  {
    m2 := Machine(if IsTrue(v) == nz then to else m.pc + 1, m.ts, m.st);
  }

  lemma GotoStep(lib: Lib, p: Program, m: Machine, to: nat) returns (m2: Machine)
    requires m.pc < |p.ops| && p.ops[m.pc] == Mk(OpJmp, Unused, Addr(to), Unused)
    ensures m2 == Machine(to, m.ts, m.st)
    ensures Step(lib, p, m) == Running(m2)
  {
    m2 := Machine(to, m.ts, m.st);
  }

  lemma {:induction false} SimTernary(lib: Lib, p: Program, e: Expr, t: nat, m: Machine) returns (n: nat, m2: Machine)
    requires e.Ternary? && Ready(p, e, t, m)
    ensures Simulated(lib, p, e, t, m, n, m2)
    decreases e, 0
  {
    hide Step, Steps, GenE, HasOps;
    var k, y, f := UnfoldTernary(e, m.pc, t);
    LayoutChoice(p, k, y, f, m.pc);
    var q := m.pc + |k.ops| + 1 + |y.ops|;
    var i, m1 := SimE(lib, p, e.c, t, m);
    var v := Eval(lib, e.c, m.st).0;
    var m3 := JumpStep(lib, p, m1, false, k.node, q + 2, v);
    GoesThen(lib, p, m, i, m1, m3);
    if IsTrue(v) {
      var j, m4 := SimE(lib, p, e.yes, k.t, m3);
      GoesAdd(lib, p, m, i + 1, m3, j, m4);
      var m5 := MoveStep(lib, p, m4, false, y.t, y.node, Eval(lib, e.yes, m3.st).0);
      GoesThen(lib, p, m, i + 1 + j, m4, m5);
      m2 := GotoStep(lib, p, m5, q + 3 + |f.ops|);
      GoesThen(lib, p, m, i + j + 2, m5, m2);
      n := i + j + 3;
    } else {
      var j, m4 := SimE(lib, p, e.no, y.t + 1, m3);
      GoesAdd(lib, p, m, i + 1, m3, j, m4);
      m2 := MoveStep(lib, p, m4, false, y.t, f.node, Eval(lib, e.no, m3.st).0);
      GoesThen(lib, p, m, i + 1 + j, m4, m2);
      n := i + j + 2;
    }
  }
}
