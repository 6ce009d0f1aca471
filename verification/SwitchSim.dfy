/** The layout of a compiled switch, and the search for the case it enters. */
module SwitchSim {
  import opened Values
  import opened Source
  import opened Common
  import opened Opcodes
  import opened Codegen
  import opened ExprSim
  import opened StmtSim

  /** Where the i-th case is compiled; for i == |cases| the end of all cases. */
  function CaseCtx(cases: seq<Case>, subject: Node, ctl: nat, y: Ctx, i: nat): (x: Ctx)
    requires i <= |cases|
    ensures y.t <= x.t
  {
    y.After(GenCases(cases[..i], subject, ctl, y))
  }

  lemma CaseCtxNext(cases: seq<Case>, subject: Node, ctl: nat, y: Ctx, i: nat)
    requires i < |cases|
    ensures var x := CaseCtx(cases, subject, ctl, y, i);
      CaseCtx(cases, subject, ctl, y, i + 1) == x.After(GenCase(cases[i], subject, ctl, x))
  {
    hide GenCase, BodyCtx;
    assert cases[..i + 1][..i] == cases[..i];
  }

  lemma {:induction false} CaseCtxGrows(cases: seq<Case>, subject: Node, ctl: nat, y: Ctx, i: nat, j: nat)
    requires i <= j <= |cases|
    ensures CaseCtx(cases, subject, ctl, y, i).t <= CaseCtx(cases, subject, ctl, y, j).t
    decreases j - i
  {
    hide GenCase, GenCases, CaseCtx;
    if i < j {
      CaseCtxNext(cases, subject, ctl, y, i);
      CaseCtxGrows(cases, subject, ctl, y, i + 1, j);
    }
  }

  /** All cases are in the program, the last jump leading to `tail`. */
  ghost predicate CasesLaid(p: Program, cases: seq<Case>, subject: Node, ctl: nat, y: Ctx, tail: nat) {
    var c := GenCases(cases, subject, ctl, y);
    HasOps(p, y.pc, CloseLast(c, tail).ops) && HasLoops(p, y.nl, c.loops)
  }

  /** Where the jump behind the body of the i-th case leads: into the next body, or to the tail. */
  function NextBody(cases: seq<Case>, subject: Node, ctl: nat, y: Ctx, tail: nat, i: nat): nat
    requires i <= |cases|
  {
    if i < |cases| then BodyCtx(cases[i], CaseCtx(cases, subject, ctl, y, i)).pc else tail
  }

  /** The opcodes of one case whose code starts at x, ends before `end`, and whose last jump leads to `next`. */
  ghost predicate OneLaid(p: Program, k: Case, subject: Node, ctl: nat, x: Ctx, end: nat, next: nat) {
    var bx := BodyCtx(k, x);
    var b := GenSeq(k.body, bx);
    && end == bx.pc + |b.ops| + 1 && end <= |p.ops|
    && HasOps(p, bx.pc, b.ops) && HasLoops(p, bx.nl, b.loops)
    && p.ops[end - 1] == Mk(OpJmp, Unused, Addr(next), Unused)
    && match k
      case Case(e, _) =>
        var c := GenE(e, x.pc, x.t);
        && HasOps(p, x.pc, c.ops)
        && p.ops[bx.pc - 2] == Mk(OpCase, Tmp(ctl), subject, c.node)
        && p.ops[bx.pc - 1] == Mk(OpJmpZ, Unused, Tmp(ctl), Addr(end))
      case Default(_) =>
        && p.ops[bx.pc - 2] == Mk(OpJmp, Unused, Addr(end), Unused)
        && p.ops[bx.pc - 1] == Mk(OpBool, Tmp(ctl), Const(Bool(true)), Unused)
  }

  lemma Layout2(p: Program, pc: nat, a: seq<Op>, u: Op, v: Op, b: seq<Op>, w: Op)
    requires HasOps(p, pc, a + [u, v] + b + [w])
    ensures HasOps(p, pc, a) && HasOps(p, pc + |a| + 2, b) && pc + |a| + |b| + 3 <= |p.ops|
    ensures p.ops[pc + |a|] == u && p.ops[pc + |a| + 1] == v && p.ops[pc + |a| + |b| + 2] == w
  {
    hide HasOps;
    Layout1(p, pc, a + [u, v] + b, w);
    HasOpsSplit(p, pc, a + [u, v], b);
    HasOpsSplit(p, pc, a, [u, v]);
    HasOpsAt(p, pc + |a|, [u, v], 0);
    HasOpsAt(p, pc + |a|, [u, v], 1);
  }

  lemma LayoutCase(p: Program, c: ECode, b: SCode, subject: Node, ctl: nat, x: Ctx, next: nat)
    requires HasOps(p, x.pc, CloseLast(CaseCode(c, b, subject, ctl, x), next).ops)
    ensures var q := x.pc + |c.ops|; var end := q + |b.ops| + 3;
      && HasOps(p, x.pc, c.ops) && HasOps(p, q + 2, b.ops) && end <= |p.ops|
      && p.ops[q] == Mk(OpCase, Tmp(ctl), subject, c.node)
      && p.ops[q + 1] == Mk(OpJmpZ, Unused, Tmp(ctl), Addr(end))
      && p.ops[end - 1] == Mk(OpJmp, Unused, Addr(next), Unused)
  {
    hide HasOps;
    var u := Mk(OpCase, Tmp(ctl), subject, c.node);
    var v := Mk(OpJmpZ, Unused, Tmp(ctl), Addr(x.pc + |c.ops| + |b.ops| + 3));
    var w := Mk(OpJmp, Unused, Addr(next), Unused);
    assert CloseLast(CaseCode(c, b, subject, ctl, x), next).ops == c.ops + [u, v] + b.ops + [w];
    Layout2(p, x.pc, c.ops, u, v, b.ops, w);
  }

  lemma LayoutDefault(p: Program, b: SCode, ctl: nat, x: Ctx, next: nat)
    requires HasOps(p, x.pc, CloseLast(DefaultCode(b, ctl, x), next).ops)
    ensures var end := x.pc + |b.ops| + 3;
      && HasOps(p, x.pc + 2, b.ops) && end <= |p.ops|
      && p.ops[x.pc] == Mk(OpJmp, Unused, Addr(end), Unused)
      && p.ops[x.pc + 1] == Mk(OpBool, Tmp(ctl), Const(Bool(true)), Unused)
      && p.ops[end - 1] == Mk(OpJmp, Unused, Addr(next), Unused)
  {
    var u := Mk(OpJmp, Unused, Addr(x.pc + |b.ops| + 3), Unused);
    var v := Mk(OpBool, Tmp(ctl), Const(Bool(true)), Unused);
    var w := Mk(OpJmp, Unused, Addr(next), Unused);
    assert CloseLast(DefaultCode(b, ctl, x), next).ops == [u, v] + b.ops + [w];
    hide HasOps, CloseLast, DefaultCode;
    Layout1(p, x.pc, [u, v] + b.ops, w);
    HasOpsSplit(p, x.pc, [u, v], b.ops);
    HasOpsAt(p, x.pc, [u, v], 0);
    HasOpsAt(p, x.pc, [u, v], 1);
  }

  lemma OneIsLaid(p: Program, k: Case, subject: Node, ctl: nat, x: Ctx, next: nat)
    requires HasOps(p, x.pc, CloseLast(GenCase(k, subject, ctl, x), next).ops)
    requires HasLoops(p, x.nl, GenCase(k, subject, ctl, x).loops)
    ensures OneLaid(p, k, subject, ctl, x, x.pc + |GenCase(k, subject, ctl, x).ops|, next)
  {
    hide HasOps, HasLoops, GenSeq, GenE, CloseLast;
    var b := GenSeq(k.body, BodyCtx(k, x));
    match k
    case Case(e, _) => LayoutCase(p, GenE(e, x.pc, x.t), b, subject, ctl, x, next);
    case Default(_) => LayoutDefault(p, b, ctl, x, next);
  }

  lemma CloseLastAppend(a: SCode, b: SCode, target: nat)
    requires b.ops != []
    ensures CloseLast(Seq2(a, b), target).ops == a.ops + CloseLast(b, target).ops
  {
  }

  /** Every case of a laid switch is laid, each falling through into the next. */
  lemma {:induction false} CaseIsLaid(p: Program, cases: seq<Case>, subject: Node, ctl: nat, y: Ctx, tail: nat, i: nat)
    requires CasesLaid(p, cases, subject, ctl, y, tail) && i < |cases|
    ensures OneLaid(p, cases[i], subject, ctl, CaseCtx(cases, subject, ctl, y, i), CaseCtx(cases, subject, ctl, y, i + 1).pc,
      NextBody(cases, subject, ctl, y, tail, i + 1))
    decreases |cases|
  {
    hide HasOps, HasLoops, GenSeq, GenE, CloseLast, GenCase, BodyCtx, OneLaid;
    var n := |cases| - 1;
    var init := cases[..n];
    var a := GenCases(init, subject, ctl, y);
    var x := y.After(a);
    var to := BodyCtx(cases[n], x).pc;
    var last := GenCase(cases[n], subject, ctl, x);
    GenCaseNonEmpty(cases[n], subject, ctl, x);
    CloseLastAppend(CloseLast(a, to), last, tail);
    CloseLastSame(a, to);
    HasOpsSplit(p, y.pc, CloseLast(a, to).ops, CloseLast(last, tail).ops);
    HasLoopsSplit(p, y.nl, a.loops, last.loops);
    CaseCtxNext(cases, subject, ctl, y, i);
    if i == n {
      OneIsLaid(p, cases[n], subject, ctl, x, tail);
    } else {
      CaseIsLaid(p, init, subject, ctl, y, to, i);
      assert init[..i] == cases[..i] && init[..i + 1] == cases[..i + 1];
    }
  }

  lemma GenCaseNonEmpty(k: Case, subject: Node, ctl: nat, x: Ctx)
    ensures GenCase(k, subject, ctl, x).ops != []
  {
    hide GenSeq, GenE;
  }

  lemma CloseLastSame(a: SCode, to: int)
    ensures var c := CloseLast(a, to); |c.ops| == |a.ops| && c.loops == a.loops && c.t == a.t
  {
  }

  /** CASE compares the subject with the case value into the control temporary. */
  lemma CaseStep(lib: Lib, p: Program, m: Machine, ctl: nat, subject: Node, a: Node, v: Value, w: Value) returns (m2: Machine)
    requires m.pc < |p.ops| && p.ops[m.pc] == Mk(OpCase, Tmp(ctl), subject, a) && ctl < |m.ts|
    requires Operand(subject, m.ts) == Some(v) && Operand(a, m.ts) == Some(w)
    ensures m2 == Machine(m.pc + 1, m.ts[ctl := Val(lib.binary(IsEqual, v, w))], m.st)
    ensures Step(lib, p, m) == Running(m2)
  {
    m2 := Machine(m.pc + 1, m.ts[ctl := Val(lib.binary(IsEqual, v, w))], m.st);
  }

  /** The control temporary holds a value whose truth is b. */
  ghost predicate Armed(ctl: nat, ts: seq<Temp>, b: bool) {
    ctl < |ts| && ts[ctl].Val? && IsTrue(ts[ctl].v) == b
  }

  lemma UnfoldMatch(lib: Lib, v: Value, cases: seq<Case>, i: nat, st: Store)
    requires i < |cases| && cases[i].Case?
    ensures var (w, st1) := Eval(lib, cases[i].e, st);
      Match(lib, v, cases, i, st) ==
        if IsTrue(lib.binary(IsEqual, v, w)) then (i, st1) else Match(lib, v, cases, i + 1, st1)
  {
    hide Eval;
  }

  /**
   From the code of the i-th case the machine goes to the body of the first matching case, with the control
   temporary true, or past all cases, with it false. Defaults are jumped over.
   */
  lemma {:induction false} SimMatch(lib: Lib, p: Program, cases: seq<Case>, subject: Node, ctl: nat, y: Ctx, tail: nat, i: nat,
                                    v: Value, m: Machine) returns (n: nat, m2: Machine)
    requires CasesLaid(p, cases, subject, ctl, y, tail) && y.t == ctl + 1 && NodeIn(subject, 0, ctl)
    requires i <= |cases| && m.pc == CaseCtx(cases, subject, ctl, y, i).pc
    requires CaseCtx(cases, subject, ctl, y, |cases|).t <= |m.ts|
    requires tail == CaseCtx(cases, subject, ctl, y, |cases|).pc
    requires Operand(subject, m.ts) == Some(v) && Armed(ctl, m.ts, false)
    ensures Goes(lib, p, m, n, m2) && Kept(m.ts, m2.ts, ctl)
    ensures var (j, st1) := Match(lib, v, cases, i, m.st);
      m2.st == st1 && Armed(ctl, m2.ts, j < |cases|) && m2.pc == NextBody(cases, subject, ctl, y, tail, j)
    decreases |cases| - i
  {
    hide Step, Steps, HasOps, HasLoops, GenSeq, GenE, CloseLast, GenCase, GenCases, CaseCtx, CasesLaid, Eval;
    if i == |cases| {
      n, m2 := 0, m;
      GoesNone(lib, p, m);
      return;
    }
    CaseIsLaid(p, cases, subject, ctl, y, tail, i);
    var x := CaseCtx(cases, subject, ctl, y, i);
    var end := CaseCtx(cases, subject, ctl, y, i + 1).pc;
    match cases[i]
    case Default(_) =>
      var m1 := GotoStep(lib, p, m, end);
      GoesOne(lib, p, m, m1);
      var j;
      j, m2 := SimMatch(lib, p, cases, subject, ctl, y, tail, i + 1, v, m1);
      GoesAdd(lib, p, m, 1, m1, j, m2);
      n := 1 + j;
    case Case(e, _) =>
      var k, m3 := SimTest(lib, p, cases[i], subject, ctl, x, end, NextBody(cases, subject, ctl, y, tail, i + 1), v, m,
        CaseCtx(cases, subject, ctl, y, i + 1).t) by {
        CaseCtxNext(cases, subject, ctl, y, i);
        CaseCtxGrows(cases, subject, ctl, y, i + 1, |cases|);
        GenCaseCovers(cases[i], subject, ctl, x);
      }
      UnfoldMatch(lib, v, cases, i, m.st);
      if Armed(ctl, m3.ts, true) {
        n, m2 := k, m3;
      } else {
        OperandKept(subject, m.ts, m3.ts, ctl, 0);
        var j;
        j, m2 := SimMatch(lib, p, cases, subject, ctl, y, tail, i + 1, v, m3);
        GoesAdd(lib, p, m, k, m3, j, m2);
        KeptTrans(m.ts, m3.ts, m2.ts, ctl, ctl);
        n := k + j;
      }
  }

  /** The temporaries of a case cover those of its expression. */
  lemma GenCaseCovers(k: Case, subject: Node, ctl: nat, x: Ctx)
    ensures BodyCtx(k, x).t <= GenCase(k, subject, ctl, x).t
  {
    hide GenE;
  }

  /** One case expression, its comparison and its conditional jump. */
  lemma SimTest(lib: Lib, p: Program, k: Case, subject: Node, ctl: nat, x: Ctx, end: nat, next: nat, v: Value, m: Machine, t1: nat)
    returns (n: nat, m2: Machine)
    requires k.Case? && OneLaid(p, k, subject, ctl, x, end, next) && m.pc == x.pc
    requires ctl < x.t && BodyCtx(k, x).t <= t1 <= |m.ts| && NodeIn(subject, 0, ctl)
    requires Operand(subject, m.ts) == Some(v)
    ensures Goes(lib, p, m, n, m2) && Kept(m.ts, m2.ts, ctl)
    ensures var (w, st1) := Eval(lib, k.e, m.st);
      var hit := IsTrue(lib.binary(IsEqual, v, w));
      m2.st == st1 && Armed(ctl, m2.ts, hit) && m2.pc == if hit then BodyCtx(k, x).pc else end
  {
    hide Step, Steps, HasOps, HasLoops, GenSeq, GenE, Eval;
    var c := GenE(k.e, x.pc, x.t);
    var i, m1 := SimE(lib, p, k.e, x.t, m);
    var w := Eval(lib, k.e, m.st).0;
    OperandKept(subject, m.ts, m1.ts, ctl, 0);
    var m3 := CaseStep(lib, p, m1, ctl, subject, c.node, v, w);
    GoesThen(lib, p, m, i, m1, m3);
    m2 := JumpStep(lib, p, m3, false, Tmp(ctl), end, lib.binary(IsEqual, v, w));
    GoesThen(lib, p, m, i + 1, m3, m2);
    n := i + 2;
  }

  /** The address patched into the closing jump is that of the opcode arming the last default. */
  lemma {:induction false} DefaultAddrIs(cases: seq<Case>, subject: Node, ctl: nat, y: Ctx)
    ensures var d := DefaultOf(cases);
      DefaultAddr(cases, subject, ctl, y) == if d == |cases| then -1 else CaseCtx(cases, subject, ctl, y, d).pc + 1
    decreases |cases|
  {
    hide GenCases;
    if cases != [] {
      var n := |cases| - 1;
      DefaultAddrIs(cases[..n], subject, ctl, y);
      var d := DefaultOf(cases[..n]);
      assert cases[..n][..d] == cases[..d];
    }
  }
}
