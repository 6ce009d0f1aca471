/** Running the code of a statement does what the statement means. */
module Simulation {
  import opened Values
  import opened Source
  import opened Common
  import opened Opcodes
  import opened Codegen
  import opened Unfold
  import opened ExprSim
  import opened StmtSim
  import opened SwitchSim

  /** The program holds code c compiled in context x, encl are the loops around it, and the machine is at its start. */
  ghost predicate Laid(p: Program, c: SCode, x: Ctx, encl: seq<BrkCont>, m: Machine) {
    && HasOps(p, x.pc, c.ops) && HasLoops(p, x.nl, c.loops)
    && x.cur < x.nl && Nesting(p.loops, x.cur, encl)
    && c.t <= |m.ts|
  }

  ghost predicate Does(lib: Lib, p: Program, o: Outcome, c: SCode, x: Ctx, encl: seq<BrkCont>, m: Machine, n: nat, fuel: nat) {
    Lands(lib, p, o, x.pc + |c.ops|, x.t, encl, m, n, fuel)
  }

  lemma NestingInside(p: Program, x: Ctx, e: BrkCont, encl: seq<BrkCont>)
    requires x.cur < x.nl < |p.loops| && p.loops[x.nl] == e && e.parent == x.cur && Nesting(p.loops, x.cur, encl)
    ensures Nesting(p.loops, x.nl, [e] + encl)
  {
    assert ([e] + encl)[1..] == encl;
    if x.cur != -1 {
      assert -1 <= x.cur;
    }
  }

  // while

  lemma UnfoldWhileRounds(lib: Lib, c: Expr, body: Stmt, st: Store, fuel: nat)
    requires fuel > 0
    ensures var (v, st1) := Eval(lib, c, st);
      var o := Exec(lib, body, st1, fuel);
      Rounds(lib, While(c, body), st, fuel) ==
        if !IsTrue(v) then Normal(st1)
        else if GoesOn(o) then Rounds(lib, While(c, body), o.st, fuel - 1)
        else Unwind(o)
  {
  }

  lemma LayoutWhile(p: Program, k: ECode, b: SCode, x: Ctx, encl: seq<BrkCont>, m: Machine)
    requires Laid(p, WhileCode(k, b, x), x, encl, m) && k.t <= b.t
    ensures var end := x.pc + |k.ops| + |b.ops| + 2; var e := BrkCont(x.pc, end, x.cur);
      && HasOps(p, x.pc, k.ops) && end - 1 < |p.ops|
      && p.ops[x.pc + |k.ops|] == Mk(OpJmpZ, Unused, k.node, Addr(end))
      && p.ops[end - 1] == Mk(OpJmp, Unused, Addr(x.pc), Unused)
      && Laid(p, b, x.Inside(x.pc + |k.ops| + 1, k.t), [e] + encl, m)
  {
    hide HasOps, HasLoops, Nesting;
    var end := x.pc + |k.ops| + |b.ops| + 2;
    var e := BrkCont(x.pc, end, x.cur);
    var j := Mk(OpJmpZ, Unused, k.node, Addr(end));
    Layout1(p, x.pc, k.ops + [j] + b.ops, Mk(OpJmp, Unused, Addr(x.pc), Unused));
    HasOpsSplit(p, x.pc, k.ops + [j], b.ops);
    Layout1(p, x.pc, k.ops, j);
    HasLoopsFirst(p, x.nl, e, b.loops);
    NestingInside(p, x, e, encl);
  }

  lemma {:induction false} SimWhile(lib: Lib, p: Program, s: Stmt, x: Ctx, encl: seq<BrkCont>, m: Machine, fuel: nat) returns (n: nat)
    requires s.While? && m.pc == x.pc && Laid(p, GenS(s, x), x, encl, m)
    ensures Does(lib, p, Rounds(lib, s, m.st, fuel), GenS(s, x), x, encl, m, n, fuel)
    decreases fuel, s, 0
  {
    hide Step, Steps, GenE, GenS, Exec, Rounds, Eval, HasOps, HasLoops, Nesting;
    var k := GenE(s.c, x.pc, x.t);
    var y := x.Inside(x.pc + |k.ops| + 1, k.t);
    var b := GenS(s.body, y);
    UnfoldWhile(s, x);
    LayoutWhile(p, k, b, x, encl, m);
    var end := x.pc + |k.ops| + |b.ops| + 2;
    var e := BrkCont(x.pc, end, x.cur);
    if fuel == 0 {
      n := Starved(lib, p, s, m, end, x.t, encl);
      return;
    }
    UnfoldWhileRounds(lib, s.c, s.body, m.st, fuel);
    var i, m1 := SimE(lib, p, s.c, x.t, m);
    var v := Eval(lib, s.c, m.st).0;
    var m2 := JumpStep(lib, p, m1, false, k.node, end, v);
    GoesThen(lib, p, m, i, m1, m2);
    if !IsTrue(v) {
      n := i + 1;
      LandsNormally(lib, p, m, n, m2, x.t, encl, fuel);
      return;
    }
    var o := Exec(lib, s.body, m2.st, fuel);
    var j := SimS(lib, p, s.body, y, [e] + encl, m2, fuel);
    if GoesOn(o) {
      var m3 := GoesOnAt(lib, p, o, end - 1, e, k.t, encl, m2, j, fuel);
      GoesAdd(lib, p, m, i + 1, m2, j, m3);
      KeptTrans(m.ts, m2.ts, m3.ts, x.t, k.t);
      var l, m4 := i + 1 + j, m3;
      if o.Normal? {
        m4 := GotoStep(lib, p, m3, x.pc);
        GoesThen(lib, p, m, l, m3, m4);
        l := l + 1;
      }
      var r := SimWhile(lib, p, s, x, encl, m4, fuel - 1);
      LandsAfter(lib, p, m, l, m4, Rounds(lib, s, m4.st, fuel - 1), end, x.t, encl, r, fuel, x.t, fuel - 1);
      n := l + r;
    } else {
      LandsUnwound(lib, p, o, end - 1, e, k.t, encl, m2, j, fuel);
      LandsAfter(lib, p, m, i + 1, m2, Unwind(o), end, x.t, encl, j, fuel, k.t, fuel);
      n := i + 1 + j;
    }
  }

  // do-while

  lemma UnfoldDoRounds(lib: Lib, s: Stmt, st: Store, fuel: nat)
    requires s.DoWhile? && fuel > 0
    ensures var o := Exec(lib, s.body, st, fuel);
      Rounds(lib, s, st, fuel) ==
        if !GoesOn(o) then Unwind(o)
        else if IsTrue(Eval(lib, s.c, o.st).0) then Rounds(lib, s, Eval(lib, s.c, o.st).1, fuel - 1)
        else Normal(Eval(lib, s.c, o.st).1)
  {
    hide Exec, Eval;
  }

  lemma LayoutDo(p: Program, b: SCode, k: ECode, x: Ctx, encl: seq<BrkCont>, m: Machine)
    requires Laid(p, DoCode(b, k, x), x, encl, m) && b.t <= k.t
    ensures var end := x.pc + |b.ops| + |k.ops| + 1; var e := BrkCont(x.pc + |b.ops|, end, x.cur);
      && HasOps(p, x.pc + |b.ops|, k.ops) && end - 1 < |p.ops|
      && p.ops[end - 1] == Mk(OpJmpNZ, Unused, k.node, Addr(x.pc))
      && Laid(p, b, x.Inside(x.pc, x.t), [e] + encl, m)
  {
    hide HasOps, HasLoops, Nesting;
    var end := x.pc + |b.ops| + |k.ops| + 1;
    var e := BrkCont(x.pc + |b.ops|, end, x.cur);
    Layout1(p, x.pc, b.ops + k.ops, Mk(OpJmpNZ, Unused, k.node, Addr(x.pc)));
    HasOpsSplit(p, x.pc, b.ops, k.ops);
    HasLoopsFirst(p, x.nl, e, b.loops);
    NestingInside(p, x, e, encl);
  }

  lemma {:induction false} SimDo(lib: Lib, p: Program, s: Stmt, x: Ctx, encl: seq<BrkCont>, m: Machine, fuel: nat) returns (n: nat)
    requires s.DoWhile? && m.pc == x.pc && Laid(p, GenS(s, x), x, encl, m)
    ensures Does(lib, p, Rounds(lib, s, m.st, fuel), GenS(s, x), x, encl, m, n, fuel)
    decreases fuel, s, 0
  {
    hide Step, Steps, GenE, GenS, Exec, Rounds, Eval, HasOps, HasLoops, Nesting;
    var y := x.Inside(x.pc, x.t);
    var b := GenS(s.body, y);
    var k := GenE(s.c, x.pc + |b.ops|, b.t);
    UnfoldDo(s, x);
    LayoutDo(p, b, k, x, encl, m);
    var end := x.pc + |b.ops| + |k.ops| + 1;
    var e := BrkCont(x.pc + |b.ops|, end, x.cur);
    if fuel == 0 {
      n := Starved(lib, p, s, m, end, x.t, encl);
      return;
    }
    UnfoldDoRounds(lib, s, m.st, fuel);
    var o := Exec(lib, s.body, m.st, fuel);
    var j := SimS(lib, p, s.body, y, [e] + encl, m, fuel);
    if GoesOn(o) {
      var m1 := GoesOnAt(lib, p, o, e.cont, e, x.t, encl, m, j, fuel);
      var i, m2 := SimE(lib, p, s.c, b.t, m1);
      GoesAdd(lib, p, m, j, m1, i, m2);
      KeptTrans(m.ts, m1.ts, m2.ts, x.t, b.t);
      var v := Eval(lib, s.c, m1.st).0;
      var m3 := JumpStep(lib, p, m2, true, k.node, x.pc, v);
      GoesThen(lib, p, m, j + i, m2, m3);
      if IsTrue(v) {
        var r := SimDo(lib, p, s, x, encl, m3, fuel - 1);
        LandsAfter(lib, p, m, j + i + 1, m3, Rounds(lib, s, m3.st, fuel - 1), end, x.t, encl, r, fuel, x.t, fuel - 1);
        n := j + i + 1 + r;
      } else {
        n := j + i + 1;
        LandsNormally(lib, p, m, n, m3, x.t, encl, fuel);
      }
    } else {
      LandsUnwound(lib, p, o, e.cont, e, x.t, encl, m, j, fuel);
      n := j;
    }
  }

  // for

  lemma UnfoldForRounds(lib: Lib, s: Stmt, st: Store, fuel: nat)
    requires s.For? && fuel > 0
    ensures var (v, st1) := EvalList(lib, s.cond, st);
      var o := Exec(lib, s.body, st1, fuel);
      Rounds(lib, s, st, fuel) ==
        if !IsTrue(v) then Normal(st1)
        else if GoesOn(o) then Rounds(lib, s, EvalList(lib, s.step, o.st).1, fuel - 1)
        else Unwind(o)
  {
    hide Exec, EvalList;
  }

  lemma LayoutFor(p: Program, i: ECode, k: ECode, u: ECode, b: SCode, x: Ctx, encl: seq<BrkCont>, m: Machine)
    requires Laid(p, ForCode(i, k, u, b, x), x, encl, m) && u.t <= b.t
    ensures var top := x.pc + |i.ops|; var next := top + |k.ops| + 1; var start := next + |u.ops| + 1; var end := start + |b.ops| + 1;
      && HasOps(p, x.pc, i.ops) && HasOps(p, top, k.ops) && HasOps(p, next, u.ops) && end - 1 < |p.ops|
      && p.ops[next - 1] == Op(OpJmpZNZ, Unused, k.node, Addr(end), Addr(start))
      && p.ops[start - 1] == Mk(OpJmp, Unused, Addr(top), Unused)
      && p.ops[end - 1] == Mk(OpJmp, Unused, Addr(next), Unused)
      && Laid(p, b, x.Inside(start, u.t), [BrkCont(next, end, x.cur)] + encl, m)
  {
    hide HasOps, HasLoops, Nesting;
    var top := x.pc + |i.ops|;
    var next := top + |k.ops| + 1;
    var start := next + |u.ops| + 1;
    var end := start + |b.ops| + 1;
    var e := BrkCont(next, end, x.cur);
    var f := Op(OpJmpZNZ, Unused, k.node, Addr(end), Addr(start));
    var g := Mk(OpJmp, Unused, Addr(top), Unused);
    Layout1(p, x.pc, i.ops + k.ops + [f] + u.ops + [g] + b.ops, Mk(OpJmp, Unused, Addr(next), Unused));
    HasOpsSplit(p, x.pc, i.ops + k.ops + [f] + u.ops + [g], b.ops);
    Layout1(p, x.pc, i.ops + k.ops + [f] + u.ops, g);
    HasOpsSplit(p, x.pc, i.ops + k.ops + [f], u.ops);
    Layout1(p, x.pc, i.ops + k.ops, f);
    HasOpsSplit(p, x.pc, i.ops, k.ops);
    HasLoopsFirst(p, x.nl, e, b.loops);
    NestingInside(p, x, e, encl);
  }

  lemma JumpBothStep(lib: Lib, p: Program, m: Machine, a: Node, no: nat, yes: nat, v: Value) returns (m2: Machine)
    requires m.pc < |p.ops| && p.ops[m.pc] == Op(OpJmpZNZ, Unused, a, Addr(no), Addr(yes)) && Operand(a, m.ts) == Some(v)
    ensures m2 == Machine(if IsTrue(v) then yes else no, m.ts, m.st) && Step(lib, p, m) == Running(m2)
  {
    m2 := Machine(if IsTrue(v) then yes else no, m.ts, m.st);
  }

  /** The step of a for loop and the jump back to its condition. */
  lemma SimForStep(lib: Lib, p: Program, s: Stmt, t: nat, top: nat, m: Machine) returns (n: nat, m2: Machine)
    requires s.For? && HasOps(p, m.pc, GenListFreed(s.step, m.pc, t).ops) && GenListFreed(s.step, m.pc, t).t <= |m.ts|
    requires var q := m.pc + |GenListFreed(s.step, m.pc, t).ops|; q < |p.ops| && p.ops[q] == Mk(OpJmp, Unused, Addr(top), Unused)
    ensures Goes(lib, p, m, n, m2) && Kept(m.ts, m2.ts, t) && m2.pc == top && m2.st == EvalList(lib, s.step, m.st).1
  {
    hide Step, Steps, GenListFreed, EvalList, HasOps;
    var i, m1 := SimListFreed(lib, p, s.step, t, m);
    m2 := GotoStep(lib, p, m1, top);
    GoesThen(lib, p, m, i, m1, m2);
    n := i + 1;
  }

  /** The rounds of a for loop, from its condition at `top`. */
  lemma {:induction false} SimFor(lib: Lib, p: Program, s: Stmt, x: Ctx, top: nat, encl: seq<BrkCont>, m: Machine, fuel: nat) returns (n: nat)
    requires s.For? && Laid(p, GenS(s, x), x, encl, m)
    requires m.pc == top == x.pc + |GenListFreed(s.init, x.pc, x.t).ops|
    ensures Does(lib, p, Rounds(lib, s, m.st, fuel), GenS(s, x), x, encl, m, n, fuel)
    decreases fuel, s, 0, 0
  {
    hide Step, Steps, GenList, GenListFreed, GenS, Exec, Rounds, EvalList, HasOps, HasLoops, Nesting;
    var i, k, u, b := UnfoldFor(s, x);
    LayoutFor(p, i, k, u, b, x, encl, m);
    var next := top + |k.ops| + 1;
    var start := next + |u.ops| + 1;
    var end := start + |b.ops| + 1;
    var e := BrkCont(next, end, x.cur);
    if fuel == 0 {
      n := Starved(lib, p, s, m, end, x.t, encl);
      return;
    }
    UnfoldForRounds(lib, s, m.st, fuel);
    var c, m1 := SimList(lib, p, s.cond, i.t, m);
    var v := EvalList(lib, s.cond, m.st).0;
    var m2 := JumpBothStep(lib, p, m1, k.node, end, start, v);
    GoesThen(lib, p, m, c, m1, m2);
    if !IsTrue(v) {
      n := c + 1;
      LandsNormally(lib, p, m, n, m2, x.t, encl, fuel);
      return;
    }
    var o := Exec(lib, s.body, m2.st, fuel);
    var j := SimS(lib, p, s.body, x.Inside(start, u.t), [e] + encl, m2, fuel);
    if GoesOn(o) {
      var m3 := GoesOnAt(lib, p, o, end - 1, e, u.t, encl, m2, j, fuel);
      GoesAdd(lib, p, m, c + 1, m2, j, m3);
      KeptTrans(m.ts, m2.ts, m3.ts, x.t, u.t);
      var l, m4 := c + 1 + j, m3;
      if o.Normal? {
        m4 := GotoStep(lib, p, m3, next);
        GoesThen(lib, p, m, l, m3, m4);
        l := l + 1;
      }
      var q, m5 := SimForStep(lib, p, s, k.t, top, m4);
      GoesAdd(lib, p, m, l, m4, q, m5);
      KeptTrans(m.ts, m4.ts, m5.ts, x.t, k.t);
      var r := SimFor(lib, p, s, x, top, encl, m5, fuel - 1);
      LandsAfter(lib, p, m, l + q, m5, Rounds(lib, s, m5.st, fuel - 1), end, x.t, encl, r, fuel, x.t, fuel - 1);
      n := l + q + r;
    } else {
      LandsUnwound(lib, p, o, end - 1, e, u.t, encl, m2, j, fuel);
      LandsAfter(lib, p, m, c + 1, m2, Unwind(o), end, x.t, encl, j, fuel, u.t, fuel);
      n := c + 1 + j;
    }
  }

  lemma Starved(lib: Lib, p: Program, s: Stmt, m: Machine, end: nat, t: nat, encl: seq<BrkCont>) returns (n: nat)
    requires s.While? || s.DoWhile? || s.For?
    ensures Lands(lib, p, Rounds(lib, s, m.st, 0), end, t, encl, m, n, 0)
  {
    hide Step;
    n := 0;
  }

  // if

  lemma LaidSplit(p: Program, a: SCode, b: SCode, x: Ctx, encl: seq<BrkCont>, m: Machine)
    requires Laid(p, Seq2(a, b), x, encl, m) && a.t <= b.t
    ensures Laid(p, a, x, encl, m) && Laid(p, b, x.After(a), encl, m)
  {
    hide HasOps, HasLoops, Nesting;
    HasOpsSplit(p, x.pc, a.ops, b.ops);
    HasLoopsSplit(p, x.nl, a.loops, b.loops);
  }

  lemma LayoutBranch(p: Program, k: ECode, b: SCode, x: Ctx, end: nat, encl: seq<BrkCont>, m: Machine)
    requires Laid(p, BranchCode(k, b, x, Addr(end)), x, encl, m)
    ensures var q := x.pc + |k.ops|; var skip := q + |b.ops| + 2;
      && HasOps(p, x.pc, k.ops) && skip - 1 < |p.ops|
      && p.ops[q] == Mk(OpJmpZ, Unused, k.node, Addr(skip))
      && p.ops[skip - 1] == Mk(OpJmp, Unused, Addr(end), Unused)
      && Laid(p, b, x.At(q + 1, k.t, x.nl), encl, m)
  {
    hide HasOps, HasLoops, Nesting;
    var j := Mk(OpJmpZ, Unused, k.node, Addr(x.pc + |k.ops| + |b.ops| + 2));
    Layout1(p, x.pc, k.ops + [j] + b.ops, Mk(OpJmp, Unused, Addr(end), Unused));
    HasOpsSplit(p, x.pc, k.ops + [j], b.ops);
    Layout1(p, x.pc, k.ops, j);
  }

  /** A true condition runs the branch and leaves for the end of the if; a false one skips it. */
  lemma {:induction false} SimBranch(lib: Lib, p: Program, c: Expr, body: Stmt, x: Ctx, end: nat, encl: seq<BrkCont>, m: Machine, fuel: nat)
    returns (n: nat, m2: Machine)
    requires m.pc == x.pc && Laid(p, GenBranch(c, body, x, Addr(end)), x, encl, m)
    ensures IsTrue(Eval(lib, c, m.st).0) ==> Lands(lib, p, Exec(lib, body, Eval(lib, c, m.st).1, fuel), end, x.t, encl, m, n, fuel)
    ensures !IsTrue(Eval(lib, c, m.st).0) ==>
      && Goes(lib, p, m, n, m2) && Kept(m.ts, m2.ts, x.t)
      && m2.pc == x.pc + |GenBranch(c, body, x, Addr(end)).ops| && m2.st == Eval(lib, c, m.st).1
    decreases fuel, body, 2
  {
    hide Step, Steps, GenE, GenS, Exec, Eval, HasOps, HasLoops, Nesting;
    var k := GenE(c, x.pc, x.t);
    var y := x.At(x.pc + |k.ops| + 1, k.t, x.nl);
    var b := GenS(body, y);
    LayoutBranch(p, k, b, x, end, encl, m);
    var skip := x.pc + |k.ops| + |b.ops| + 2;
    var i, m1 := SimE(lib, p, c, x.t, m);
    var v := Eval(lib, c, m.st).0;
    m2 := JumpStep(lib, p, m1, false, k.node, skip, v);
    GoesThen(lib, p, m, i, m1, m2);
    n := i + 1;
    if IsTrue(v) {
      var o := Exec(lib, body, m2.st, fuel);
      var j := SimS(lib, p, body, y, encl, m2, fuel);
      if o.Normal? {
        var m3 := LandedAt(lib, p, m2, o, skip - 1, k.t, encl, j, fuel);
        var m4 := GotoStep(lib, p, m3, end);
        GoesAdd(lib, p, m, i + 1, m2, j, m3);
        GoesThen(lib, p, m, i + 1 + j, m3, m4);
        KeptTrans(m.ts, m2.ts, m4.ts, x.t, k.t);
        LandsNormally(lib, p, m, i + 1 + j + 1, m4, x.t, encl, fuel);
        n := i + 1 + j + 1;
      } else {
        LandsElsewhere(lib, p, o, skip - 1, end, k.t, encl, m2, j, fuel);
        LandsAfter(lib, p, m, i + 1, m2, o, end, x.t, encl, j, fuel, k.t, fuel);
        n := i + 1 + j;
      }
    }
  }

  /** Where the code ends does not matter to what does not end normally. */
  lemma LandsElsewhere(lib: Lib, p: Program, o: Outcome, end: nat, end': nat, t: nat, encl: seq<BrkCont>, m: Machine, n: nat, fuel: nat)
    requires Lands(lib, p, o, end, t, encl, m, n, fuel) && !o.Normal?
    ensures Lands(lib, p, o, end', t, encl, m, n, fuel)
  {
    hide Step, Steps;
  }

  lemma {:induction false} SimElse(lib: Lib, p: Program, s: Stmt, i: nat, x: Ctx, end: nat, encl: seq<BrkCont>, m: Machine, fuel: nat)
    returns (n: nat)
    requires s.If? && i <= |s.elifs| && m.pc == x.pc && Laid(p, GenElse(s, i, x, Addr(end)), x, encl, m)
    requires end == x.pc + |GenElse(s, i, x, Addr(end)).ops|
    ensures Lands(lib, p, ExecElse(lib, s, i, m.st, fuel), end, x.t, encl, m, n, fuel)
    decreases fuel, s, 0, |s.elifs| - i
  {
    hide Step, Steps, GenE, GenS, GenBranch, Exec, Eval, HasOps, HasLoops, Nesting;
    if i == |s.elifs| {
      n := SimS(lib, p, s.els, x, encl, m, fuel);
    } else {
      var a := GenBranch(s.elifs[i].c, s.elifs[i].body, x, Addr(end));
      var y := x.After(a);
      LaidSplit(p, a, GenElse(s, i + 1, y, Addr(end)), x, encl, m);
      var j, m2 := SimBranch(lib, p, s.elifs[i].c, s.elifs[i].body, x, end, encl, m, fuel);
      n := j;
      if !IsTrue(Eval(lib, s.elifs[i].c, m.st).0) {
        var l := SimElse(lib, p, s, i + 1, y, end, encl, m2, fuel);
        LandsAfter(lib, p, m, j, m2, ExecElse(lib, s, i + 1, m2.st, fuel), end, x.t, encl, l, fuel, y.t, fuel);
        n := j + l;
      }
    }
  }

  lemma UnfoldExecIf(lib: Lib, s: Stmt, st: Store, fuel: nat)
    requires s.If?
    ensures Exec(lib, s, st, fuel) ==
      if IsTrue(Eval(lib, s.c, st).0) then Exec(lib, s.thn, Eval(lib, s.c, st).1, fuel)
      else ExecElse(lib, s, 0, Eval(lib, s.c, st).1, fuel)
  {
    hide Eval, ExecElse, ExecSeq, Rounds, ExecCases, EvalList, EchoAll, Entry;
  }

  lemma {:induction false} SimIf(lib: Lib, p: Program, s: Stmt, x: Ctx, encl: seq<BrkCont>, m: Machine, fuel: nat) returns (n: nat)
    requires s.If? && m.pc == x.pc && Laid(p, GenS(s, x), x, encl, m)
    ensures Does(lib, p, Exec(lib, s, m.st, fuel), GenS(s, x), x, encl, m, n, fuel)
    decreases fuel, s, 0, |s.elifs| + 1
  {
    hide Step, Steps, GenE, GenS, GenBranch, GenElse, Exec, Eval, HasOps, HasLoops, Nesting;
    UnfoldIf(s, x);
    UnfoldExecIf(lib, s, m.st, fuel);
    var end := x.pc + |GenIf(s, x, Unused).ops|;
    GenIfEnd(s, x, Unused, Addr(end));
    var a := GenBranch(s.c, s.thn, x, Addr(end));
    var y := x.After(a);
    LaidSplit(p, a, GenElse(s, 0, y, Addr(end)), x, encl, m);
    var j, m2 := SimBranch(lib, p, s.c, s.thn, x, end, encl, m, fuel);
    n := j;
    if !IsTrue(Eval(lib, s.c, m.st).0) {
      var l := SimElse(lib, p, s, 0, y, end, encl, m2, fuel);
      LandsAfter(lib, p, m, j, m2, ExecElse(lib, s, 0, m2.st, fuel), end, x.t, encl, l, fuel, y.t, fuel);
      n := j + l;
    }
  }

  // blocks and the simple statements

  lemma {:induction false} SimSeq(lib: Lib, p: Program, ss: seq<Stmt>, x: Ctx, encl: seq<BrkCont>, m: Machine, fuel: nat) returns (n: nat)
    requires m.pc == x.pc && Laid(p, GenSeq(ss, x), x, encl, m)
    ensures Does(lib, p, ExecSeq(lib, ss, m.st, fuel), GenSeq(ss, x), x, encl, m, n, fuel)
    decreases fuel, ss, 0
  {
    hide Step, Steps, GenS, Exec, HasOps, HasLoops, Nesting;
    if ss == [] {
      GoesNone(lib, p, m);
      n := 0;
      LandsNormally(lib, p, m, 0, m, x.t, encl, fuel);
    } else {
      var a := GenS(ss[0], x);
      var y := x.After(a);
      var b := GenSeq(ss[1..], y);
      LaidSplit(p, a, b, x, encl, m);
      var o := Exec(lib, ss[0], m.st, fuel);
      var i := SimS(lib, p, ss[0], x, encl, m, fuel);
      if o.Normal? {
        var m1 := LandedAt(lib, p, m, o, y.pc, x.t, encl, i, fuel);
        var j := SimSeq(lib, p, ss[1..], y, encl, m1, fuel);
        LandsAfter(lib, p, m, i, m1, ExecSeq(lib, ss[1..], m1.st, fuel), y.pc + |b.ops|, x.t, encl, j, fuel, y.t, fuel);
        n := i + j;
      } else {
        LandsElsewhere(lib, p, o, y.pc, y.pc + |b.ops|, x.t, encl, m, i, fuel);
        n := i;
      }
    }
  }

  /** Expression statements and echo. */
  lemma SimPlain(lib: Lib, p: Program, s: Stmt, x: Ctx, encl: seq<BrkCont>, m: Machine, fuel: nat) returns (n: nat)
    requires (s.ExprStmt? || s.Echo?) && m.pc == x.pc && Laid(p, GenS(s, x), x, encl, m)
    ensures Does(lib, p, Exec(lib, s, m.st, fuel), GenS(s, x), x, encl, m, n, fuel)
  {
    hide Step, Steps, GenE, GenEcho, Eval, EchoAll, HasOps, HasLoops, Nesting, FreeOps;
    var m1;
    if s.ExprStmt? {
      n, m1 := SimFreed(lib, p, s.e, x.t, m);
    } else {
      n, m1 := SimEcho(lib, p, s.es, x.t, m);
    }
    LandsNormally(lib, p, m, n, m1, x.t, encl, fuel);
  }

  /** break and continue: to the exit or continue point of the n-th enclosing loop, or the fatal error. */
  lemma SimLeave(lib: Lib, p: Program, s: Stmt, x: Ctx, encl: seq<BrkCont>, m: Machine, fuel: nat) returns (n: nat)
    requires (s.Break? || s.Continue?) && m.pc == x.pc && Laid(p, GenS(s, x), x, encl, m)
    ensures Does(lib, p, Exec(lib, s, m.st, fuel), GenS(s, x), x, encl, m, n, fuel)
  {
    hide Steps, HasLoops, Nesting;
    HasOpsAt(p, x.pc, GenS(s, x).ops, 0);
    var k := Levels(s.levels);
    EnclosingIsNth(p.loops, x.cur, encl, k);
    n := 1;
    StepsOne(lib, p, m);
  }

  lemma StepsOne(lib: Lib, p: Program, m: Machine)
    ensures Steps(lib, p, m, 1) == Step(lib, p, m)
  {
    hide Step;
    var r := Step(lib, p, m);
    if r.Running? {
      assert Steps(lib, p, r.m, 0) == r;
    }
  }

  lemma ReturnStep(lib: Lib, p: Program, m: Machine, a: Node, v: Value)
    requires m.pc < |p.ops| && p.ops[m.pc] == Mk(OpReturn, Unused, a, Unused) && Operand(a, m.ts) == Some(v)
    ensures Step(lib, p, m) == Run.Done(v, m.st)
  {
  }

  /** The frees and the return opcode, once the value is there. */
  lemma SimReturnTail(lib: Lib, p: Program, sw: seq<Node>, a: Node, v: Value, m: Machine) returns (n: nat)
    requires HasOps(p, m.pc, ReturnFrees(sw) + [Mk(OpReturn, Unused, a, Unused)]) && Operand(a, m.ts) == Some(v)
    ensures Steps(lib, p, m, n) == Run.Done(v, m.st)
  {
    hide Step, Steps, HasOps, ReturnFrees;
    var f := ReturnFrees(sw);
    Layout1(p, m.pc, f, Mk(OpReturn, Unused, a, Unused));
    SimFrees(lib, p, sw, m);
    var m1 := m.(pc := m.pc + |f|);
    ReturnStep(lib, p, m1, a, v);
    StepsOne(lib, p, m1);
    StepsAdd(lib, p, m, |f|, 1);
    n := |f| + 1;
  }

  lemma SimReturn(lib: Lib, p: Program, s: Stmt, x: Ctx, encl: seq<BrkCont>, m: Machine, fuel: nat) returns (n: nat)
    requires s.Return? && m.pc == x.pc && Laid(p, GenS(s, x), x, encl, m)
    ensures Does(lib, p, Exec(lib, s, m.st, fuel), GenS(s, x), x, encl, m, n, fuel)
  {
    hide Step, Steps, GenE, Eval, HasOps, HasLoops, Nesting, ReturnFrees;
    if s.result == [] {
      n := SimReturnTail(lib, p, x.sw, Const(Null), Null, m);
    } else {
      var c := GenE(s.result[0], x.pc, x.t);
      var tail := ReturnFrees(x.sw) + [Mk(OpReturn, Unused, c.node, Unused)];
      assert c.ops + ReturnFrees(x.sw) + [Mk(OpReturn, Unused, c.node, Unused)] == c.ops + tail;
      HasOpsSplit(p, x.pc, c.ops, tail);
      var i, m1 := SimE(lib, p, s.result[0], x.t, m);
      var j := SimReturnTail(lib, p, x.sw, c.node, Eval(lib, s.result[0], m.st).0, m1);
      StepsAdd(lib, p, m, i, j);
      n := i + j;
    }
  }

  // switch

  lemma LayoutSwitch(p: Program, k: ECode, open: SCode, d: int, x: Ctx, encl: seq<BrkCont>, m: Machine)
    requires Laid(p, SwitchCode(k, open, d, x), x, encl, m) && d >= -1
    ensures var tail := x.pc + |k.ops| + 1 + |open.ops|; var end := if d == -1 then tail else tail + 1;
      && HasOps(p, x.pc, k.ops) && x.pc + |k.ops| < |p.ops|
      && p.ops[x.pc + |k.ops|] == Mk(OpBool, Tmp(k.t), Const(Bool(false)), Unused)
      && HasOps(p, x.pc + |k.ops| + 1, CloseLast(open, tail).ops)
      && HasLoops(p, x.nl + 1, open.loops) && Nesting(p.loops, x.nl, [BrkCont(end, end, x.cur)] + encl)
      && (d != -1 ==> tail < |p.ops| && p.ops[tail] == Mk(OpJmpZ, Unused, Tmp(k.t), Addr(d)))
      && HasOps(p, end, SwitchFrees(k.node))
  {
    hide HasOps, HasLoops, Nesting;
    var tail := x.pc + |k.ops| + 1 + |open.ops|;
    var end := if d == -1 then tail else tail + 1;
    var e := BrkCont(end, end, x.cur);
    var b := CloseLast(open, tail).ops;
    var u := Mk(OpBool, Tmp(k.t), Const(Bool(false)), Unused);
    var again := if d == -1 then [] else [Mk(OpJmpZ, Unused, Tmp(k.t), Addr(d))];
    HasOpsSplit(p, x.pc, k.ops + [u] + b + again, SwitchFrees(k.node));
    HasOpsSplit(p, x.pc, k.ops + [u] + b, again);
    HasOpsSplit(p, x.pc, k.ops + [u], b);
    Layout1(p, x.pc, k.ops, u);
    if d != -1 {
      HasOpsAt(p, tail, again, 0);
    }
    HasLoopsFirst(p, x.nl, e, open.loops);
    NestingInside(p, x, e, encl);
  }

  lemma BodyIsLaid(p: Program, cases: seq<Case>, subject: Node, ctl: nat, y: Ctx, tail: nat, i: nat, encl: seq<BrkCont>, m: Machine)
    requires CasesLaid(p, cases, subject, ctl, y, tail) && i < |cases|
    requires Nesting(p.loops, y.cur, encl) && y.cur < y.nl && GenCases(cases, subject, ctl, y).t <= |m.ts|
    ensures var x := CaseCtx(cases, subject, ctl, y, i);
      var c := GenSeq(cases[i].body, BodyCtx(cases[i], x));
      var end := BodyCtx(cases[i], x).pc + |c.ops|;
      && Laid(p, c, BodyCtx(cases[i], x), encl, m)
      && end < |p.ops| && p.ops[end] == Mk(OpJmp, Unused, Addr(NextBody(cases, subject, ctl, y, tail, i + 1)), Unused)
  {
    hide HasOps, HasLoops, Nesting, GenSeq, GenE, GenCases, CasesLaid, CaseCtx;
    CaseIsLaid(p, cases, subject, ctl, y, tail, i);
    CaseCtxNext(cases, subject, ctl, y, i);
    CaseCtxGrows(cases, subject, ctl, y, i + 1, |cases|);
    CaseCtxKeeps(cases, subject, ctl, y, i);
    CaseBodyFits(cases[i], subject, ctl, CaseCtx(cases, subject, ctl, y, i));
    CaseCtxEnd(cases, subject, ctl, y);
  }

  lemma CaseCtxKeeps(cases: seq<Case>, subject: Node, ctl: nat, y: Ctx, i: nat)
    requires i <= |cases|
    ensures var x := CaseCtx(cases, subject, ctl, y, i); x.cur == y.cur && y.nl <= x.nl
  {
  }

  lemma CaseCtxEnd(cases: seq<Case>, subject: Node, ctl: nat, y: Ctx)
    ensures CaseCtx(cases, subject, ctl, y, |cases|) == y.After(GenCases(cases, subject, ctl, y))
  {
    hide GenCases;
    assert cases[..|cases|] == cases;
  }

  lemma CaseBodyFits(k: Case, subject: Node, ctl: nat, x: Ctx)
    ensures GenSeq(k.body, BodyCtx(k, x)).t == GenCase(k, subject, ctl, x).t
    ensures BodyCtx(k, x).cur == x.cur && BodyCtx(k, x).nl == x.nl
  {
    hide GenE, GenSeq;
  }

  lemma UnfoldExecCases(lib: Lib, cases: seq<Case>, i: nat, st: Store, fuel: nat)
    requires i < |cases|
    ensures var o := ExecSeq(lib, cases[i].body, st, fuel);
      ExecCases(lib, cases, i, st, fuel) == if o.Normal? then ExecCases(lib, cases, i + 1, o.st, fuel) else o
  {
    hide ExecSeq;
  }

  /** The bodies from the i-th on, one falling through into the next, up to the tail. */
  lemma {:induction false} SimBodies(lib: Lib, p: Program, cases: seq<Case>, subject: Node, ctl: nat, y: Ctx, tail: nat, i: nat,
                                     encl: seq<BrkCont>, m: Machine, fuel: nat) returns (n: nat)
    requires CasesLaid(p, cases, subject, ctl, y, tail) && i <= |cases| && m.pc == NextBody(cases, subject, ctl, y, tail, i)
    requires Nesting(p.loops, y.cur, encl) && y.cur < y.nl && GenCases(cases, subject, ctl, y).t <= |m.ts|
    ensures Lands(lib, p, ExecCases(lib, cases, i, m.st, fuel), tail, y.t, encl, m, n, fuel)
    decreases fuel, cases, 0, |cases| - i
  {
    hide Step, Steps, GenE, GenSeq, GenCases, CasesLaid, CaseCtx, ExecSeq, HasOps, HasLoops, Nesting;
    if i == |cases| {
      GoesNone(lib, p, m);
      n := 0;
      LandsNormally(lib, p, m, 0, m, y.t, encl, fuel);
      return;
    }
    BodyIsLaid(p, cases, subject, ctl, y, tail, i, encl, m);
    UnfoldExecCases(lib, cases, i, m.st, fuel);
    hide ExecCases;
    var x := BodyCtx(cases[i], CaseCtx(cases, subject, ctl, y, i));
    var c := GenSeq(cases[i].body, x);
    var end := x.pc + |c.ops|;
    var o := ExecSeq(lib, cases[i].body, m.st, fuel);
    var j := SimSeq(lib, p, cases[i].body, x, encl, m, fuel);
    if o.Normal? {
      var m1 := LandedAt(lib, p, m, o, end, x.t, encl, j, fuel);
      var m2 := GotoStep(lib, p, m1, NextBody(cases, subject, ctl, y, tail, i + 1));
      GoesThen(lib, p, m, j, m1, m2);
      KeptTrans(m.ts, m1.ts, m2.ts, x.t, x.t);
      var l := SimBodies(lib, p, cases, subject, ctl, y, tail, i + 1, encl, m2, fuel);
      LandsAfter(lib, p, m, j + 1, m2, ExecCases(lib, cases, i + 1, m2.st, fuel), tail, y.t, encl, l, fuel, y.t, fuel);
      n := j + 1 + l;
    } else {
      LandsElsewhere(lib, p, o, end, tail, x.t, encl, m, j, fuel);
      LandsBelow(lib, p, o, tail, y.t, x.t, encl, m, j, fuel);
      n := j;
    }
  }

  lemma LandsBelow(lib: Lib, p: Program, o: Outcome, end: nat, t: nat, t1: nat, encl: seq<BrkCont>, m: Machine, n: nat, fuel: nat)
    requires Lands(lib, p, o, end, t1, encl, m, n, fuel) && t <= t1
    ensures Lands(lib, p, o, end, t, encl, m, n, fuel)
  {
    hide Step, Steps;
  }

  /** From a body entered with the control temporary true, the machine leaves at the end label and never re-enters the default. */
  lemma {:induction false} SimEntered(lib: Lib, p: Program, cases: seq<Case>, subject: Node, ctl: nat, y: Ctx, tail: nat, d: int, i: nat,
                                      e: BrkCont, encl: seq<BrkCont>, m: Machine, fuel: nat) returns (n: nat)
    requires CasesLaid(p, cases, subject, ctl, y, tail) && i <= |cases| && m.pc == NextBody(cases, subject, ctl, y, tail, i)
    requires Nesting(p.loops, y.cur, [e] + encl) && y.cur < y.nl && GenCases(cases, subject, ctl, y).t <= |m.ts|
    requires y.t == ctl + 1 && (d != -1 ==> Armed(ctl, m.ts, true))
    requires e.cont == e.brk == if d == -1 then tail else tail + 1
    requires d != -1 ==> d >= 0 && tail < |p.ops| && p.ops[tail] == Mk(OpJmpZ, Unused, Tmp(ctl), Addr(d))
    ensures Lands(lib, p, Unwind(ExecCases(lib, cases, i, m.st, fuel)), e.brk, y.t, encl, m, n, fuel)
    decreases fuel, cases, 1
  {
    hide Step, Steps, GenCases, CasesLaid, CaseCtx, NextBody, ExecCases, HasOps, HasLoops, Nesting;
    var o := ExecCases(lib, cases, i, m.st, fuel);
    n := SimBodies(lib, p, cases, subject, ctl, y, tail, i, [e] + encl, m, fuel);
    if o.Normal? && d != -1 {
      var m1 := LandedAt(lib, p, m, o, tail, y.t, [e] + encl, n, fuel);
      var m2 := JumpStep(lib, p, m1, false, Tmp(ctl), d, m1.ts[ctl].v);
      GoesThen(lib, p, m, n, m1, m2);
      n := n + 1;
      LandsNormally(lib, p, m, n, m2, y.t, encl, fuel);
    } else {
      LandsUnwound(lib, p, o, tail, e, y.t, encl, m, n, fuel);
    }
  }

  /** The closing free of the subject. */
  lemma LandsFreed(lib: Lib, p: Program, o: Outcome, end: nat, a: Node, t: nat, encl: seq<BrkCont>, m: Machine, n: nat, fuel: nat)
    returns (n2: nat)
    requires Lands(lib, p, o, end, t, encl, m, n, fuel) && HasOps(p, end, SwitchFrees(a))
    ensures Lands(lib, p, o, end + |SwitchFrees(a)|, t, encl, m, n2, fuel)
  {
    hide Step, Steps, HasOps;
    n2 := n;
    if o.Normal? && SwitchFrees(a) != [] {
      var m1 := LandedAt(lib, p, m, o, end, t, encl, n, fuel);
      HasOpsAt(p, end, SwitchFrees(a), 0);
      var m2 := m1.(pc := end + 1);
      SwitchFreeStep(lib, p, m1, a);
      GoesThen(lib, p, m, n, m1, m2);
      n2 := n + 1;
      LandsNormally(lib, p, m, n2, m2, t, encl, fuel);
    } else if !o.Normal? {
      LandsElsewhere(lib, p, o, end, end + |SwitchFrees(a)|, t, encl, m, n, fuel);
    }
  }

  lemma SwitchFreeStep(lib: Lib, p: Program, m: Machine, a: Node)
    requires m.pc < |p.ops| && p.ops[m.pc] == Mk(OpSwitchFree, Unused, a, Unused)
    ensures Step(lib, p, m) == Running(m.(pc := m.pc + 1))
  {
  }

  /** From the first case on: the search, then either the matching body or, from the tail, the last default. */
  lemma {:induction false} SimCases(lib: Lib, p: Program, cases: seq<Case>, subject: Node, ctl: nat, y: Ctx, tail: nat, d: int,
                                    e: BrkCont, encl: seq<BrkCont>, v: Value, m: Machine, fuel: nat) returns (n: nat)
    requires CasesLaid(p, cases, subject, ctl, y, tail) && m.pc == y.pc && NodeIn(subject, 0, ctl)
    requires tail == y.pc + |GenCases(cases, subject, ctl, y).ops| && d == DefaultAddr(cases, subject, ctl, y)
    requires Nesting(p.loops, y.cur, [e] + encl) && y.cur < y.nl && GenCases(cases, subject, ctl, y).t <= |m.ts|
    requires y.t == ctl + 1 && Armed(ctl, m.ts, false) && Operand(subject, m.ts) == Some(v)
    requires e.cont == e.brk == if d == -1 then tail else tail + 1
    requires d != -1 ==> tail < |p.ops| && p.ops[tail] == Mk(OpJmpZ, Unused, Tmp(ctl), Addr(d))
    ensures var (i, st) := Entry(lib, v, cases, m.st);
      Lands(lib, p, Unwind(ExecCases(lib, cases, i, st, fuel)), e.brk, ctl, encl, m, n, fuel)
    decreases fuel, cases, 2
  {
    hide Step, Steps, GenCases, CasesLaid, CaseCtx, ExecCases, Match, DefaultAddr, HasOps, HasLoops, Nesting;
    CaseCtxStart(cases, subject, ctl, y);
    CaseCtxEnd(cases, subject, ctl, y);
    DefaultAddrIs(cases, subject, ctl, y);
    var k, m1 := SimMatch(lib, p, cases, subject, ctl, y, tail, 0, v, m);
    var (j, st) := Match(lib, v, cases, 0, m.st);
    if j < |cases| || d == -1 {
      var l := SimEntered(lib, p, cases, subject, ctl, y, tail, d, j, e, encl, m1, fuel);
      LandsAfter(lib, p, m, k, m1, Unwind(ExecCases(lib, cases, j, m1.st, fuel)), e.brk, ctl, encl, l, fuel, y.t, fuel);
      n := k + l;
    } else {
      var m2 := JumpStep(lib, p, m1, false, Tmp(ctl), d, m1.ts[ctl].v);
      GoesThen(lib, p, m, k, m1, m2);
      var f := DefaultOf(cases);
      CaseIsLaid(p, cases, subject, ctl, y, tail, f);
      var m3 := MoveStep(lib, p, m2, true, ctl, Const(Bool(true)), Bool(true));
      GoesThen(lib, p, m, k + 1, m2, m3);
      var l := SimEntered(lib, p, cases, subject, ctl, y, tail, d, f, e, encl, m3, fuel);
      LandsAfter(lib, p, m, k + 2, m3, Unwind(ExecCases(lib, cases, f, m3.st, fuel)), e.brk, ctl, encl, l, fuel, y.t, fuel);
      n := k + 2 + l;
    }
  }

  lemma CaseCtxStart(cases: seq<Case>, subject: Node, ctl: nat, y: Ctx)
    ensures CaseCtx(cases, subject, ctl, y, 0) == y
  {
  }

  lemma UnfoldExecSwitch(lib: Lib, s: Stmt, st: Store, fuel: nat)
    requires s.Switch?
    ensures var (i, st2) := Entry(lib, Eval(lib, s.c, st).0, s.cases, Eval(lib, s.c, st).1);
      Exec(lib, s, st, fuel) == Unwind(ExecCases(lib, s.cases, i, st2, fuel))
  {
    hide Eval, ExecElse, ExecSeq, Rounds, ExecCases, EvalList, EchoAll, Entry;
  }

  lemma {:induction false} SimSwitch(lib: Lib, p: Program, s: Stmt, x: Ctx, encl: seq<BrkCont>, m: Machine, fuel: nat) returns (n: nat)
    requires s.Switch? && m.pc == x.pc && Laid(p, GenS(s, x), x, encl, m)
    ensures Does(lib, p, Exec(lib, s, m.st, fuel), GenS(s, x), x, encl, m, n, fuel)
    decreases fuel, s, 0
  {
    hide Step, Steps, GenE, GenS, GenCases, DefaultAddr, SwitchFrees, Exec, ExecCases, Entry, Eval, HasOps, HasLoops, Nesting;
    UnfoldSwitch(s, x);
    UnfoldExecSwitch(lib, s, m.st, fuel);
    var k := GenE(s.c, x.pc, x.t);
    var y := SwitchCtx(k, x);
    var open := GenCases(s.cases, k.node, k.t, y);
    var d := DefaultAddr(s.cases, k.node, k.t, y);
    DefaultAddrIs(s.cases, k.node, k.t, y);
    LayoutSwitch(p, k, open, d, x, encl, m);
    var tail := y.pc + |open.ops|;
    var end := if d == -1 then tail else tail + 1;
    var e := BrkCont(end, end, x.cur);
    var i, m1 := SimE(lib, p, s.c, x.t, m);
    var v := Eval(lib, s.c, m.st).0;
    var m2 := MoveStep(lib, p, m1, true, k.t, Const(Bool(false)), Bool(false));
    GoesThen(lib, p, m, i, m1, m2);
    OperandKept(k.node, m1.ts, m2.ts, k.t, x.t);
    var j := SimCases(lib, p, s.cases, k.node, k.t, y, tail, d, e, encl, v, m2, fuel);
    var (f, st) := Entry(lib, v, s.cases, m2.st);
    var o := Unwind(ExecCases(lib, s.cases, f, st, fuel));
    LandsAfter(lib, p, m, i + 1, m2, o, end, x.t, encl, j, fuel, k.t, fuel);
    n := LandsFreed(lib, p, o, end, k.node, x.t, encl, m, i + 1 + j, fuel);
  }

  // any statement

  lemma UnfoldExecFor(lib: Lib, s: Stmt, st: Store, fuel: nat)
    requires s.For?
    ensures Exec(lib, s, st, fuel) == Rounds(lib, s, EvalList(lib, s.init, st).1, fuel)
  {
    hide Eval, ExecElse, ExecSeq, Rounds, ExecCases, EvalList, EchoAll, Entry;
  }

  lemma {:induction false} SimForFromInit(lib: Lib, p: Program, s: Stmt, x: Ctx, encl: seq<BrkCont>, m: Machine, fuel: nat) returns (n: nat)
    requires s.For? && m.pc == x.pc && Laid(p, GenS(s, x), x, encl, m)
    ensures Does(lib, p, Exec(lib, s, m.st, fuel), GenS(s, x), x, encl, m, n, fuel)
    decreases fuel, s, 0, 1
  {
    hide Step, Steps, GenListFreed, GenList, GenS, Exec, Rounds, EvalList, HasOps, HasLoops, Nesting;
    UnfoldExecFor(lib, s, m.st, fuel);
    var i, k, u, b := UnfoldFor(s, x);
    LayoutFor(p, i, k, u, b, x, encl, m);
    var c, m1 := SimListFreed(lib, p, s.init, x.t, m);
    var j := SimFor(lib, p, s, x, m1.pc, encl, m1, fuel);
    LandsAfter(lib, p, m, c, m1, Rounds(lib, s, m1.st, fuel), x.pc + |GenS(s, x).ops|, x.t, encl, j, fuel, x.t, fuel);
    n := c + j;
  }

  lemma UnfoldExecLoop(lib: Lib, s: Stmt, st: Store, fuel: nat)
    requires s.While? || s.DoWhile?
    ensures Exec(lib, s, st, fuel) == Rounds(lib, s, st, fuel)
  {
    hide Eval, ExecElse, ExecSeq, Rounds, ExecCases, EvalList, EchoAll, Entry;
  }

  lemma UnfoldExecBlock(lib: Lib, s: Stmt, st: Store, fuel: nat)
    requires s.Block?
    ensures Exec(lib, s, st, fuel) == ExecSeq(lib, s.ss, st, fuel)
  {
    hide Eval, ExecElse, ExecSeq, Rounds, ExecCases, EvalList, EchoAll, Entry;
  }

  /**
   The simulation theorem: for every statement, context, store and fuel, the machine entering the compiled code
   lands where the outcome of the source statement says, with the same store and output.
   */
  lemma {:induction false} SimS(lib: Lib, p: Program, s: Stmt, x: Ctx, encl: seq<BrkCont>, m: Machine, fuel: nat) returns (n: nat)
    requires m.pc == x.pc && Laid(p, GenS(s, x), x, encl, m)
    ensures Does(lib, p, Exec(lib, s, m.st, fuel), GenS(s, x), x, encl, m, n, fuel)
    decreases fuel, s, 1
  {
    hide Step, Steps, GenS, Exec, Rounds, HasOps, HasLoops, Nesting;
    match s
    case Block(ss) =>
      UnfoldBlock(s, x);
      UnfoldExecBlock(lib, s, m.st, fuel);
      n := SimSeq(lib, p, ss, x, encl, m, fuel);
    case ExprStmt(_) => n := SimPlain(lib, p, s, x, encl, m, fuel);
    case Echo(_) => n := SimPlain(lib, p, s, x, encl, m, fuel);
    case If(_, _, _, _) => n := SimIf(lib, p, s, x, encl, m, fuel);
    case While(_, _) =>
      UnfoldExecLoop(lib, s, m.st, fuel);
      n := SimWhile(lib, p, s, x, encl, m, fuel);
    case DoWhile(_, _) =>
      UnfoldExecLoop(lib, s, m.st, fuel);
      n := SimDo(lib, p, s, x, encl, m, fuel);
    case For(_, _, _, _) => n := SimForFromInit(lib, p, s, x, encl, m, fuel);
    case Switch(_, _) => n := SimSwitch(lib, p, s, x, encl, m, fuel);
    case Break(_) => n := SimLeave(lib, p, s, x, encl, m, fuel);
    case Continue(_) => n := SimLeave(lib, p, s, x, encl, m, fuel);
    case Return(_) => n := SimReturn(lib, p, s, x, encl, m, fuel);
  }
}
