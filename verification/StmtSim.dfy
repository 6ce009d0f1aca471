/** Landing of statements: where the machine is when a statement's code has run, for every way of ending. */
module StmtSim {
  import opened Values
  import opened Source
  import opened Common
  import opened Opcodes
  import opened Codegen
  import opened ExprSim

  /** The loop table holds these entries from index nl on. */
  ghost predicate HasLoops(p: Program, nl: nat, loops: seq<BrkCont>) {
    nl + |loops| <= |p.loops| && p.loops[nl..nl + |loops|] == loops
  }

  lemma HasLoopsSplit(p: Program, nl: nat, a: seq<BrkCont>, b: seq<BrkCont>)
    requires HasLoops(p, nl, a + b)
    ensures HasLoops(p, nl, a) && HasLoops(p, nl + |a|, b)
  {
    var s := p.loops[nl..nl + |a + b|];
    assert p.loops[nl..nl + |a|] == s[..|a|] == a;
    assert p.loops[nl + |a|..nl + |a| + |b|] == s[|a|..] == b;
  }

  lemma HasLoopsFirst(p: Program, nl: nat, e: BrkCont, b: seq<BrkCont>)
    requires HasLoops(p, nl, [e] + b)
    ensures nl < |p.loops| && p.loops[nl] == e && HasLoops(p, nl + 1, b)
  {
    HasLoopsSplit(p, nl, [e], b);
    assert p.loops[nl..nl + 1][0] == e;
  }

  /** The table entries met when following the parent links from cur, innermost first; parents strictly decrease. */
  ghost predicate Nesting(table: seq<BrkCont>, cur: int, encl: seq<BrkCont>) {
    if cur == -1 then encl == []
    else
      && 0 <= cur < |table| && encl != [] && encl[0] == table[cur]
      && -1 <= table[cur].parent < cur && Nesting(table, table[cur].parent, encl[1..])
  }

  /** The walk of BRK and CONT finds the n-th enclosing loop, or runs off the chain exactly when there are fewer than n. */
  lemma {:induction false} EnclosingIsNth(table: seq<BrkCont>, cur: int, encl: seq<BrkCont>, n: nat)
    requires n >= 1 && Nesting(table, cur, encl)
    ensures Enclosing(table, cur, n) == if n <= |encl| then Found(encl[n - 1]) else TooShallow
    decreases n
  {
    if cur != -1 && n > 1 {
      EnclosingIsNth(table, table[cur].parent, encl[1..], n - 1);
    }
  }

  /**
   After n rounds from m the machine is where outcome o says: past the code, at the exit or continue point of the
   loop broken out of, stopped with the fatal error when too few loops enclose the break, stopped by a return,
   or, when the source runs out of fuel, still running after at least that many rounds.
   */
  ghost predicate Lands(lib: Lib, p: Program, o: Outcome, end: nat, t: nat, encl: seq<BrkCont>, m: Machine, n: nat, fuel: nat) {
    var r := Steps(lib, p, m, n);
    match o
    case Normal(st) => At(r, end, st, m.ts, t)
    case Broke(k, st) => k >= 1 && if k <= |encl| then At(r, encl[k - 1].brk, st, m.ts, t) else r == Fatal(st)
    case Continued(k, st) => k >= 1 && if k <= |encl| then At(r, encl[k - 1].cont, st, m.ts, t) else r == Fatal(st)
    case Returned(v, st) => r == Done(v, st)
    case OutOfFuel => r.Running? && n >= fuel
  }

  ghost predicate At(r: Run, pc: nat, st: Store, ts: seq<Temp>, t: nat) {
    r.Running? && r.m.pc == pc && r.m.st == st && Kept(ts, r.m.ts, t)
  }

  /** A landing is still one when preceded by rounds that keep the temporaries below t. */
  lemma LandsAfter(lib: Lib, p: Program, m: Machine, a: nat, m1: Machine, o: Outcome, end: nat, t: nat, encl: seq<BrkCont>,
                   n: nat, fuel: nat, t1: nat, fuel1: nat)
    requires Goes(lib, p, m, a, m1) && Kept(m.ts, m1.ts, t) && t <= t1 && fuel <= a + fuel1
    requires Lands(lib, p, o, end, t1, encl, m1, n, fuel1)
    ensures Lands(lib, p, o, end, t, encl, m, a + n, fuel)
  {
    hide Step, Steps;
    StepsAdd(lib, p, m, a, n);
  }

  /** The machine at the end of a normal landing. */
  lemma LandedAt(lib: Lib, p: Program, m: Machine, o: Outcome, end: nat, t: nat, encl: seq<BrkCont>, n: nat, fuel: nat)
    returns (m1: Machine)
    requires Lands(lib, p, o, end, t, encl, m, n, fuel) && o.Normal?
    ensures Goes(lib, p, m, n, m1) && m1.pc == end && m1.st == o.st && Kept(m.ts, m1.ts, t)
  {
    hide Step;
    m1 := Steps(lib, p, m, n).m;
  }

  /** Rounds that lead to the end of the code are a normal landing. */
  lemma LandsNormally(lib: Lib, p: Program, m: Machine, n: nat, m1: Machine, t: nat, encl: seq<BrkCont>, fuel: nat)
    requires Goes(lib, p, m, n, m1) && Kept(m.ts, m1.ts, t)
    ensures Lands(lib, p, Normal(m1.st), m1.pc, t, encl, m, n, fuel)
  {
    hide Step;
  }

  /** What stops the body of a loop stops the loop: its own breaks land at its end, deeper ones one loop further out. */
  lemma LandsUnwound(lib: Lib, p: Program, o: Outcome, bodyEnd: nat, e: BrkCont, t: nat, encl: seq<BrkCont>, m: Machine, n: nat, fuel: nat)
    requires Lands(lib, p, o, bodyEnd, t, [e] + encl, m, n, fuel)
    requires o.Normal? ==> bodyEnd == e.brk
    requires o.Continued? && o.levels == 1 ==> e.cont == e.brk
    ensures Lands(lib, p, Unwind(o), e.brk, t, encl, m, n, fuel)
  {
    hide Step, Steps;
    var f := [e] + encl;
    if (o.Broke? || o.Continued?) && 2 <= o.levels <= |f| {
      assert f[o.levels - 1] == encl[o.levels - 2];
    }
  }

  /** The machine where the next round of a loop starts from: the end of the body, or the continue point. */
  lemma GoesOnAt(lib: Lib, p: Program, o: Outcome, bodyEnd: nat, e: BrkCont, t: nat, encl: seq<BrkCont>, m: Machine, n: nat, fuel: nat)
    returns (m1: Machine)
    requires Lands(lib, p, o, bodyEnd, t, [e] + encl, m, n, fuel) && GoesOn(o)
    ensures Goes(lib, p, m, n, m1) && m1.st == o.st && Kept(m.ts, m1.ts, t)
    ensures m1.pc == if o.Normal? then bodyEnd else e.cont
  {
    hide Step;
    m1 := Steps(lib, p, m, n).m;
  }

  lemma KeptTrans(a: seq<Temp>, b: seq<Temp>, c: seq<Temp>, t: nat, t1: nat)
    requires Kept(a, b, t) && Kept(b, c, t1) && t <= t1
    ensures Kept(a, c, t)
  {
  }

  // Expressions whose value is dropped, comma lists and echo lists.

  /** A free, if there is one, does nothing but advance. */
  lemma SimFree(lib: Lib, p: Program, a: Node, m: Machine) returns (n: nat, m2: Machine)
    requires HasOps(p, m.pc, FreeOps(a))
    ensures Goes(lib, p, m, n, m2) && m2 == m.(pc := m.pc + |FreeOps(a)|)
  {
    hide Steps;
    if a.Tmp? {
      HasOpsAt(p, m.pc, FreeOps(a), 0);
      m2, n := m.(pc := m.pc + 1), 1;
      GoesOne(lib, p, m, m2);
    } else {
      n, m2 := 0, m;
      GoesNone(lib, p, m);
    }
  }

  lemma GoesNone(lib: Lib, p: Program, m: Machine)
    ensures Goes(lib, p, m, 0, m)
  {
    hide Step;
  }

  /** An expression followed by its free. */
  lemma SimFreed(lib: Lib, p: Program, e: Expr, t: nat, m: Machine) returns (n: nat, m2: Machine)
    requires HasOps(p, m.pc, GenE(e, m.pc, t).ops + FreeOps(GenE(e, m.pc, t).node))
    requires GenE(e, m.pc, t).t <= |m.ts|
    ensures Goes(lib, p, m, n, m2) && Kept(m.ts, m2.ts, t)
    ensures m2.pc == m.pc + |GenE(e, m.pc, t).ops| + |FreeOps(GenE(e, m.pc, t).node)|
    ensures m2.st == Eval(lib, e, m.st).1
  {
    hide Step, Steps, GenE, HasOps, Eval, FreeOps;
    var c := GenE(e, m.pc, t);
    HasOpsSplit(p, m.pc, c.ops, FreeOps(c.node));
    var i, m1 := SimE(lib, p, e, t, m);
    var j;
    j, m2 := SimFree(lib, p, c.node, m1);
    GoesAdd(lib, p, m, i, m1, j, m2);
    n := i + j;
  }

  lemma {:induction false} SimList(lib: Lib, p: Program, es: seq<Expr>, t: nat, m: Machine) returns (n: nat, m2: Machine)
    requires HasOps(p, m.pc, GenList(es, m.pc, t).ops) && GenList(es, m.pc, t).t <= |m.ts|
    ensures Goes(lib, p, m, n, m2) && Computed(GenList(es, m.pc, t), t, m, m2, EvalList(lib, es, m.st))
  {
    hide Step, Steps, GenE, HasOps, Eval, FreeOps;
    if es == [] {
      n, m2 := 0, m;
      GoesNone(lib, p, m);
    } else if |es| == 1 {
      n, m2 := SimE(lib, p, es[0], t, m);
    } else {
      var c := GenE(es[0], m.pc, t);
      var f := c.ops + FreeOps(c.node);
      var d := GenList(es[1..], m.pc + |f|, c.t);
      HasOpsSplit(p, m.pc, f, d.ops);
      var i, m1 := SimFreed(lib, p, es[0], t, m);
      var j;
      j, m2 := SimList(lib, p, es[1..], c.t, m1);
      GoesAdd(lib, p, m, i, m1, j, m2);
      n := i + j;
    }
  }

  lemma SimListFreed(lib: Lib, p: Program, es: seq<Expr>, t: nat, m: Machine) returns (n: nat, m2: Machine)
    requires HasOps(p, m.pc, GenListFreed(es, m.pc, t).ops) && GenListFreed(es, m.pc, t).t <= |m.ts|
    ensures Goes(lib, p, m, n, m2) && Kept(m.ts, m2.ts, t)
    ensures m2.pc == m.pc + |GenListFreed(es, m.pc, t).ops| && m2.st == EvalList(lib, es, m.st).1
  {
    hide Step, Steps, GenList, HasOps, EvalList, FreeOps;
    var c := GenList(es, m.pc, t);
    HasOpsSplit(p, m.pc, c.ops, FreeOps(c.node));
    var i, m1 := SimList(lib, p, es, t, m);
    var j;
    j, m2 := SimFree(lib, p, c.node, m1);
    GoesAdd(lib, p, m, i, m1, j, m2);
    n := i + j;
  }

  lemma EchoStep(lib: Lib, p: Program, m: Machine, a: Node, v: Value) returns (m2: Machine)
    requires m.pc < |p.ops| && p.ops[m.pc] == Mk(OpEcho, Unused, a, Unused) && Operand(a, m.ts) == Some(v)
    ensures m2 == Machine(m.pc + 1, m.ts, m.st.Emit(Echoed(v))) && Step(lib, p, m) == Running(m2)
  {
    m2 := Machine(m.pc + 1, m.ts, m.st.Emit(Echoed(v)));
  }

  lemma {:induction false} SimEcho(lib: Lib, p: Program, es: seq<Expr>, t: nat, m: Machine) returns (n: nat, m2: Machine)
    requires HasOps(p, m.pc, GenEcho(es, m.pc, t).ops) && GenEcho(es, m.pc, t).t <= |m.ts|
    ensures Goes(lib, p, m, n, m2) && Kept(m.ts, m2.ts, t)
    ensures m2.pc == m.pc + |GenEcho(es, m.pc, t).ops| && m2.st == EchoAll(lib, es, m.st)
  {
    hide Step, Steps, GenE, HasOps, Eval;
    if es == [] {
      n, m2 := 0, m;
      GoesNone(lib, p, m);
    } else {
      var c := GenE(es[0], m.pc, t);
      var x := Mk(OpEcho, Unused, c.node, Unused);
      var d := GenEcho(es[1..], m.pc + |c.ops| + 1, c.t);
      HasOpsSplit(p, m.pc, c.ops + [x], d.ops);
      Layout1(p, m.pc, c.ops, x);
      var i, m1 := SimE(lib, p, es[0], t, m);
      var m3 := EchoStep(lib, p, m1, c.node, Eval(lib, es[0], m.st).0);
      GoesThen(lib, p, m, i, m1, m3);
      var j;
      j, m2 := SimEcho(lib, p, es[1..], c.t, m3);
      GoesAdd(lib, p, m, i + 1, m3, j, m2);
      n := i + 1 + j;
    }
  }

  /** The frees before a return do nothing but advance. */
  lemma {:induction false} SimFrees(lib: Lib, p: Program, sw: seq<Node>, m: Machine)
    requires HasOps(p, m.pc, ReturnFrees(sw))
    ensures Goes(lib, p, m, |ReturnFrees(sw)|, m.(pc := m.pc + |ReturnFrees(sw)|))
    decreases |sw|
  {
    hide Steps, HasOps;
    var f := ReturnFrees(sw);
    if f == [] {
      GoesNone(lib, p, m);
    } else {
      var rest := ReturnFrees(sw[..|sw| - 1]);
      assert f == [f[0]] + rest;
      HasOpsSplit(p, m.pc, [f[0]], rest);
      HasOpsAt(p, m.pc, f, 0);
      var m1 := m.(pc := m.pc + 1);
      GoesOne(lib, p, m, m1);
      SimFrees(lib, p, sw[..|sw| - 1], m1);
      GoesAdd(lib, p, m, 1, m1, |rest|, m1.(pc := m1.pc + |rest|));
    }
  }
}
