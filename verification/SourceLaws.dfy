/**
 What the source language comes to, construct by construct, in terms of the variables and of what a script does to the
 outside world alone. By Correctness and EndToEnd the compiled scripts inherit it.
 */
module SourceLaws {
  import opened Values
  import opened Source

  /** These five values are false, all others true. */
  lemma FalseValues(v: Value)
    ensures IsTrue(v) <==> !(v == Null || v == Bool(false) || v == Long(0) || v == Str("") || v == Str("0"))
  {
  }

  // Expressions

  /** Reading an unset variable yields null, sets nothing and raises a notice. */
  lemma ReadLaw(lib: Lib, x: string, st: Store)
    ensures x in st.vars ==> Eval(lib, Read(x), st) == (st.vars[x], st)
    ensures x !in st.vars ==> Eval(lib, Read(x), st) == (Null, Store(st.vars, st.events + [Notice(x)]))
  {
  }

  lemma AssignLaw(lib: Lib, x: string, e: Expr, st: Store)
    ensures var (v, st1) := Eval(lib, e, st); Eval(lib, Assign(x, e), st) == (v, Store(st1.vars[x := v], st1.events))
  {
  }

  /** The right-hand side comes first; an unset variable counts as null, with a notice. */
  lemma AssignOpLaw(lib: Lib, op: BinOp, x: string, e: Expr, st: Store)
    ensures var (v, st1) := Eval(lib, e, st);
      var w := lib.binary(op, if x in st1.vars then st1.vars[x] else Null, v);
      Eval(lib, AssignOp(op, x, e), st) ==
        (w, Store(st1.vars[x := w], if x in st1.vars then st1.events else st1.events + [Notice(x)]))
  {
  }

  /** The prefix forms yield what the variable holds afterwards, the postfix forms what it held before. */
  lemma IncDecLaw(lib: Lib, x: string, st: Store)
    ensures var was := if x in st.vars then st.vars[x] else Null;
      var events := if x in st.vars then st.events else st.events + [Notice(x)];
      && Eval(lib, IncDecVar(PreInc, x), st) == (lib.incDec(PreInc, was), Store(st.vars[x := lib.incDec(PreInc, was)], events))
      && Eval(lib, IncDecVar(PreDec, x), st) == (lib.incDec(PreDec, was), Store(st.vars[x := lib.incDec(PreDec, was)], events))
      && Eval(lib, IncDecVar(PostInc, x), st) == (was, Store(st.vars[x := lib.incDec(PostInc, was)], events))
      && Eval(lib, IncDecVar(PostDec, x), st) == (was, Store(st.vars[x := lib.incDec(PostDec, was)], events))
  {
  }

  /** Left operand first, in either order of the operands in the operator. */
  lemma OperatorLaw(lib: Lib, op: BinOp, l: Expr, r: Expr, st: Store)
    ensures var (v, st1) := Eval(lib, l, st); var (w, st2) := Eval(lib, r, st1);
      Eval(lib, Binary(op, l, r), st) == (lib.binary(op, v, w), st2) && Eval(lib, Greater(op, l, r), st) == (lib.binary(op, w, v), st2)
  {
  }

  /** && and || look at their right operand only if the left one leaves the matter open, and yield a boolean. */
  lemma LogicalLaw(lib: Lib, l: Expr, r: Expr, st: Store)
    ensures var (v, st1) := Eval(lib, l, st); var (w, st2) := Eval(lib, r, st1);
      && Eval(lib, And(l, r), st) == (if IsTrue(v) then (Bool(IsTrue(w)), st2) else (Bool(false), st1))
      && Eval(lib, Or(l, r), st) == (if IsTrue(v) then (Bool(true), st1) else (Bool(IsTrue(w)), st2))
  {
  }

  lemma TernaryLaw(lib: Lib, c: Expr, yes: Expr, no: Expr, st: Store)
    ensures var (v, st1) := Eval(lib, c, st);
      Eval(lib, Ternary(c, yes, no), st) == if IsTrue(v) then Eval(lib, yes, st1) else Eval(lib, no, st1)
  {
  }

  /** print echoes, and yields 1. */
  lemma PrintLaw(lib: Lib, e: Expr, st: Store)
    ensures var (v, st1) := Eval(lib, e, st); Eval(lib, Print(e), st) == (Long(1), Store(st1.vars, st1.events + [Echoed(v)]))
  {
  }

  /** Nothing that has happened is taken back. */
  lemma {:induction false} EventsGrow(lib: Lib, e: Expr, st: Store)
    ensures st.events <= Eval(lib, e, st).1.events
    decreases e
  {
    match e {
      case Lit(_) =>
      case Read(_) =>
      case IncDecVar(_, _) =>
      case Assign(_, e1) => EventsGrow(lib, e1, st);
      case AssignOp(_, _, e1) => EventsGrow(lib, e1, st);
      case Unary(_, e1) => EventsGrow(lib, e1, st);
      case Print(e1) => EventsGrow(lib, e1, st);
      case Binary(_, l, r) =>
        EventsGrow(lib, l, st);
        EventsGrow(lib, r, Eval(lib, l, st).1);
      case Greater(_, l, r) =>
        EventsGrow(lib, l, st);
        EventsGrow(lib, r, Eval(lib, l, st).1);
      case Or(l, r) =>
        EventsGrow(lib, l, st);
        EventsGrow(lib, r, Eval(lib, l, st).1);
      case And(l, r) =>
        EventsGrow(lib, l, st);
        EventsGrow(lib, r, Eval(lib, l, st).1);
      case Ternary(c, yes, no) =>
        EventsGrow(lib, c, st);
        EventsGrow(lib, yes, Eval(lib, c, st).1);
        EventsGrow(lib, no, Eval(lib, c, st).1);
    }
  }

  // Statements

  /** echo evaluates and prints its arguments one after the other. */
  lemma EchoLaw(lib: Lib, e: Expr, es: seq<Expr>, st: Store, fuel: nat)
    ensures Exec(lib, Echo([]), st, fuel) == Normal(st)
    ensures var (v, st1) := Eval(lib, e, st);
      Exec(lib, Echo([e] + es), st, fuel) == Exec(lib, Echo(es), Store(st1.vars, st1.events + [Echoed(v)]), fuel)
  {
    assert ([e] + es)[1..] == es;
  }

  /** A loop is a test and then, if it succeeds, a round of the body and the loop again. */
  lemma WhileLaw(lib: Lib, c: Expr, body: Stmt, st: Store, fuel: nat)
    requires fuel > 0
    ensures var (v, st1) := Eval(lib, c, st);
      Exec(lib, While(c, body), st, fuel) ==
        if !IsTrue(v) then Normal(st1)
        else match Exec(lib, body, st1, fuel)
          case Normal(st2) => Exec(lib, While(c, body), st2, fuel - 1)
          case Continued(n, st2) => if n <= 1 then Exec(lib, While(c, body), st2, fuel - 1) else Continued(n - 1, st2)
          case Broke(n, st2) => if n <= 1 then Normal(st2) else Broke(n - 1, st2)
          case Returned(w, st2) => Returned(w, st2)
          case OutOfFuel => OutOfFuel
  {
  }

  /** do-while runs its body once before the first test. */
  lemma DoWhileLaw(lib: Lib, c: Expr, body: Stmt, st: Store, fuel: nat)
    requires fuel > 0
    ensures Exec(lib, DoWhile(body, c), st, fuel) ==
      match Exec(lib, body, st, fuel)
      case Normal(st1) => (var (v, st2) := Eval(lib, c, st1); if IsTrue(v) then Exec(lib, DoWhile(body, c), st2, fuel - 1) else Normal(st2))
      case Continued(n, st1) =>
        if n > 1 then Continued(n - 1, st1)
        else (var (v, st2) := Eval(lib, c, st1); if IsTrue(v) then Exec(lib, DoWhile(body, c), st2, fuel - 1) else Normal(st2))
      case Broke(n, st1) => if n <= 1 then Normal(st1) else Broke(n - 1, st1)
      case Returned(w, st1) => Returned(w, st1)
      case OutOfFuel => OutOfFuel
  {
  }

  /** Without a condition a for loop goes on; of several conditions the last one counts, of several expressions all are evaluated. */
  lemma ListLaw(lib: Lib, e: Expr, d: Expr, es: seq<Expr>, st: Store)
    ensures EvalList(lib, [], st) == (Bool(true), st)
    ensures EvalList(lib, [e], st) == Eval(lib, e, st)
    ensures EvalList(lib, [e, d] + es, st) == EvalList(lib, [d] + es, Eval(lib, e, st).1)
  {
    assert ([e, d] + es)[1..] == [d] + es;
  }

  /** break 0 and negative levels are break 1; likewise for continue. */
  lemma LevelLaw(lib: Lib, n: int, st: Store, fuel: nat)
    ensures Exec(lib, Break(n), st, fuel) == Broke(if n < 1 then 1 else n, st)
    ensures Exec(lib, Continue(n), st, fuel) == Continued(if n < 1 then 1 else n, st)
  {
  }

  /** The ending of a script that falls off its end, returns, or breaks out of more loops than there are. */
  lemma EndingLaw(lib: Lib, e: Expr, n: int, st: Store, fuel: nat)
    ensures RunScript(lib, [], st, fuel) == Finished(Long(1), st)
    ensures RunScript(lib, [Return([])], st, fuel) == Finished(Null, st)
    ensures RunScript(lib, [Return([e])], st, fuel) == (var (v, st1) := Eval(lib, e, st); Finished(v, st1))
    ensures RunScript(lib, [Break(n)], st, fuel) == FatalError(st) && RunScript(lib, [Continue(n)], st, fuel) == FatalError(st)
  {
    OnlyOne(lib, Return([]), st, fuel);
    OnlyOne(lib, Return([e]), st, fuel);
    OnlyOne(lib, Break(n), st, fuel);
    OnlyOne(lib, Continue(n), st, fuel);
  }

  lemma OnlyOne(lib: Lib, s: Stmt, st: Store, fuel: nat)
    ensures ExecSeq(lib, [s], st, fuel) == Exec(lib, s, st, fuel)
  {
    assert [s][1..] == [];
    assert Exec(lib, s, st, fuel).Normal? ==> ExecSeq(lib, [], Exec(lib, s, st, fuel).st, fuel) == Exec(lib, s, st, fuel);
  }

  /** Statements run in order, until one does not end normally. */
  lemma BlockLaw(lib: Lib, s: Stmt, ss: seq<Stmt>, st: Store, fuel: nat)
    ensures Exec(lib, Block([]), st, fuel) == Normal(st)
    ensures var o := Exec(lib, s, st, fuel);
      Exec(lib, Block([s] + ss), st, fuel) == if o.Normal? then Exec(lib, Block(ss), o.st, fuel) else o
  {
    assert ([s] + ss)[1..] == ss;
  }

  /** An if runs its branch if the condition holds; if not, the first elseif is an if with the rest, and in the end the else. */
  lemma IfLaw(lib: Lib, c: Expr, thn: Stmt, elifs: seq<Branch>, els: Stmt, st: Store, fuel: nat)
    ensures var (v, st1) := Eval(lib, c, st);
      Exec(lib, If(c, thn, elifs, els), st, fuel) ==
        if IsTrue(v) then Exec(lib, thn, st1, fuel)
        else if elifs == [] then Exec(lib, els, st1, fuel)
        else Exec(lib, If(elifs[0].c, elifs[0].body, elifs[1..], els), st1, fuel)
  {
    if elifs != [] {
      var s, t := If(c, thn, elifs, els), If(elifs[0].c, elifs[0].body, elifs[1..], els);
      ElseShift(lib, s, t, 0, Eval(lib, elifs[0].c, Eval(lib, c, st).1).1, fuel);
    }
  }

  lemma {:induction false} ElseShift(lib: Lib, s: Stmt, t: Stmt, i: nat, st: Store, fuel: nat)
    requires s.If? && t.If? && s.elifs != [] && t.elifs == s.elifs[1..] && t.els == s.els && i <= |t.elifs|
    ensures ExecElse(lib, s, i + 1, st, fuel) == ExecElse(lib, t, i, st, fuel)
    decreases |t.elifs| - i
  {
    if i < |t.elifs| {
      ElseShift(lib, s, t, i + 1, Eval(lib, t.elifs[i].c, st).1, fuel);
    }
  }

  /** for: first the initialisation; then, as long as the condition holds, the body and the step. continue leads to the step. */
  lemma ForLaw(lib: Lib, init: seq<Expr>, cond: seq<Expr>, step: seq<Expr>, body: Stmt, st: Store, fuel: nat)
    requires fuel > 0
    ensures var (v, st1) := EvalList(lib, cond, EvalList(lib, init, st).1); var again := For([], cond, step, body);
      Exec(lib, For(init, cond, step, body), st, fuel) ==
        if !IsTrue(v) then Normal(st1)
        else match Exec(lib, body, st1, fuel)
          case Normal(st2) => Exec(lib, again, EvalList(lib, step, st2).1, fuel - 1)
          case Continued(n, st2) => if n <= 1 then Exec(lib, again, EvalList(lib, step, st2).1, fuel - 1) else Continued(n - 1, st2)
          case Broke(n, st2) => if n <= 1 then Normal(st2) else Broke(n - 1, st2)
          case Returned(w, st2) => Returned(w, st2)
          case OutOfFuel => OutOfFuel
  {
    var o := Exec(lib, body, EvalList(lib, cond, EvalList(lib, init, st).1).1, fuel);
    if GoesOn(o) {
      InitOnce(lib, init, cond, step, body, EvalList(lib, step, o.st).1, fuel - 1);
    }
  }

  lemma {:induction false} InitOnce(lib: Lib, init: seq<Expr>, cond: seq<Expr>, step: seq<Expr>, body: Stmt, st: Store, fuel: nat)
    ensures Rounds(lib, For(init, cond, step, body), st, fuel) == Exec(lib, For([], cond, step, body), st, fuel)
    decreases fuel
  {
    hide EvalList;
    assert EvalList(lib, [], st).1 == st by {
      NoneToEval(lib, st);
    }
    if fuel > 0 {
      var o := Exec(lib, body, EvalList(lib, cond, st).1, fuel);
      if GoesOn(o) {
        var st1 := EvalList(lib, step, o.st).1;
        InitOnce(lib, init, cond, step, body, st1, fuel - 1);
        NoneToEval(lib, st1);
      }
    }
  }

  lemma NoneToEval(lib: Lib, st: Store)
    ensures EvalList(lib, [], st).1 == st
  {
  }

  /** From the body entered on, a switch runs the bodies in order, until one does not end normally. */
  lemma FallThroughLaw(lib: Lib, cases: seq<Case>, i: nat, st: Store, fuel: nat)
    requires i < |cases|
    ensures ExecCases(lib, cases, |cases|, st, fuel) == Normal(st)
    ensures var o := Exec(lib, Block(cases[i].body), st, fuel);
      ExecCases(lib, cases, i, st, fuel) == if o.Normal? then ExecCases(lib, cases, i + 1, o.st, fuel) else o
  {
  }

  /** A switch starts with the body it enters, and takes in a break or continue of its own level. */
  lemma EnteredLaw(lib: Lib, c: Expr, cases: seq<Case>, st: Store, fuel: nat)
    ensures var (v, st1) := Eval(lib, c, st); var (k, st2) := Match(lib, v, cases, 0, st1);
      Exec(lib, Switch(c, cases), st, fuel) ==
        match ExecCases(lib, cases, if k < |cases| then k else DefaultOf(cases), st2, fuel)
        case Broke(n, st3) => if n <= 1 then Normal(st3) else Broke(n - 1, st3)
        case Continued(n, st3) => if n <= 1 then Normal(st3) else Continued(n - 1, st3)
        case Normal(st3) => Normal(st3)
        case Returned(w, st3) => Returned(w, st3)
        case OutOfFuel => OutOfFuel
  {
  }

  /** A switch enters the body of the first case that is equal to its subject, else that of the last default, else none. */
  lemma {:induction false} SwitchLaw(lib: Lib, v: Value, cases: seq<Case>, i: nat, st: Store)
    requires i <= |cases|
    ensures var (k, st1) := Match(lib, v, cases, i, st);
      && (forall j :: i <= j < k && cases[j].Case? ==> !IsTrue(lib.binary(IsEqual, v, Eval(lib, cases[j].e, Reached(lib, cases, i, j, st)).0)))
      && (k < |cases| ==> cases[k].Case? && IsTrue(lib.binary(IsEqual, v, Eval(lib, cases[k].e, Reached(lib, cases, i, k, st)).0)))
      && st1 == if k < |cases| then Eval(lib, cases[k].e, Reached(lib, cases, i, k, st)).1 else Reached(lib, cases, i, k, st)
    decreases |cases| - i
  {
    if i < |cases| {
      var next := if cases[i].Case? then Eval(lib, cases[i].e, st).1 else st;
      SwitchLaw(lib, v, cases, i + 1, next);
      forall j | i < j <= |cases|
        ensures Reached(lib, cases, i, j, st) == Reached(lib, cases, i + 1, j, next)
      {
        ReachedNext(lib, cases, i, j, st);
      }
    }
  }

  /** The store after the expressions of the cases from i up to j have been evaluated. */
  function Reached(lib: Lib, cases: seq<Case>, i: nat, j: nat, st: Store): Store
    requires i <= j <= |cases|
    decreases j - i
  {
    if i == j then st
    else
      var before := Reached(lib, cases, i, j - 1, st);
      if cases[j - 1].Case? then Eval(lib, cases[j - 1].e, before).1 else before
  }

  lemma {:induction false} ReachedNext(lib: Lib, cases: seq<Case>, i: nat, j: nat, st: Store)
    requires i < j <= |cases|
    ensures Reached(lib, cases, i, j, st) ==
      Reached(lib, cases, i + 1, j, if cases[i].Case? then Eval(lib, cases[i].e, st).1 else st)
    decreases j - i
  {
    if i + 1 < j {
      ReachedNext(lib, cases, i, j - 1, st);
    }
  }
}
