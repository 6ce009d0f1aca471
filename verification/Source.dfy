/** The structured source language and its meaning, independent of any opcode. */
module Source {
  import opened Values

  datatype Expr =
    | Lit(v: Value)
    | Read(x: string)
    | Assign(x: string, e: Expr)
    | AssignOp(op: BinOp, x: string, e: Expr)
    | IncDecVar(kind: IncDec, x: string)
    | Binary(op: BinOp, l: Expr, r: Expr)
    | Greater(op: BinOp, l: Expr, r: Expr)  // l > r and l >= r: operands swapped, evaluation order kept
    | Unary(uop: UnOp, e: Expr)
    | Or(l: Expr, r: Expr)
    | And(l: Expr, r: Expr)
    | Ternary(c: Expr, yes: Expr, no: Expr)
    | Print(e: Expr)

  datatype Stmt =
    | Block(ss: seq<Stmt>)
    | ExprStmt(e: Expr)
    | Echo(es: seq<Expr>)
    | If(c: Expr, thn: Stmt, elifs: seq<Branch>, els: Stmt)  // no else clause: els == Block([])
    | While(c: Expr, body: Stmt)
    | DoWhile(body: Stmt, c: Expr)
    | For(init: seq<Expr>, cond: seq<Expr>, step: seq<Expr>, body: Stmt)
    | Switch(c: Expr, cases: seq<Case>)
    | Break(levels: int)
    | Continue(levels: int)
    | Return(result: seq<Expr>)              // return; or return e;

  datatype Branch = Branch(c: Expr, body: Stmt)

  datatype Case = Case(e: Expr, body: seq<Stmt>) | Default(body: seq<Stmt>)

  /** How a statement ends. */
  datatype Outcome =
    | Normal(st: Store)
    | Broke(levels: nat, st: Store)
    | Continued(levels: nat, st: Store)
    | Returned(v: Value, st: Store)
    | OutOfFuel

  /** Expressions always terminate, yielding a value and the store after their side effects. */
  function Eval(lib: Lib, e: Expr, st: Store): (Value, Store) {
    match e
    case Lit(v) => (v, st)
    case Read(x) => (st.Get(x), st.FetchedR(x))
    case Assign(x, e1) =>
      var (v, st1) := Eval(lib, e1, st);
      (v, st1.Set(x, v))
    case AssignOp(op, x, e1) =>
      var (v, st1) := Eval(lib, e1, st);
      var w := lib.binary(op, st1.Get(x), v);
      (w, st1.FetchedR(x).Set(x, w))
    case IncDecVar(kind, x) =>
      var old_ := st.Get(x);
      var new_ := lib.incDec(kind, old_);
      (if kind.Post() then old_ else new_, st.FetchedR(x).Set(x, new_))
    case Binary(op, l, r) =>
      var (v, st1) := Eval(lib, l, st);
      var (w, st2) := Eval(lib, r, st1);
      (lib.binary(op, v, w), st2)
    case Greater(op, l, r) =>
      var (v, st1) := Eval(lib, l, st);
      var (w, st2) := Eval(lib, r, st1);
      (lib.binary(op, w, v), st2)
    case Unary(op, e1) =>
      var (v, st1) := Eval(lib, e1, st);
      (lib.unary(op, v), st1)
    case Or(l, r) =>
      var (v, st1) := Eval(lib, l, st);
      if IsTrue(v) then (Bool(true), st1)
      else
        var (w, st2) := Eval(lib, r, st1);
        (Bool(IsTrue(w)), st2)
    case And(l, r) =>
      var (v, st1) := Eval(lib, l, st);
      if !IsTrue(v) then (Bool(false), st1)
      else
        var (w, st2) := Eval(lib, r, st1);
        (Bool(IsTrue(w)), st2)
    case Ternary(c, yes, no) =>
      var (v, st1) := Eval(lib, c, st);
      Eval(lib, if IsTrue(v) then yes else no, st1)
    case Print(e1) =>
      var (v, st1) := Eval(lib, e1, st);
      (Long(1), st1.Emit(Echoed(v)))
  }

  function EchoAll(lib: Lib, es: seq<Expr>, st: Store): Store {
    if es == [] then st
    else
      var (v, st1) := Eval(lib, es[0], st);
      EchoAll(lib, es[1..], st1.Emit(Echoed(v)))
  }

  /** A comma list evaluates every element; its value is that of the last, true when the list is empty. */
  function EvalList(lib: Lib, es: seq<Expr>, st: Store): (Value, Store) {
    if es == [] then (Bool(true), st)
    else if |es| == 1 then Eval(lib, es[0], st)
    else EvalList(lib, es[1..], Eval(lib, es[0], st).1)
  }

  /** The number of levels a constant `break n` or `continue n` means: anything below 1 counts as 1. */
  function Levels(n: int): nat { if n <= 1 then 1 else n }

  /** What a loop or switch does with the outcome of its body, when the body does not end it normally. */
  function Unwind(o: Outcome): Outcome {
    match o
    case Broke(k, st) => if k <= 1 then Normal(st) else Broke(k - 1, st)
    case Continued(k, st) => if k <= 1 then Normal(st) else Continued(k - 1, st)
    case _ => o
  }

  /** True when the outcome lets the enclosing loop start its next round. */
  predicate GoesOn(o: Outcome) { o.Normal? || (o.Continued? && o.levels <= 1) }

  /** The cases of a switch are tried in source order; case expressions after the match are not evaluated. */
  function Match(lib: Lib, v: Value, cases: seq<Case>, i: nat, st: Store): (r: (nat, Store))
    requires i <= |cases|
    ensures i <= r.0 <= |cases|
    decreases |cases| - i
  {
    if i == |cases| then (i, st)
    else match cases[i]
      case Default(_) => Match(lib, v, cases, i + 1, st)
      case Case(e, _) =>
        var (w, st1) := Eval(lib, e, st);
        if IsTrue(lib.binary(IsEqual, v, w)) then (i, st1) else Match(lib, v, cases, i + 1, st1)
  }

  /** The last default label, or the number of cases when there is none. */
  function DefaultOf(cases: seq<Case>): (d: nat)
    ensures d <= |cases|
    ensures d < |cases| ==> cases[d].Default?
    ensures forall j :: d < j < |cases| ==> cases[j].Case?
    ensures d == |cases| ==> forall j :: 0 <= j < |cases| ==> cases[j].Case?
  {
    if cases == [] then 0
    else
      var n := |cases| - 1;
      if cases[n].Default? then n
      else
        var d := DefaultOf(cases[..n]);
        if d == n then n + 1 else d
  }

  /** The body a switch enters: that of the first matching case, else that of the last default. */
  function Entry(lib: Lib, v: Value, cases: seq<Case>, st: Store): (r: (nat, Store))
    ensures r.0 <= |cases|
  {
    var (i, st1) := Match(lib, v, cases, 0, st);
    if i < |cases| then (i, st1) else (DefaultOf(cases), st1)
  }

  /** Runs a statement. Fuel bounds the rounds of every loop; it decreases with each round. */
  function Exec(lib: Lib, s: Stmt, st: Store, fuel: nat): Outcome
    decreases fuel, s, 1
  {
    match s
    case Block(ss) => ExecSeq(lib, ss, st, fuel)
    case ExprStmt(e) => Normal(Eval(lib, e, st).1)
    case Echo(es) => Normal(EchoAll(lib, es, st))
    case If(c, thn, elifs, els) =>
      var (v, st1) := Eval(lib, c, st);
      if IsTrue(v) then Exec(lib, thn, st1, fuel) else ExecElse(lib, s, 0, st1, fuel)
    case While(_, _) => Rounds(lib, s, st, fuel)
    case DoWhile(_, _) => Rounds(lib, s, st, fuel)
    case For(init, _, _, _) => Rounds(lib, s, EvalList(lib, init, st).1, fuel)
    case Switch(c, cases) =>
      var (v, st1) := Eval(lib, c, st);
      var (i, st2) := Entry(lib, v, cases, st1);
      Unwind(ExecCases(lib, cases, i, st2, fuel))
    case Break(n) => Broke(Levels(n), st)
    case Continue(n) => Continued(Levels(n), st)
    case Return(es) => if es == [] then Returned(Null, st) else
        var (v, st1) := Eval(lib, es[0], st);
        Returned(v, st1)
  }

  function ExecSeq(lib: Lib, ss: seq<Stmt>, st: Store, fuel: nat): Outcome
    decreases fuel, ss, 0
  {
    if ss == [] then Normal(st)
    else
      var o := Exec(lib, ss[0], st, fuel);
      if o.Normal? then ExecSeq(lib, ss[1..], o.st, fuel) else o
  }

  /** The elseif branches of an if statement from the i-th on, then its else branch. */
  function ExecElse(lib: Lib, s: Stmt, i: nat, st: Store, fuel: nat): Outcome
    requires s.If? && i <= |s.elifs|
    decreases fuel, s, 0, |s.elifs| - i
  {
    if i == |s.elifs| then Exec(lib, s.els, st, fuel)
    else
      var (v, st1) := Eval(lib, s.elifs[i].c, st);
      if IsTrue(v) then Exec(lib, s.elifs[i].body, st1, fuel) else ExecElse(lib, s, i + 1, st1, fuel)
  }

  /** Bodies from the i-th case on, falling through from one to the next. */
  function ExecCases(lib: Lib, cases: seq<Case>, i: nat, st: Store, fuel: nat): Outcome
    requires i <= |cases|
    decreases fuel, cases, 0, |cases| - i
  {
    if i == |cases| then Normal(st)
    else
      var o := ExecSeq(lib, cases[i].body, st, fuel);
      if o.Normal? then ExecCases(lib, cases, i + 1, o.st, fuel) else o
  }

  /** The rounds of a loop, from the point to which its back jump leads. */
  function Rounds(lib: Lib, s: Stmt, st: Store, fuel: nat): Outcome
    requires s.While? || s.DoWhile? || s.For?
    decreases fuel, s, 0
  {
    if fuel == 0 then OutOfFuel
    else match s
      case While(c, body) =>
        var (v, st1) := Eval(lib, c, st);
        if !IsTrue(v) then Normal(st1)
        else
          var o := Exec(lib, body, st1, fuel);
          if GoesOn(o) then Rounds(lib, s, o.st, fuel - 1) else Unwind(o)
      case DoWhile(body, c) =>
        var o := Exec(lib, body, st, fuel);
        if GoesOn(o) then
          var (v, st1) := Eval(lib, c, o.st);
          if IsTrue(v) then Rounds(lib, s, st1, fuel - 1) else Normal(st1)
        else Unwind(o)
      case For(_, cond, step, body) =>
        var (v, st1) := EvalList(lib, cond, st);
        if !IsTrue(v) then Normal(st1)
        else
          var o := Exec(lib, body, st1, fuel);
          if GoesOn(o) then Rounds(lib, s, EvalList(lib, step, o.st).1, fuel - 1) else Unwind(o)
  }

  /** What running a whole script amounts to. */
  datatype Ending = Finished(v: Value, st: Store) | FatalError(st: Store) | NoAnswer

  /** A script that runs to its end yields 1; a break or continue that no loop takes is a fatal error. */
  function RunScript(lib: Lib, ss: seq<Stmt>, st: Store, fuel: nat): Ending {
    match ExecSeq(lib, ss, st, fuel)
    case Normal(st1) => Finished(Long(1), st1)
    case Returned(v, st1) => Finished(v, st1)
    case Broke(_, st1) => FatalError(st1)
    case Continued(_, st1) => FatalError(st1)
    case OutOfFuel => NoAnswer
  }
}
