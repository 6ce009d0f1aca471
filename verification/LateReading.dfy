/**
 What the opcodes make of a script. An operator reads its operands when it is carried out, and a temporary that holds
 the zval of a reference shows what has been written to that reference since it was fetched. Here is the meaning with
 operands read that late, and when exactly it is the meaning with operands read as soon as they are evaluated.
 */
module LateReading {
  import opened Common
  import opened Values
  import opened RefSets
  import opened CowMoves
  import opened Pendings
  import opened ReferenceMeaning
  import Source

  /** The variables, and which of them have a zval with the reference flag. */
  datatype State = State(vars: Vars, flags: set<string>) {

    function Touched(x: string): (s: State)
      ensures BindReady(s.vars, x, x)
      ensures forall y :: BindReady(vars, y, y) ==> BindReady(s.vars, y, y)
    {
      this.(vars := Entered(vars, x))
    }

    /** What a temporary that fetches x has to expect. */
    function Read(x: string): Pending {
      if x in vars.value then Pending(vars.value[x], if x in flags && x in vars.refs then vars.refs[x] else {}) else Pending(Null, {})
    }

    function After(c: Change): State
      requires CanChange(c)
    {
      State(match c
            case Nothing => vars
            case Write(x, v) => vars.Assigned(x, v)
            case Join(x, y) => vars.Bound(x, y)
            case Leave(x) => vars.Detached(x),
            FlagsAfter(flags, c))
    }

    predicate CanChange(c: Change) {
      match c
      case Nothing => true
      case Write(x, _) => x in vars.refs
      case Join(x, y) => BindReady(vars, x, y)
      case Leave(x) => x in vars.refs
    }
  }

  /** The flags are on variables, and a set of more than one variable is made of flagged ones. */
  ghost predicate WellFormed(s: State) {
    s.vars.Coherent() && s.flags <= s.vars.value.Keys && forall x :: x in s.vars.refs && x !in s.flags ==> s.vars.refs[x] == {x}
  }

  /** The value of an expression, what it still watches, and the state after it; with operands read late or at once. */
  function Outcome(lib: Lib, late: bool, e: Expr, s: State): (Pending, State)
    decreases e
  {
    match e
    case Lit(v) => (Pending(v, {}), s)
    case Read(x) => (s.Read(x), s)
    case Binary(op, l, r) =>
      var (a, s1) := Outcome(lib, late, l, s);
      var (b, s2) := Outcome(lib, late, r, s1);
      (Pending(lib.binary(op, if late then Tracked(lib, late, r, s1, a).v else a.v, b.v), {}), s2)
    case Assign(x, r) =>
      var (a, s1) := Outcome(lib, late, r, s);
      var s2 := s1.Touched(x).After(Write(x, a.v));
      (s2.Read(x), s2)
    case Bind(x, y) =>
      var s1 := s.Touched(y).Touched(x).After(BindChange(x, y));
      (s1.Read(x), s1)
    case AssignOp(op, x, r) =>
      var (a, s1) := Outcome(lib, late, r, s);
      var s2 := s1.Touched(x);
      var s3 := s2.After(Write(x, lib.binary(op, s2.vars.Get(x), a.v)));
      (s3.Read(x), s3)
    case IncDecVar(kind, x) =>
      var s1 := s.Touched(x);
      var s2 := s1.After(Write(x, lib.incDec(kind, s1.vars.Get(x))));
      (if kind.Post() then Pending(s1.vars.Get(x), {}) else s2.Read(x), s2)
  }

  /** What becomes of an operand p, read before e, while e is evaluated. */
  function Tracked(lib: Lib, late: bool, e: Expr, s: State, p: Pending): Pending
    decreases e
  {
    match e
    case Lit(_) => p
    case Read(_) => p
    case Binary(_, l, r) => Tracked(lib, late, r, Outcome(lib, late, l, s).1, Tracked(lib, late, l, s, p))
    case Assign(x, r) => Tracked(lib, late, r, s, p).After(Effect(lib, late, e, s))
    case Bind(x, y) => p.After(Effect(lib, late, e, s))
    case AssignOp(_, _, r) => Tracked(lib, late, r, s, p).After(Effect(lib, late, e, s))
    case IncDecVar(_, _) => p.After(Effect(lib, late, e, s))
  }

  /** The change that the last opcode of e makes. */
  function Effect(lib: Lib, late: bool, e: Expr, s: State): Change
    decreases e, 0
  {
    match e
    case Lit(_) => Nothing
    case Read(_) => Nothing
    case Binary(_, _, _) => Nothing
    case Assign(x, r) => Write(x, Outcome(lib, late, r, s).0.v)
    case Bind(x, y) => BindChange(x, y)
    case AssignOp(op, x, r) =>
      var (a, s1) := Outcome(lib, late, r, s);
      Write(x, lib.binary(op, s1.Touched(x).vars.Get(x), a.v))
    case IncDecVar(kind, x) => Write(x, lib.incDec(kind, s.Touched(x).vars.Get(x)))
  }

  // When the two meanings agree

  /** An operator and the operands it is applied to. */
  datatype Application = Applied(op: BinOp, x: Value, y: Value)

  /** The operators of an expression with their operands, in the order in which they are carried out. */
  function Applications(lib: Lib, late: bool, e: Expr, s: State): seq<Application>
    decreases e
  {
    match e
    case Lit(_) => []
    case Read(_) => []
    case Binary(op, l, r) =>
      var (a, s1) := Outcome(lib, late, l, s);
      var x := if late then Tracked(lib, late, r, s1, a).v else a.v;
      Applications(lib, late, l, s) + Applications(lib, late, r, s1) + [Applied(op, x, Outcome(lib, late, r, s1).0.v)]
    case Assign(_, r) => Applications(lib, late, r, s)
    case Bind(_, _) => []
    case AssignOp(op, x, r) =>
      var (a, s1) := Outcome(lib, late, r, s);
      Applications(lib, late, r, s) + [Applied(op, s1.Touched(x).vars.Get(x), a.v)]
    case IncDecVar(_, _) => []
  }

  /** What e writes last to a variable that the operand p watches then, if anything. */
  function LastWrite(lib: Lib, e: Expr, s: State, p: Pending): Option<Value>
    decreases e
  {
    match e
    case Lit(_) => None
    case Read(_) => None
    case Binary(_, l, r) =>
      var w := LastWrite(lib, r, Outcome(lib, false, l, s).1, Tracked(lib, false, l, s, p));
      if w.Some? then w else LastWrite(lib, l, s, p)
    case Assign(x, r) =>
      var c := Effect(lib, false, e, s);
      if x in Tracked(lib, false, r, s, p).watched then Some(c.v) else LastWrite(lib, r, s, p)
    case Bind(_, _) => None
    case AssignOp(_, x, r) =>
      var c := Effect(lib, false, e, s);
      if x in Tracked(lib, false, r, s, p).watched then Some(c.v) else LastWrite(lib, r, s, p)
    case IncDecVar(_, x) => if x in p.watched then Some(Effect(lib, false, e, s).v) else None
  }

  /**
   No operator whose left operand is the zval of a reference has a right operand that leaves another value in that
   reference. This is about values read at once, and the flags and sets before the operator.
   */
  predicate Steady(lib: Lib, e: Expr, s: State)
    decreases e
  {
    match e
    case Lit(_) => true
    case Read(_) => true
    case Binary(_, l, r) =>
      var (a, s1) := Outcome(lib, false, l, s);
      var w := LastWrite(lib, r, s1, a);
      Steady(lib, l, s) && Steady(lib, r, s1) && (w.Some? ==> w.value == a.v)
    case Assign(_, r) => Steady(lib, r, s)
    case Bind(_, _) => true
    case AssignOp(_, _, r) => Steady(lib, r, s)
    case IncDecVar(_, _) => true
  }

  lemma {:induction false} TrackedIs(lib: Lib, e: Expr, s: State, p: Pending)
    ensures var w := LastWrite(lib, e, s, p); Tracked(lib, false, e, s, p).v == if w.Some? then w.value else p.v
    decreases e
  {
    hide Outcome, State.Touched;
    match e {
      case Lit(_) =>
      case Read(_) =>
      case Binary(_, l, r) =>
        TrackedIs(lib, l, s, p);
        TrackedIs(lib, r, Outcome(lib, false, l, s).1, Tracked(lib, false, l, s, p));
      case Assign(_, r) => TrackedIs(lib, r, s, p);
      case Bind(_, _) =>
      case AssignOp(_, _, r) => TrackedIs(lib, r, s, p);
      case IncDecVar(_, _) =>
    }
  }

  /** The number of operators is that of the text. */
  function Operators(e: Expr): nat {
    match e
    case Lit(_) => 0
    case Read(_) => 0
    case Binary(_, l, r) => Operators(l) + Operators(r) + 1
    case Assign(_, r) => Operators(r)
    case Bind(_, _) => 0
    case AssignOp(_, _, r) => Operators(r) + 1
    case IncDecVar(_, _) => 0
  }

  lemma {:induction false} ApplicationsMany(lib: Lib, late: bool, e: Expr, s: State)
    ensures |Applications(lib, late, e, s)| == Operators(e)
    decreases e
  {
    hide Outcome, Tracked, State.Touched;
    match e {
      case Lit(_) =>
      case Read(_) =>
      case Binary(_, l, r) =>
        ApplicationsMany(lib, late, l, s);
        ApplicationsMany(lib, late, r, Outcome(lib, late, l, s).1);
      case Assign(_, r) => ApplicationsMany(lib, late, r, s);
      case Bind(_, _) =>
      case AssignOp(_, _, r) => ApplicationsMany(lib, late, r, s);
      case IncDecVar(_, _) =>
    }
  }

  /** In a steady expression nothing at all depends on when operands are read. */
  lemma {:induction false} SteadyAgrees(lib: Lib, e: Expr, s: State)
    requires Steady(lib, e, s)
    ensures Outcome(lib, true, e, s) == Outcome(lib, false, e, s)
    ensures Applications(lib, true, e, s) == Applications(lib, false, e, s)
    ensures forall p :: Tracked(lib, true, e, s, p) == Tracked(lib, false, e, s, p)
    decreases e
  {
    hide State.Touched, State.After, Pending.After, State.Read, LastWrite;
    match e {
      case Lit(_) =>
      case Read(_) =>
      case Binary(_, l, r) =>
        var (a, s1) := Outcome(lib, false, l, s);
        SteadyAgrees(lib, l, s);
        SteadyAgrees(lib, r, s1);
        TrackedIs(lib, r, s1, a);
      case Assign(_, r) => SteadyAgrees(lib, r, s);
      case Bind(_, _) =>
      case AssignOp(_, _, r) => SteadyAgrees(lib, r, s);
      case IncDecVar(_, _) =>
    }
  }

  /** In any other some operator is applied to another operand. */
  lemma {:induction false} UnsteadyDiffers(lib: Lib, e: Expr, s: State)
    requires !Steady(lib, e, s)
    ensures Applications(lib, true, e, s) != Applications(lib, false, e, s)
    decreases e
  {
    hide State.Touched, State.After, Pending.After, State.Read, LastWrite;
    match e {
      case Binary(op, l, r) =>
        ApplicationsMany(lib, true, l, s);
        ApplicationsMany(lib, false, l, s);
        if !Steady(lib, l, s) {
          UnsteadyDiffers(lib, l, s);
          BinaryParts(lib, true, e, s);
          BinaryParts(lib, false, e, s);
        } else {
          SteadyAgrees(lib, l, s);
          UnsteadyRight(lib, e, s);
        }
      case Assign(_, r) => UnsteadyDiffers(lib, r, s);
      case AssignOp(_, _, r) =>
        UnsteadyDiffers(lib, r, s);
        ApplicationsMany(lib, true, r, s);
        ApplicationsMany(lib, false, r, s);
        AssignOpParts(lib, true, e, s);
        AssignOpParts(lib, false, e, s);
    }
  }

  lemma BinaryParts(lib: Lib, late: bool, e: Expr, s: State)
    requires e.Binary?
    ensures var s1 := Outcome(lib, late, e.l, s).1; var es := Applications(lib, late, e, s);
      |es| == Operators(e) && es[..Operators(e.l)] == Applications(lib, late, e.l, s) &&
      es[Operators(e.l)..Operators(e) - 1] == Applications(lib, late, e.r, s1)
  {
    hide Outcome, Tracked;
    ApplicationsMany(lib, late, e.l, s);
    ApplicationsMany(lib, late, e.r, Outcome(lib, late, e.l, s).1);
  }

  lemma AssignOpParts(lib: Lib, late: bool, e: Expr, s: State)
    requires e.AssignOp?
    ensures |Applications(lib, late, e, s)| == Operators(e) && Applications(lib, late, e, s)[..Operators(e.e)] == Applications(lib, late, e.e, s)
  {
    hide Outcome, Tracked, State.Touched;
    ApplicationsMany(lib, late, e.e, s);
  }

  lemma UnsteadyRight(lib: Lib, e: Expr, s: State)
    requires e.Binary? && !Steady(lib, e, s) && Steady(lib, e.l, s)
    ensures Applications(lib, true, e, s) != Applications(lib, false, e, s)
    decreases e, 0
  {
    hide State.Touched, State.After, Pending.After, State.Read, LastWrite;
    var (a, s1) := Outcome(lib, false, e.l, s);
    SteadyAgrees(lib, e.l, s);
    BinaryParts(lib, true, e, s);
    BinaryParts(lib, false, e, s);
    if !Steady(lib, e.r, s1) {
      UnsteadyDiffers(lib, e.r, s1);
    } else {
      SteadyAgrees(lib, e.r, s1);
      TrackedIs(lib, e.r, s1, a);
      var n := Operators(e) - 1;
      assert Applications(lib, true, e, s)[n].x == Tracked(lib, true, e.r, s1, a).v;
      assert Applications(lib, false, e, s)[n].x == a.v;
    }
  }

  /**
   Every operator is applied to the operands that reading at once would give it, if and only if no right operand
   leaves another value in a reference that the left operand is to be read from; and then everything else is the same.
   */
  lemma AgreesExactly(lib: Lib, e: Expr, s: State)
    ensures Applications(lib, true, e, s) == Applications(lib, false, e, s) <==> Steady(lib, e, s)
    ensures Steady(lib, e, s) ==> Outcome(lib, true, e, s) == Outcome(lib, false, e, s)
  {
    if Steady(lib, e, s) {
      SteadyAgrees(lib, e, s);
    } else {
      UnsteadyDiffers(lib, e, s);
    }
  }

  /** Operands read at once give the eager meaning. */
  lemma {:induction false} AtOnceIsMeaning(lib: Lib, e: Expr, s: State)
    requires s.vars.Coherent()
    ensures Outcome(lib, false, e, s).1.vars == Meaning(lib, e, s.vars).1
    ensures Outcome(lib, false, e, s).0.v == Meaning(lib, e, s.vars).0
    decreases e
  {
    hide Vars.Coherent, Vars.Touched, Vars.Assigned, Vars.Bound, Vars.Detached, Effect, Tracked;
    match e {
      case Lit(_) =>
      case Read(_) =>
      case Binary(_, l, r) =>
        AtOnceIsMeaning(lib, l, s);
        MeaningCoherent(lib, l, s.vars);
        AtOnceIsMeaning(lib, r, Outcome(lib, false, l, s).1);
      case Assign(x, r) =>
        AtOnceIsMeaning(lib, r, s);
        MeaningCoherent(lib, r, s.vars);
        WrittenIsRead(Outcome(lib, false, r, s).1, x, Outcome(lib, false, r, s).0.v);
      case Bind(x, y) => BoundIsRead(s, x, y);
      case AssignOp(op, x, r) =>
        AtOnceIsMeaning(lib, r, s);
        MeaningCoherent(lib, r, s.vars);
        var (a, s1) := Outcome(lib, false, r, s);
        WrittenIsRead(s1, x, lib.binary(op, s1.Touched(x).vars.Get(x), a.v));
      case IncDecVar(kind, x) => WrittenIsRead(s, x, lib.incDec(kind, s.Touched(x).vars.Get(x)));
    }
  }

  lemma WrittenIsRead(s: State, x: string, v: Value)
    requires s.vars.Coherent()
    ensures var t := s.Touched(x).After(Write(x, v)); t.vars == Entered(s.vars, x).Assigned(x, v) && t.Read(x).v == v
  {
    TouchedCoherent(s.vars, x);
  }

  lemma BoundIsRead(s: State, x: string, y: string)
    ensures var t := s.Touched(y).Touched(x).After(BindChange(x, y)); var u := Entered(Entered(s.vars, y), x);
      t.vars == (if x == y then u.Detached(x) else u.Bound(x, y)) && t.Read(x).v == t.vars.Get(x)
  {
  }

  // Conditions that can be told from the text, or from the flags

  /** An operand that watches nothing is settled for good. */
  lemma {:induction false} Unwatched(lib: Lib, late: bool, e: Expr, s: State, p: Pending)
    requires p.watched == {}
    ensures Tracked(lib, late, e, s, p) == p && (!late ==> LastWrite(lib, e, s, p).None?)
    decreases e
  {
    hide Outcome, State.Touched;
    match e {
      case Lit(_) =>
      case Read(_) =>
      case Binary(_, l, r) =>
        Unwatched(lib, late, l, s, p);
        Unwatched(lib, late, r, Outcome(lib, late, l, s).1, p);
      case Assign(_, r) => Unwatched(lib, late, r, s, p);
      case Bind(_, _) =>
      case AssignOp(_, _, r) => Unwatched(lib, late, r, s, p);
      case IncDecVar(_, _) =>
    }
  }

  /** Evaluating the expression changes no variable. */
  predicate Quiet(e: Expr) {
    match e
    case Lit(_) => true
    case Read(_) => true
    case Binary(_, l, r) => Quiet(l) && Quiet(r)
    case _ => false
  }

  /** The result is a value, not a variable's zval. */
  predicate Settled(e: Expr) { e.Lit? || e.Binary? || (e.IncDecVar? && e.kind.Post()) }

  /** No operand is still to be read from a variable's zval when the operand after it writes to variables. */
  predicate Ordered(e: Expr) {
    match e
    case Binary(_, l, r) => Ordered(l) && Ordered(r) && (Settled(l) || Quiet(r))
    case Assign(_, r) => Ordered(r)
    case AssignOp(_, _, r) => Ordered(r)
    case _ => true
  }

  lemma {:induction false} QuietWritesNothing(lib: Lib, e: Expr, s: State, p: Pending)
    requires Quiet(e)
    ensures LastWrite(lib, e, s, p).None?
    decreases e
  {
    hide Outcome, State.Touched, Tracked;
    if e.Binary? {
      QuietWritesNothing(lib, e.l, s, p);
      QuietWritesNothing(lib, e.r, Outcome(lib, false, e.l, s).1, Tracked(lib, false, e.l, s, p));
    }
  }

  /** Such an order of operands makes an expression steady whatever the flags. */
  lemma {:induction false} OrderedIsSteady(lib: Lib, e: Expr, s: State)
    requires Ordered(e)
    ensures Steady(lib, e, s)
    decreases e
  {
    hide State.Touched, Tracked, LastWrite;
    match e {
      case Lit(_) =>
      case Read(_) =>
      case Binary(_, l, r) =>
        var (a, s1) := Outcome(lib, false, l, s);
        OrderedIsSteady(lib, l, s);
        OrderedIsSteady(lib, r, s1);
        if Settled(l) {
          Unwatched(lib, false, r, s1, a);
        } else {
          QuietWritesNothing(lib, r, s1, a);
        }
      case Assign(_, r) => OrderedIsSteady(lib, r, s);
      case Bind(_, _) =>
      case AssignOp(_, _, r) => OrderedIsSteady(lib, r, s);
      case IncDecVar(_, _) =>
    }
  }

  /** So does the absence of references. */
  lemma {:induction false} UnflaggedIsSteady(lib: Lib, e: Expr, s: State)
    requires BindFree(e) && s.flags == {}
    ensures Steady(lib, e, s)
    ensures Outcome(lib, false, e, s).1.flags == {} && Outcome(lib, false, e, s).0.watched == {}
    decreases e
  {
    hide Vars.Touched, Vars.Assigned, Tracked, LastWrite;
    match e {
      case Lit(_) =>
      case Read(_) =>
      case Binary(_, l, r) =>
        var (a, s1) := Outcome(lib, false, l, s);
        UnflaggedIsSteady(lib, l, s);
        UnflaggedIsSteady(lib, r, s1);
        Unwatched(lib, false, r, s1, a);
      case Assign(_, r) => UnflaggedIsSteady(lib, r, s);
      case AssignOp(_, _, r) => UnflaggedIsSteady(lib, r, s);
      case IncDecVar(_, _) =>
    }
  }

  /** Without references, what the opcodes make of an expression is what the compiler's source language makes of it. */
  lemma PlainOutcome(lib: Lib, e: Expr, s: State, st: Store)
    requires BindFree(e) && s.flags == {} && WellFormed(s) && s.vars.value == st.vars
    ensures Outcome(lib, true, e, s).0.v == Source.Eval(lib, Plain(e), st).0
    ensures Outcome(lib, true, e, s).1.vars.value == Source.Eval(lib, Plain(e), st).1.vars
    ensures Outcome(lib, true, e, s).1.flags == {} && WellFormed(Outcome(lib, true, e, s).1)
  {
    hide Outcome, Steady, Source.Eval, Meaning;
    UnflaggedIsSteady(lib, e, s);
    SteadyAgrees(lib, e, s);
    AtOnceIsMeaning(lib, e, s);
    PlainStore(lib, e, s.vars, st);
  }

  /** The variable whose zval an expression yields, if it yields one. */
  function Root(e: Expr): Option<string> {
    match e
    case Lit(_) => None
    case Read(x) => Some(x)
    case Binary(_, _, _) => None
    case Assign(x, _) => Some(x)
    case Bind(x, _) => Some(x)
    case AssignOp(_, x, _) => Some(x)
    case IncDecVar(kind, x) => if kind.Post() then None else Some(x)
  }

  lemma RootIsRead(lib: Lib, late: bool, e: Expr, s: State)
    ensures var (p, s1) := Outcome(lib, late, e, s); if Root(e).Some? then p == s1.Read(Root(e).value) else p.watched == {}
  {
    hide State.Touched, State.Read, State.After;
  }

  /**
   One operator, given its operands are steady themselves: it gets the operands of the eager meaning unless the left one
   is the zval of a variable x that has the reference flag, and what the right one last writes to the set of x, if it
   writes to it, is another value than x has before.
   */
  lemma OperatorExactly(lib: Lib, op: BinOp, l: Expr, r: Expr, s: State)
    requires Steady(lib, l, s) && Steady(lib, r, Outcome(lib, false, l, s).1)
    ensures var e := Binary(op, l, r); var s1 := Outcome(lib, false, l, s).1; var x := Root(l);
      Applications(lib, true, e, s) == Applications(lib, false, e, s) <==>
        !(x.Some? && x.value in s1.vars.value && x.value in s1.flags
          && var w := LastWrite(lib, r, s1, s1.Read(x.value)); w.Some? && w.value != s1.vars.value[x.value])
  {
    hide Outcome, LastWrite, Applications;
    var (a, s1) := Outcome(lib, false, l, s);
    AgreesExactly(lib, Binary(op, l, r), s);
    RootIsRead(lib, false, l, s);
    if a.watched == {} {
      Unwatched(lib, false, r, s1, a);
    }
  }

  /** The simplest case: $x op ($y = v) is steady unless x and y are one reference and v is a new value. */
  lemma SimpleOperator(lib: Lib, op: BinOp, x: string, y: string, v: Value, s: State)
    ensures Steady(lib, Binary(op, ReferenceMeaning.Read(x), Assign(y, Lit(v))), s)
      <==> !(x in s.vars.value && x in s.vars.refs && x in s.flags && y in s.vars.refs[x] && v != s.vars.value[x])
  {
    var l, r := ReferenceMeaning.Read(x), Assign(y, Lit(v));
    var p := s.Read(x);
    assert Outcome(lib, false, l, s) == (p, s);
    assert Outcome(lib, false, Lit(v), s) == (Pending(v, {}), s) && Tracked(lib, false, Lit(v), s, p) == p;
    assert LastWrite(lib, r, s, p) == if y in p.watched then Some(v) else None;
    assert Steady(lib, l, s) && Steady(lib, r, s);
  }

  // Scripts

  function StmtOutcome(lib: Lib, late: bool, c: Stmt, s: State): State {
    match c
    case Do(e) => Outcome(lib, late, e, s).1
    case Unset(x) => State(s.vars.Unset(x), UnsetFlags(s.vars, s.flags, x))
  }

  function ScriptOutcome(lib: Lib, late: bool, cs: seq<Stmt>, s: State): State
    decreases |cs|
  {
    if cs == [] then s else StmtOutcome(lib, late, cs[|cs| - 1], ScriptOutcome(lib, late, cs[..|cs| - 1], s))
  }

  function StmtApplications(lib: Lib, late: bool, c: Stmt, s: State): seq<Application> {
    if c.Do? then Applications(lib, late, c.e, s) else []
  }

  function ScriptApplications(lib: Lib, late: bool, cs: seq<Stmt>, s: State): seq<Application>
    decreases |cs|
  {
    if cs == [] then [] else
      ScriptApplications(lib, late, cs[..|cs| - 1], s)
      + StmtApplications(lib, late, cs[|cs| - 1], ScriptOutcome(lib, late, cs[..|cs| - 1], s))
  }

  /** Every statement is steady in the state in which the eager meaning leaves it. */
  predicate SteadyScript(lib: Lib, cs: seq<Stmt>, s: State)
    decreases |cs|
  {
    cs != [] ==>
      var init := cs[..|cs| - 1];
      var c := cs[|cs| - 1];
      SteadyScript(lib, init, s) && (c.Do? ==> Steady(lib, c.e, ScriptOutcome(lib, false, init, s)))
  }

  function ScriptOperators(cs: seq<Stmt>): nat
    decreases |cs|
  {
    if cs == [] then 0 else ScriptOperators(cs[..|cs| - 1]) + if cs[|cs| - 1].Do? then Operators(cs[|cs| - 1].e) else 0
  }

  lemma {:induction false} ScriptApplicationsMany(lib: Lib, late: bool, cs: seq<Stmt>, s: State)
    ensures |ScriptApplications(lib, late, cs, s)| == ScriptOperators(cs)
    decreases |cs|
  {
    hide Applications, ScriptOutcome;
    if cs != [] {
      var c := cs[|cs| - 1];
      ScriptApplicationsMany(lib, late, cs[..|cs| - 1], s);
      if c.Do? {
        ApplicationsMany(lib, late, c.e, ScriptOutcome(lib, late, cs[..|cs| - 1], s));
      }
    }
  }

  /** The same for whole scripts: all operators get the operands of the eager meaning if and only if all is steady. */
  lemma {:induction false} ScriptAgreesExactly(lib: Lib, cs: seq<Stmt>, s: State)
    ensures ScriptApplications(lib, true, cs, s) == ScriptApplications(lib, false, cs, s) <==> SteadyScript(lib, cs, s)
    ensures SteadyScript(lib, cs, s) ==> ScriptOutcome(lib, true, cs, s) == ScriptOutcome(lib, false, cs, s)
    decreases |cs|
  {
    hide Applications, Outcome, Steady, UnsetFlags;
    if cs != [] {
      var init, c := cs[..|cs| - 1], cs[|cs| - 1];
      ScriptAgreesExactly(lib, init, s);
      ScriptApplicationsMany(lib, true, init, s);
      ScriptApplicationsMany(lib, false, init, s);
      var n := ScriptOperators(init);
      var at := ScriptApplications(lib, true, cs, s);
      var bt := ScriptApplications(lib, false, cs, s);
      assert at[..n] == ScriptApplications(lib, true, init, s) && bt[..n] == ScriptApplications(lib, false, init, s);
      assert at[n..] == StmtApplications(lib, true, c, ScriptOutcome(lib, true, init, s));
      assert bt[n..] == StmtApplications(lib, false, c, ScriptOutcome(lib, false, init, s));
      if SteadyScript(lib, init, s) && c.Do? {
        AgreesExactly(lib, c.e, ScriptOutcome(lib, false, init, s));
      }
    }
  }

  lemma {:induction false} ScriptAtOnceIsMeaning(lib: Lib, cs: seq<Stmt>, s: State)
    requires s.vars.Coherent()
    ensures ScriptOutcome(lib, false, cs, s).vars == ScriptMeaning(lib, cs, s.vars)
    decreases |cs|
  {
    hide Vars.Coherent, Outcome, Meaning, UnsetFlags, Vars.Unset;
    if cs != [] {
      ScriptAtOnceIsMeaning(lib, cs[..|cs| - 1], s);
      ScriptCoherent(lib, cs[..|cs| - 1], s.vars);
      if cs[|cs| - 1].Do? {
        AtOnceIsMeaning(lib, cs[|cs| - 1].e, ScriptOutcome(lib, false, cs[..|cs| - 1], s));
      }
    }
  }

  /** So a steady script has the eager meaning. */
  lemma SteadyScriptMeans(lib: Lib, cs: seq<Stmt>, s: State)
    requires s.vars.Coherent() && SteadyScript(lib, cs, s)
    ensures ScriptOutcome(lib, true, cs, s).vars == ScriptMeaning(lib, cs, s.vars)
  {
    ScriptAgreesExactly(lib, cs, s);
    ScriptAtOnceIsMeaning(lib, cs, s);
  }

  // Inputs on which the two differ

  const Nobody: State := State(Vars(map[], map[]), {})

  /** $b = 1; $a =& $b; $c = $a op ($a = 5) */
  function WriteUnderOperator(op: BinOp): seq<Stmt> {
    [Do(Assign("b", Lit(Long(1)))), Do(Bind("a", "b")),
     Do(Assign("c", Binary(op, ReferenceMeaning.Read("a"), Assign("a", Lit(Long(5))))))]
  }

  /** $a = 1; $a =& $a; $c = $a op ($a = 5): here the variable is in no set, but its zval has the flag. */
  function WriteUnderSelfBound(op: BinOp): seq<Stmt> {
    [Do(Assign("a", Lit(Long(1)))), Do(Bind("a", "a")),
     Do(Assign("c", Binary(op, ReferenceMeaning.Read("a"), Assign("a", Lit(Long(5))))))]
  }

  lemma OneByOne(lib: Lib, late: bool, a: Stmt, b: Stmt, c: Stmt, s: State)
    ensures ScriptOutcome(lib, late, [a, b, c], s)
      == StmtOutcome(lib, late, c, StmtOutcome(lib, late, b, StmtOutcome(lib, late, a, s)))
  {
    hide StmtOutcome;
    assert [a, b, c][..2] == [a, b] && [a, b][..1] == [a] && [a][..0] == [];
    assert ScriptOutcome(lib, late, [], s) == s;
    assert ScriptOutcome(lib, late, [a], s) == StmtOutcome(lib, late, a, s);
    assert ScriptOutcome(lib, late, [a, b], s) == StmtOutcome(lib, late, b, ScriptOutcome(lib, late, [a], s));
    assert ScriptOutcome(lib, late, [a, b, c], s) == StmtOutcome(lib, late, c, ScriptOutcome(lib, late, [a, b], s));
  }

  /** The assignment under the operator, in a state in which a has the value 1. */
  lemma WrittenUnder(lib: Lib, op: BinOp, s: State)
    requires WellFormed(s) && "a" in s.vars.value && s.vars.value["a"] == Long(1) && "a" in s.flags
    ensures var e := Assign("c", Binary(op, ReferenceMeaning.Read("a"), Assign("a", Lit(Long(5)))));
      && "c" in Outcome(lib, true, e, s).1.vars.value && "c" in Outcome(lib, false, e, s).1.vars.value
      && ("c" !in s.vars.value ==>
        && Outcome(lib, true, e, s).1.vars.value["c"] == lib.binary(op, Long(5), Long(5))
        && Outcome(lib, false, e, s).1.vars.value["c"] == lib.binary(op, Long(1), Long(5)))
  {
    var l, r := ReferenceMeaning.Read("a"), Assign("a", Lit(Long(5)));
    var p := s.Read("a");
    forall late: bool
      ensures Outcome(lib, late, l, s) == (p, s)
      ensures Tracked(lib, late, r, s, p).v == Long(5)
      ensures Outcome(lib, late, r, s).1 == s.After(Write("a", Long(5))) && Outcome(lib, late, r, s).0.v == Long(5)
    {
      assert Outcome(lib, late, Lit(Long(5)), s) == (Pending(Long(5), {}), s);
      assert Tracked(lib, late, Lit(Long(5)), s, p) == p;
      assert s.Touched("a") == s;
    }
    var s1 := s.After(Write("a", Long(5)));
    forall late: bool
      ensures Outcome(lib, late, Binary(op, l, r), s)
        == (Pending(lib.binary(op, if late then Long(5) else Long(1), Long(5)), {}), s1)
    {
    }
  }

  lemma Started(lib: Lib, late: bool, x: string)
    ensures StmtOutcome(lib, late, Do(Assign(x, Lit(Long(1)))), Nobody) == State(Vars(map[x := Long(1)], map[x := {x}]), {})
  {
    assert Outcome(lib, late, Lit(Long(1)), Nobody) == (Pending(Long(1), {}), Nobody);
    assert Meaning(lib, Lit(Long(1)), Nobody.vars) == (Long(1), Nobody.vars);
    AssignedFirst(lib, Nobody.vars, x);
  }

  lemma BoundTwo(lib: Lib, late: bool)
    ensures StmtOutcome(lib, late, Do(Bind("a", "b")), State(Vars(map["b" := Long(1)], map["b" := {"b"}]), {}))
      == State(Vars(map["a" := Long(1), "b" := Long(1)], map["a" := {"a", "b"}, "b" := {"a", "b"}]), {"a", "b"})
  {
    BoundSecond(lib);
  }

  lemma BoundItself(lib: Lib, late: bool)
    ensures StmtOutcome(lib, late, Do(Bind("a", "a")), State(Vars(map["a" := Long(1)], map["a" := {"a"}]), {}))
      == State(Vars(map["a" := Long(1)], map["a" := {"a"}]), {"a"})
  {
    var s := State(Vars(map["a" := Long(1)], map["a" := {"a"}]), {});
    assert s.Touched("a") == s;
    SameVars(s.vars.Detached("a"), s.vars);
  }

  /** With these scripts $c becomes 5 op 5, where assignment by copying would have it 1 op 5. */
  lemma LateValue(lib: Lib, op: BinOp, own: bool)
    ensures var cs := if own then WriteUnderSelfBound(op) else WriteUnderOperator(op);
      && ScriptOutcome(lib, true, cs, Nobody).vars.Get("c") == lib.binary(op, Long(5), Long(5))
      && ScriptMeaning(lib, cs, Nobody.vars).Get("c") == lib.binary(op, Long(1), Long(5))
  {
    hide StmtOutcome, Outcome, ScriptOutcome, ScriptMeaning;
    var cs := if own then WriteUnderSelfBound(op) else WriteUnderOperator(op);
    var s := if own then State(Vars(map["a" := Long(1)], map["a" := {"a"}]), {"a"})
      else State(Vars(map["a" := Long(1), "b" := Long(1)], map["a" := {"a", "b"}, "b" := {"a", "b"}]), {"a", "b"});
    forall late: bool
      ensures ScriptOutcome(lib, late, cs, Nobody) == StmtOutcome(lib, late, cs[2], s)
    {
      OneByOne(lib, late, cs[0], cs[1], cs[2], Nobody);
      Started(lib, late, if own then "a" else "b");
      if own {
        BoundItself(lib, late);
      } else {
        BoundTwo(lib, late);
      }
    }
    ScriptAtOnceIsMeaning(lib, cs, Nobody);
    WrittenUnder(lib, op, s);
    DoIs(lib, true, cs[2].e, s);
    DoIs(lib, false, cs[2].e, s);
  }

  lemma DoIs(lib: Lib, late: bool, e: Expr, s: State)
    ensures StmtOutcome(lib, late, Do(e), s) == Outcome(lib, late, e, s).1
  {
  }
}
