/** Every text of the grammar is accepted, with the calls that are its meaning, unless it is too deep for the stack. */
module IniCompleteness {
  import opened IniGrammar
  import opened IniTables
  import opened IniMachine
  import opened IniSoundness

  lemma Chain(env: Env, a: Config, m: nat, b: Config, n: nat, c: Config)
    requires Steps(env, a, m) == b && Steps(env, b, n) == c
    ensures Reaches(env, a, m + n, c, Max(Peak(env, a, m), Peak(env, b, n)))
  {
    StepsAdd(env, a, m, n);
    PeakAdd(env, a, m, n);
  }

  lemma OneStep(env: Env, a: Config, b: Config)
    requires Step(env, a) == b
    ensures Reaches(env, a, 1, b, Max(Height(a), Height(b)))
  {
    hide Step;
    assert Steps(env, a, 1) == Steps(env, Step(env, a), 0);
    assert Peak(env, a, 1) == Max(Height(a), Peak(env, Step(env, a), 0));
  }

  /** A stack that state p is on top of. */
  ghost predicate Ready(states: seq<nat>, syms: seq<Sym>, p: nat) {
    |states| == |syms| + 1 && states[|states| - 1] == p && forall i :: 0 <= i < |states| ==> states[i] < 28
  }

  lemma ReadyPush(states: seq<nat>, syms: seq<Sym>, p: nat, sym: Sym, q: nat)
    requires Ready(states, syms, p) && q < 28
    ensures Ready(states + [q], syms + [sym], q)
  {
  }

  lemma DoShift(env: Env, states: seq<nat>, syms: seq<Sym>, t: Token, rest: seq<Token>, calls: seq<Call>, p: nat, n: nat)
    requires Ready(states, syms, p) && p < 28 && ActionFor(p, Translate(t.code)) == Shift(n)
    ensures Step(env, Running(states, syms, [t] + rest, calls)) == Running(states + [n], syms + [Tok(t)], rest, calls)
  {
    hide ActionFor, Translate;
    var c := Running(states, syms, [t] + rest, calls);
    assert c.Ok() && c.Top() == p && c.rest[0] == t && c.rest[1..] == rest;
  }

  /** The symbols args on top of the stack, the lowest of their states being the successor of state p, are reduced. */
  lemma DoReduce(env: Env, states: seq<nat>, syms: seq<Sym>, more: seq<nat>, args: seq<Sym>, rest: seq<Token>, calls: seq<Call>,
                 p: nat, rule: nat, sym: Sym, g: nat)
    requires Ready(states, syms, p) && p < 28 && 1 <= rule <= 19
    requires |more| == |args| == Length(rule) && forall q :: q in more ==> q < 28
    requires Reduced(rule, args) == sym && Goto(p, LeftSide(rule)) == g && 0 <= g < 28
    requires var c := Running(states + more, syms + args, rest, calls); c.Ok() && ActionFor(c.Top(), c.Lookahead()) == Reduce(rule)
    ensures Step(env, Running(states + more, syms + args, rest, calls)) ==
      Running(states + [g], syms + [sym], rest, calls + CallsOf(env, sym))
  {
    hide ActionFor, Translate, Reduced, Goto, Length, LeftSide, CallsOf;
    var c := Running(states + more, syms + args, rest, calls);
    var n := |syms|;
    assert c.syms[n..] == args && c.syms[..n] == syms && c.states[..n + 1] == states && c.states[n] == p;
  }

  lemma OkOn(states: seq<nat>, syms: seq<Sym>, more: seq<nat>, args: seq<Sym>, rest: seq<Token>, calls: seq<Call>, p: nat)
    requires Ready(states, syms, p) && 1 <= |more| == |args| && forall q :: q in more ==> q < 28
    ensures var c := Running(states + more, syms + args, rest, calls); c.Ok() && c.Top() == more[|more| - 1]
  {
    var s := states + more;
    forall i | 0 <= i < |s|
      ensures s[i] < 28
    {
      if i >= |states| {
        assert s[i] == more[i - |states|] && more[i - |states|] in more;
      }
    }
  }

  lemma ShiftsOperand(p: nat, code: int)
    requires Begins(p) && (code == TC_STRING || code == TILDE || code == BANG || code == OPEN)
    ensures ActionFor(p, Translate(code)) ==
      Shift(if code == TC_STRING then 7 else if code == TILDE then 11 else if code == BANG then 12 else 15)
  {
    hide ActionFor;
    var ch := Translate(code);
    if p == 6 {
      AfterEquals(ch);
    } else {
      AtOperand(p, ch);
    }
  }

  /** A constant: shifted, looked up, and made an expression. */
  lemma ParseConst(env: Env, states: seq<nat>, syms: seq<Sym>, name: string, rest: seq<Token>, calls: seq<Call>, p: nat)
    requires Ready(states, syms, p) && Begins(p)
    ensures Reaches(env, Running(states, syms, [Token(TC_STRING, name)] + rest, calls), 3,
              Running(states + [ExprGoto(p)], syms + [NExpr(One(Const(name)))], rest, calls), |states| + 1)
  {
    hide ActionFor, Translate, Goto, Length, LeftSide, Step;
    var t := Token(TC_STRING, name);
    ShiftsOperand(p, TC_STRING);
    DoShift(env, states, syms, t, rest, calls, p, 7);
    var c1 := Running(states + [7], syms + [Tok(t)], rest, calls);
    OkOn(states, syms, [7], [Tok(t)], rest, calls, p);
    Reducing(7, c1.Lookahead());
    Rules(19);
    GotoExpr(p);
    DoReduce(env, states, syms, [7], [Tok(t)], rest, calls, p, 19, NConst(name), 18);
    assert calls + [] == calls;
    var c2 := Running(states + [18], syms + [NConst(name)], rest, calls);
    OkOn(states, syms, [18], [NConst(name)], rest, calls, p);
    Reducing(18, c2.Lookahead());
    Rules(13);
    DoReduce(env, states, syms, [18], [NConst(name)], rest, calls, p, 13, NExpr(One(Const(name))), ExprGoto(p));
    var c0 := Running(states, syms, [t] + rest, calls);
    ThreeSteps(env, c0, c1, c2, Running(states + [ExprGoto(p)], syms + [NExpr(One(Const(name)))], rest, calls));
  }

  lemma ThreeSteps(env: Env, a: Config, b: Config, c: Config, d: Config)
    requires Step(env, a) == b && Step(env, b) == c && Step(env, c) == d
    ensures Reaches(env, a, 3, d, Max(Max(Height(a), Height(b)), Max(Height(c), Height(d))))
  {
    hide Step;
    OneStep(env, a, b);
    OneStep(env, b, c);
    OneStep(env, c, d);
    Chain(env, a, 1, b, 1, c);
    Chain(env, a, 2, c, 1, d);
  }

  /** An operator or parenthesis is shifted in front of what follows. */
  lemma Open(env: Env, states: seq<nat>, syms: seq<Sym>, code: int, rest: seq<Token>, calls: seq<Call>, p: nat)
    requires Ready(states, syms, p) && Begins(p) && (code == TILDE || code == BANG || code == OPEN)
    ensures var q := if code == TILDE then 11 else if code == BANG then 12 else 15;
      Reaches(env, Running(states, syms, [Token(code, "")] + rest, calls), 1,
              Running(states + [q], syms + [Tok(Token(code, ""))], rest, calls), |states| + 1) &&
      Ready(states + [q], syms + [Tok(Token(code, ""))], q)
  {
    hide ActionFor, Translate, Step;
    ShiftsOperand(p, code);
    var q := if code == TILDE then 11 else if code == BANG then 12 else 15;
    DoShift(env, states, syms, Token(code, ""), rest, calls, p, q);
    OneStep(env, Running(states, syms, [Token(code, "")] + rest, calls),
            Running(states + [q], syms + [Tok(Token(code, ""))], rest, calls));
    ReadyPush(states, syms, p, Tok(Token(code, "")), q);
  }

  /** A prefix operator is applied to the expression above it. */
  lemma ClosePrefix(env: Env, states: seq<nat>, syms: seq<Sym>, code: int, u: Unary, rest: seq<Token>, calls: seq<Call>, p: nat)
    requires Ready(states, syms, p) && Begins(p) && (code == TILDE || code == BANG)
    ensures var q := if code == TILDE then 11 else 12;
      Reaches(env, Running(states + [q, ExprGoto(q)], syms + [Tok(Token(code, "")), NExpr(One(u))], rest, calls), 1,
              Running(states + [ExprGoto(p)], syms + [NExpr(One(if code == TILDE then Tilde(u) else Bang(u)))], rest, calls), |states| + 2)
  {
    hide ActionFor, Translate, Step, Goto, Length, LeftSide;
    var q := if code == TILDE then 11 else 12;
    var more, args := [q, ExprGoto(q)], [Tok(Token(code, "")), NExpr(One(u))];
    var c := Running(states + more, syms + args, rest, calls);
    var rule := ExprGoto(q) - 3;
    OkOn(states, syms, more, args, rest, calls, p);
    Reducing(ExprGoto(q), c.Lookahead());
    Rules(rule);
    GotoExpr(p);
    var sym := NExpr(One(if code == TILDE then Tilde(u) else Bang(u)));
    DoReduce(env, states, syms, more, args, rest, calls, p, rule, sym, ExprGoto(p));
    assert calls + [] == calls;
    OneStep(env, c, Running(states + [ExprGoto(p)], syms + [sym], rest, calls));
  }

  /** The closing parenthesis is shifted, and the parentheses taken off. */
  lemma CloseParen(env: Env, states: seq<nat>, syms: seq<Sym>, e: Expr, rest: seq<Token>, calls: seq<Call>, p: nat)
    requires Ready(states, syms, p) && Begins(p)
    ensures Reaches(env, Running(states + [15, 21], syms + [Tok(Token(OPEN, "")), NExpr(e)], [Token(CLOSE, "")] + rest, calls), 2,
              Running(states + [ExprGoto(p)], syms + [NExpr(One(Paren(e)))], rest, calls), |states| + 3)
  {
    hide ActionFor, Step, Goto, Length, LeftSide;
    var open, close := Tok(Token(OPEN, "")), Token(CLOSE, "");
    var c0 := Running(states + [15, 21], syms + [open, NExpr(e)], [close] + rest, calls);
    ReadyPush(states, syms, p, open, 15);
    ReadyPush(states + [15], syms + [open], 15, NExpr(e), 21);
    assert states + [15] + [21] == states + [15, 21] && syms + [open] + [NExpr(e)] == syms + [open, NExpr(e)];
    InParentheses(16);
    DoShift(env, states + [15, 21], syms + [open, NExpr(e)], close, rest, calls, 21, 24);
    var more, args := [15, 21, 24], [open, NExpr(e), Tok(close)];
    assert states + [15, 21] + [24] == states + more && syms + [open, NExpr(e)] + [Tok(close)] == syms + args;
    var c1 := Running(states + more, syms + args, rest, calls);
    OkOn(states, syms, more, args, rest, calls, p);
    Reducing(24, c1.Lookahead());
    Rules(18);
    GotoExpr(p);
    DoReduce(env, states, syms, more, args, rest, calls, p, 18, NExpr(One(Paren(e))), ExprGoto(p));
    assert calls + [] == calls;
    var c2 := Running(states + [ExprGoto(p)], syms + [NExpr(One(Paren(e)))], rest, calls);
    OneStep(env, c0, c1);
    OneStep(env, c1, c2);
    Chain(env, c0, 1, c1, 1, c2);
  }

  /** A binary operator is shifted behind its left operand. */
  lemma ShiftBinary(env: Env, states: seq<nat>, syms: seq<Sym>, l: Expr, op: int, rest: seq<Token>, calls: seq<Call>, p: nat)
    requires Ready(states, syms, p) && (p == 6 || p == 15) && IsOp(op)
    ensures var q := if op == OR then 22 else 23; var s, k := states + [ExprGoto(p)], syms + [NExpr(l)];
      Reaches(env, Running(s, k, [Token(op, "")] + rest, calls), 1,
              Running(s + [q], k + [Tok(Token(op, ""))], rest, calls), |states| + 2) &&
      Ready(s + [q], k + [Tok(Token(op, ""))], q)
  {
    hide ActionFor, Step;
    var q := if op == OR then 22 else 23;
    var s, k := states + [ExprGoto(p)], syms + [NExpr(l)];
    ReadyPush(states, syms, p, NExpr(l), ExprGoto(p));
    ReadyPush(s, k, ExprGoto(p), Tok(Token(op, "")), q);
    AfterValueExpr(Translate(op));
    InParentheses(Translate(op));
    DoShift(env, s, k, Token(op, ""), rest, calls, ExprGoto(p), q);
    OneStep(env, Running(s, k, [Token(op, "")] + rest, calls), Running(s + [q], k + [Tok(Token(op, ""))], rest, calls));
  }

  /** A binary operator is applied as soon as its right operand is there. */
  lemma CloseBinary(env: Env, states: seq<nat>, syms: seq<Sym>, l: Expr, op: int, u: Unary, rest: seq<Token>, calls: seq<Call>, p: nat)
    requires Ready(states, syms, p) && (p == 6 || p == 15) && IsOp(op)
    ensures var q := if op == OR then 22 else 23;
      Reaches(env, Running(states + [ExprGoto(p), q, ExprGoto(q)], syms + [NExpr(l), Tok(Token(op, "")), NExpr(One(u))], rest, calls), 1,
              Running(states + [ExprGoto(p)], syms + [NExpr(Bin(l, op, u))], rest, calls), |states| + 3)
  {
    hide ActionFor, Translate, Step, Goto, Length, LeftSide;
    var q := if op == OR then 22 else 23;
    var more, args := [ExprGoto(p), q, ExprGoto(q)], [NExpr(l), Tok(Token(op, "")), NExpr(One(u))];
    var c := Running(states + more, syms + args, rest, calls);
    var rule := ExprGoto(q) - 11;
    OkOn(states, syms, more, args, rest, calls, p);
    Reducing(ExprGoto(q), c.Lookahead());
    Rules(rule);
    GotoExpr(p);
    DoReduce(env, states, syms, more, args, rest, calls, p, rule, NExpr(Bin(l, op, u)), ExprGoto(p));
    assert calls + [] == calls;
    OneStep(env, c, Running(states + [ExprGoto(p)], syms + [NExpr(Bin(l, op, u))], rest, calls));
  }

  lemma {:induction false} ParseUnary(env: Env, states: seq<nat>, syms: seq<Sym>, u: Unary, rest: seq<Token>, calls: seq<Call>, p: nat)
    returns (n: nat)
    requires Ready(states, syms, p) && Begins(p) && WellFormedU(u)
    ensures Reaches(env, Running(states, syms, PrintU(u) + rest, calls), n,
              Running(states + [ExprGoto(p)], syms + [NExpr(One(u))], rest, calls), |states| + NeedU(u))
    decreases u, 0
  {
    hide Steps, Peak, Ready;
    var c0 := Running(states, syms, PrintU(u) + rest, calls);
    match u {
      case Const(name) =>
        ParseConst(env, states, syms, name, rest, calls, p);
        n := 3;
      case Tilde(v) => n := ParsePrefix(env, states, syms, TILDE, v, rest, calls, p);
      case Bang(v) => n := ParsePrefix(env, states, syms, BANG, v, rest, calls, p);
      case Paren(e) =>
        var open, close := Tok(Token(OPEN, "")), [Token(CLOSE, "")] + rest;
        assert PrintU(u) + rest == [Token(OPEN, "")] + (PrintE(e) + close);
        Open(env, states, syms, OPEN, PrintE(e) + close, calls, p);
        var k := ParseExpr(env, states + [15], syms + [open], e, close, calls, 15);
        assert states + [15] + [21] == states + [15, 21] && syms + [open] + [NExpr(e)] == syms + [open, NExpr(e)];
        CloseParen(env, states, syms, e, rest, calls, p);
        var c1 := Running(states + [15], syms + [open], PrintE(e) + close, calls);
        var c2 := Running(states + [15, 21], syms + [open, NExpr(e)], close, calls);
        Chain(env, c0, 1, c1, k, c2);
        Chain(env, c0, 1 + k, c2, 2, Running(states + [ExprGoto(p)], syms + [NExpr(One(u))], rest, calls));
        n := 1 + k + 2;
    }
  }

  lemma {:induction false} ParsePrefix(env: Env, states: seq<nat>, syms: seq<Sym>, code: int, v: Unary, rest: seq<Token>, calls: seq<Call>, p: nat)
    returns (n: nat)
    requires (code == TILDE || code == BANG) && Begins(p) && WellFormedU(v) && Ready(states, syms, p)
    ensures Reaches(env, Running(states, syms, [Token(code, "")] + PrintU(v) + rest, calls), n,
              Running(states + [ExprGoto(p)], syms + [NExpr(One(if code == TILDE then Tilde(v) else Bang(v)))], rest, calls), |states| + 1 + NeedU(v))
    decreases v, 1
  {
    hide Steps, Peak, Ready;
    var q := if code == TILDE then 11 else 12;
    var t := Tok(Token(code, ""));
    var c0 := Running(states, syms, [Token(code, "")] + PrintU(v) + rest, calls);
    assert [Token(code, "")] + PrintU(v) + rest == [Token(code, "")] + (PrintU(v) + rest);
    Open(env, states, syms, code, PrintU(v) + rest, calls, p);
    var k := ParseUnary(env, states + [q], syms + [t], v, rest, calls, q);
    assert states + [q] + [ExprGoto(q)] == states + [q, ExprGoto(q)] && syms + [t] + [NExpr(One(v))] == syms + [t, NExpr(One(v))];
    ClosePrefix(env, states, syms, code, v, rest, calls, p);
    var c1 := Running(states + [q], syms + [t], PrintU(v) + rest, calls);
    var c2 := Running(states + [q, ExprGoto(q)], syms + [t, NExpr(One(v))], rest, calls);
    Chain(env, c0, 1, c1, k, c2);
    Chain(env, c0, 1 + k, c2, 1,
          Running(states + [ExprGoto(p)], syms + [NExpr(One(if code == TILDE then Tilde(v) else Bang(v)))], rest, calls));
    n := 1 + k + 1;
  }

  lemma {:induction false} ParseExpr(env: Env, states: seq<nat>, syms: seq<Sym>, e: Expr, rest: seq<Token>, calls: seq<Call>, p: nat)
    returns (n: nat)
    requires Ready(states, syms, p) && (p == 6 || p == 15) && WellFormedE(e)
    ensures Reaches(env, Running(states, syms, PrintE(e) + rest, calls), n,
              Running(states + [ExprGoto(p)], syms + [NExpr(e)], rest, calls), |states| + NeedE(e))
    decreases e, 0
  {
    hide Steps, Peak, Ready;
    match e {
      case One(u) => n := ParseUnary(env, states, syms, u, rest, calls, p);
      case Bin(l, op, u) =>
        var q := if op == OR then 22 else 23;
        var t := Token(op, "");
        var c0 := Running(states, syms, PrintE(e) + rest, calls);
        assert PrintE(e) + rest == PrintE(l) + ([t] + (PrintU(u) + rest));
        var k := ParseExpr(env, states, syms, l, [t] + (PrintU(u) + rest), calls, p);
        ShiftBinary(env, states, syms, l, op, PrintU(u) + rest, calls, p);
        var s, y := states + [ExprGoto(p)] + [q], syms + [NExpr(l)] + [Tok(t)];
        var m := ParseUnary(env, s, y, u, rest, calls, q);
        assert s + [ExprGoto(q)] == states + [ExprGoto(p), q, ExprGoto(q)];
        assert y + [NExpr(One(u))] == syms + [NExpr(l), Tok(t), NExpr(One(u))];
        CloseBinary(env, states, syms, l, op, u, rest, calls, p);
        var c1 := Running(states + [ExprGoto(p)], syms + [NExpr(l)], [t] + (PrintU(u) + rest), calls);
        var c2 := Running(s, y, PrintU(u) + rest, calls);
        var c3 := Running(s + [ExprGoto(q)], y + [NExpr(One(u))], rest, calls);
        Chain(env, c0, k, c1, 1, c2);
        Chain(env, c0, k + 1, c2, m, c3);
        Chain(env, c0, k + 1 + m, c3, 1, Running(states + [ExprGoto(p)], syms + [NExpr(e)], rest, calls));
        n := k + 1 + m + 1;
    }
  }

  // Values, statements and whole texts

  /** What may follow a statement: the end, or the beginning of another. */
  predicate Follows(rest: seq<Token>) {
    rest == [] || rest[0].code == TC_STRING || rest[0].code == SECTION || rest[0].code == NEWLINE
  }

  /** A value that is a single token. */
  lemma ParseText(env: Env, states: seq<nat>, syms: seq<Sym>, v: Value, rest: seq<Token>, calls: seq<Call>)
    requires Ready(states, syms, 6) && !v.Computed?
    ensures Reaches(env, Running(states, syms, PrintV(v) + rest, calls), 2,
              Running(states + [16], syms + [NValue(v)], rest, calls), |states| + 1)
  {
    hide ActionFor, Step, Goto, Length, LeftSide;
    var t := PrintV(v)[0];
    AfterEquals(Translate(t.code));
    var q := if v.Encapsulated? then 8 else if v.True? then 9 else if v.False? then 10 else if v.EmptyLine? then 13 else 14;
    DoShift(env, states, syms, t, rest, calls, 6, q);
    var c0, c1 := Running(states, syms, [t] + rest, calls), Running(states + [q], syms + [Tok(t)], rest, calls);
    OkOn(states, syms, [q], [Tok(t)], rest, calls, 6);
    Reducing(q, c1.Lookahead());
    Rules(Rule(q));
    GotoOther();
    DoReduce(env, states, syms, [q], [Tok(t)], rest, calls, 6, Rule(q), NValue(v), 16);
    assert calls + [] == calls;
    var c2 := Running(states + [16], syms + [NValue(v)], rest, calls);
    OneStep(env, c0, c1);
    OneStep(env, c1, c2);
    Chain(env, c0, 1, c1, 1, c2);
  }

  lemma ParseValue(env: Env, states: seq<nat>, syms: seq<Sym>, v: Value, rest: seq<Token>, calls: seq<Call>)
    returns (n: nat)
    requires Ready(states, syms, 6) && Follows(rest) && (v.Computed? ==> WellFormedE(v.e))
    ensures Reaches(env, Running(states, syms, PrintV(v) + rest, calls), n,
              Running(states + [16], syms + [NValue(v)], rest, calls), |states| + if v.Computed? then NeedE(v.e) else 1)
  {
    hide ActionFor, Step, Steps, Peak, Goto, Length, LeftSide;
    if v.Computed? {
      var k := ParseExpr(env, states, syms, v.e, rest, calls, 6);
      var c0 := Running(states, syms, PrintV(v) + rest, calls);
      var c1 := Running(states + [17], syms + [NExpr(v.e)], rest, calls);
      OkOn(states, syms, [17], [NExpr(v.e)], rest, calls, 6);
      AfterValueExpr(c1.Lookahead());
      Rules(7);
      GotoOther();
      DoReduce(env, states, syms, [17], [NExpr(v.e)], rest, calls, 6, 7, NValue(v), 16);
      assert calls + [] == calls;
      var c2 := Running(states + [16], syms + [NValue(v)], rest, calls);
      OneStep(env, c1, c2);
      Chain(env, c0, k, c1, 1, c2);
      n := k + 1;
    } else {
      ParseText(env, states, syms, v, rest, calls);
      n := 2;
    }
  }

  /** A statement that is a single token. */
  lemma ParseLine(env: Env, states: seq<nat>, syms: seq<Sym>, s: Statement, rest: seq<Token>, calls: seq<Call>)
    requires Ready(states, syms, 1) && !s.Setting? && Follows(rest)
    ensures Reaches(env, Running(states, syms, PrintS(s) + rest, calls), 2,
              Running(states + [5], syms + [NStatement(s)], rest, calls + CallsS(env, s)), |states| + 1)
  {
    hide ActionFor, Step, Goto, Length, LeftSide;
    var t := PrintS(s)[0];
    AtStatement(Translate(t.code));
    var q := if s.Bare? then 2 else if s.Section? then 3 else 4;
    DoShift(env, states, syms, t, rest, calls, 1, q);
    var c0, c1 := Running(states, syms, [t] + rest, calls), Running(states + [q], syms + [Tok(t)], rest, calls);
    OkOn(states, syms, [q], [Tok(t)], rest, calls, 1);
    if q == 2 {
      AfterName(c1.Lookahead());
    } else {
      Reducing(q, c1.Lookahead());
    }
    Rules(q + 2);
    GotoOther();
    DoReduce(env, states, syms, [q], [Tok(t)], rest, calls, 1, q + 2, NStatement(s), 5);
    var c2 := Running(states + [5], syms + [NStatement(s)], rest, calls + CallsS(env, s));
    OneStep(env, c0, c1);
    OneStep(env, c1, c2);
    Chain(env, c0, 1, c1, 1, c2);
  }

  lemma ParseSetting(env: Env, states: seq<nat>, syms: seq<Sym>, s: Statement, rest: seq<Token>, calls: seq<Call>)
    returns (n: nat)
    requires s.Setting? && WellFormedS(s) && Follows(rest) && Ready(states, syms, 1)
    ensures Reaches(env, Running(states, syms, PrintS(s) + rest, calls), n,
              Running(states + [5], syms + [NStatement(s)], rest, calls + CallsS(env, s)), |states| + NeedS(s))
  {
    hide ActionFor, Step, Steps, Peak, Goto, Length, LeftSide, Ready;
    var name, eq := Token(TC_STRING, s.name), Token(EQUALS, "");
    var tail := PrintV(s.value) + rest;
    var c0 := Running(states, syms, PrintS(s) + rest, calls);
    assert PrintS(s) + rest == [name] + ([eq] + tail);
    AtStatement(Translate(TC_STRING));
    DoShift(env, states, syms, name, [eq] + tail, calls, 1, 2);
    var c1 := Running(states + [2], syms + [Tok(name)], [eq] + tail, calls);
    ReadyPush(states, syms, 1, Tok(name), 2);
    AfterName(Translate(EQUALS));
    DoShift(env, states + [2], syms + [Tok(name)], eq, tail, calls, 2, 6);
    var st, sy := states + [2] + [6], syms + [Tok(name)] + [Tok(eq)];
    var c2 := Running(st, sy, tail, calls);
    ReadyPush(states + [2], syms + [Tok(name)], 2, Tok(eq), 6);
    var k := ParseValue(env, st, sy, s.value, rest, calls);
    var more, args := [2, 6, 16], [Tok(name), Tok(eq), NValue(s.value)];
    assert st + [16] == states + more && sy + [NValue(s.value)] == syms + args;
    var c3 := Running(states + more, syms + args, rest, calls);
    OkOn(states, syms, more, args, rest, calls, 1);
    Reducing(16, c3.Lookahead());
    Rules(3);
    GotoOther();
    ReduceSetting(env, states, syms, s, rest, calls);
    var c4 := Running(states + [5], syms + [NStatement(s)], rest, calls + CallsS(env, s));
    OneStep(env, c0, c1);
    OneStep(env, c1, c2);
    OneStep(env, c3, c4);
    Chain(env, c0, 1, c1, 1, c2);
    Chain(env, c0, 2, c2, k, c3);
    Chain(env, c0, 2 + k, c3, 1, c4);
    n := 2 + k + 1;
  }

  lemma ReduceSetting(env: Env, states: seq<nat>, syms: seq<Sym>, s: Statement, rest: seq<Token>, calls: seq<Call>)
    requires s.Setting? && Ready(states, syms, 1)
    ensures Step(env, Running(states + [2, 6, 16],
                              syms + [Tok(Token(TC_STRING, s.name)), Tok(Token(EQUALS, "")), NValue(s.value)], rest, calls)) ==
      Running(states + [5], syms + [NStatement(s)], rest, calls + CallsS(env, s))
  {
    hide ActionFor, Step, Goto, Length, LeftSide;
    var more, args := [2, 6, 16], [Tok(Token(TC_STRING, s.name)), Tok(Token(EQUALS, "")), NValue(s.value)];
    var c := Running(states + more, syms + args, rest, calls);
    OkOn(states, syms, more, args, rest, calls, 1);
    Reducing(16, c.Lookahead());
    Rules(3);
    GotoOther();
    DoReduce(env, states, syms, more, args, rest, calls, 1, 3, NStatement(s), 5);
  }

  /** One more statement is taken into the list. */
  lemma ParseStatement(env: Env, ss: seq<Statement>, s: Statement, rest: seq<Token>)
    returns (n: nat)
    requires WellFormedS(s) && Follows(rest)
    ensures Reaches(env, Running([0, 1], [NList(ss)], PrintS(s) + rest, Calls(env, ss)), n,
              Running([0, 1], [NList(ss + [s])], rest, Calls(env, ss + [s])), 2 + NeedS(s))
  {
    hide ActionFor, Step, Steps, Peak, Goto, Length, LeftSide;
    var calls := Calls(env, ss);
    var k;
    if s.Setting? {
      k := ParseSetting(env, [0, 1], [NList(ss)], s, rest, calls);
    } else {
      ParseLine(env, [0, 1], [NList(ss)], s, rest, calls);
      k := 2;
    }
    assert (ss + [s])[..|ss + [s]| - 1] == ss;
    var c1 := Running([0, 1] + [5], [NList(ss)] + [NStatement(s)], rest, calls + CallsS(env, s));
    var c2 := Running([0, 1], [NList(ss + [s])], rest, calls + CallsS(env, s));
    TakeIn(env, ss, s, rest, calls + CallsS(env, s));
    OneStep(env, c1, c2);
    Chain(env, Running([0, 1], [NList(ss)], PrintS(s) + rest, calls), k, c1, 1, c2);
    n := k + 1;
  }

  lemma TakeIn(env: Env, ss: seq<Statement>, s: Statement, rest: seq<Token>, calls: seq<Call>)
    ensures Step(env, Running([0, 1] + [5], [NList(ss)] + [NStatement(s)], rest, calls)) ==
      Running([0, 1], [NList(ss + [s])], rest, calls)
  {
    hide ActionFor, Step, Goto, Length, LeftSide;
    var more, args := [1, 5], [NList(ss), NStatement(s)];
    var c := Running([0] + more, [] + args, rest, calls);
    assert [0, 1] + [5] == [0] + more && [NList(ss)] + [NStatement(s)] == [] + args;
    OkOn([0], [], more, args, rest, calls, 0);
    Reducing(5, c.Lookahead());
    Rules(1);
    GotoOther();
    DoReduce(env, [0], [], more, args, rest, calls, 0, 1, NList(ss + [s]), 1);
    assert [0] + [1] == [0, 1] && [] + [NList(ss + [s])] == [NList(ss + [s])] && calls + [] == calls;
  }

  /** How high the stack rises over the statements of a text. */
  function Depth(ss: seq<Statement>): nat
    decreases |ss|
  {
    if ss == [] then 2 else Max(Depth(ss[..|ss| - 1]), 2 + NeedS(ss[|ss| - 1]))
  }

  /** No statement takes the stack to its limit. */
  predicate FitsStack(ss: seq<Statement>) { forall s :: s in ss ==> 2 + NeedS(s) < YYMAXDEPTH }

  lemma {:induction false} DepthFits(ss: seq<Statement>)
    ensures FitsStack(ss) <==> Max(3, Depth(ss)) < YYMAXDEPTH
    decreases |ss|
  {
    if ss != [] {
      DepthFits(ss[..|ss| - 1]);
      assert ss == ss[..|ss| - 1] + [ss[|ss| - 1]];
    }
  }

  lemma PrintFollows(ss: seq<Statement>)
    ensures Follows(Print(ss))
    decreases |ss|
  {
    if ss != [] {
      PrintFollows(ss[..|ss| - 1]);
    }
  }

  /** From the beginning of a text to the end of its n-th statement. */
  lemma {:induction false} ParseList(env: Env, ss: seq<Statement>, more: seq<Token>) returns (n: nat)
    requires (forall s :: s in ss ==> WellFormedS(s)) && Follows(more)
    ensures Reaches(env, Start(Print(ss) + more), n,
              Running([0, 1], [NList(ss)], more, Calls(env, ss)), Depth(ss))
    decreases |ss|
  {
    hide Steps, Peak, Step, Follows;
    if ss == [] {
      assert Print(ss) + more == more;
      Begin(env, more);
      OneStep(env, Start(more), Running([0, 1], [NList([])], more, []));
      n := 1;
    } else {
      var init, s := ss[..|ss| - 1], ss[|ss| - 1];
      assert init + [s] == ss;
      StatementFollows(s, more);
      assert Print(ss) + more == Print(init) + (PrintS(s) + more);
      var k := ParseList(env, init, PrintS(s) + more);
      var m := ParseStatement(env, init, s, more);
      Chain(env, Start(Print(ss) + more), k, Running([0, 1], [NList(init)], PrintS(s) + more, Calls(env, init)), m,
            Running([0, 1], [NList(ss)], more, Calls(env, ss)));
      n := k + m;
    }
  }

  lemma StatementFollows(s: Statement, more: seq<Token>)
    ensures Follows(PrintS(s) + more)
  {
  }

  lemma Begin(env: Env, rest: seq<Token>)
    ensures Step(env, Start(rest)) == Running([0, 1], [NList([])], rest, [])
  {
    hide ActionFor, Step, Goto, Length, LeftSide;
    var c := Running([0] + [], [] + [], rest, []);
    assert [0] + [] == [0];
    var noSyms: seq<Sym> := [];
    assert noSyms + [] == noSyms;
    var noCalls: seq<Call> := [];
    assert noCalls + [] == noCalls;
    Reducing(0, Start(rest).Lookahead());
    Rules(2);
    GotoOther();
    DoReduce(env, [0], [], [], [], rest, [], 0, 2, NList([]), 1);
    assert [0] + [1] == [0, 1] && noSyms + [NList([])] == [NList([])];
  }

  /** Completeness: with room enough a text of the grammar is accepted, having called back with its meaning; and how much room it takes. */
  lemma AcceptsGrammar(env: Env, ss: seq<Statement>) returns (n: nat)
    requires forall s :: s in ss ==> WellFormedS(s)
    ensures Reaches(env, Start(Print(ss)), n,
              Done(0, Calls(env, ss)), Max(3, Depth(ss)))
  {
    hide Steps, Peak, Step;
    assert Print(ss) + [] == Print(ss);
    var k := ParseList(env, ss, []);
    var c1 := Running([0, 1], [NList(ss)], [], Calls(env, ss));
    var c2 := Running([0, 1] + [27], [NList(ss)] + [Eof], [], Calls(env, ss));
    Ending(env, ss);
    OneStep(env, c1, c2);
    OneStep(env, c2, Done(0, Calls(env, ss)));
    Chain(env, Start(Print(ss)), k, c1, 1, c2);
    Chain(env, Start(Print(ss)), k + 1, c2, 1, Done(0, Calls(env, ss)));
    n := k + 2;
  }

  lemma Ending(env: Env, ss: seq<Statement>)
    ensures var calls := Calls(env, ss);
      Step(env, Running([0, 1], [NList(ss)], [], calls)) == Running([0, 1] + [27], [NList(ss)] + [Eof], [], calls) &&
      Step(env, Running([0, 1] + [27], [NList(ss)] + [Eof], [], calls)) == Done(0, calls)
  {
    hide ActionFor;
    AtStatement(0);
    AtEnd();
  }
}
