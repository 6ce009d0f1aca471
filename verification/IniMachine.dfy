/** The LR parser of zend_ini_parser.c as a machine: one step shifts a token or reduces by a rule. */
module IniMachine {
  import opened IniGrammar
  import opened IniTables

  /** A grammar symbol on the stack, with what it stands for. */
  datatype Sym =
    | Tok(t: Token) | Eof
    | NList(ss: seq<Statement>) | NStatement(s: Statement) | NValue(v: Value) | NExpr(e: Expr) | NConst(name: string)
    | Bad

  /** The stacks, the tokens not yet consumed and the calls made so far; or the value returned. */
  datatype Config =
    | Running(states: seq<nat>, syms: seq<Sym>, rest: seq<Token>, calls: seq<Call>)
    | Done(ret: nat, calls: seq<Call>)
  {
    predicate Ok() {
      Running? ==> 0 < |states| && |syms| == |states| - 1 && forall i :: 0 <= i < |states| ==> states[i] < 28
    }

    function Top(): (n: nat)
      requires Running? && Ok()
      ensures n < 28
    {
      states[|states| - 1]
    }

    function Lookahead(): (n: nat)
      requires Running?
      ensures n <= 22
    {
      if rest == [] then 0 else Translate(rest[0].code)
    }
  }

  /** A state is pushed. The machine has all the room it needs; it is the engine whose stacks are limited. */
  function Push(states: seq<nat>, syms: seq<Sym>, rest: seq<Token>, calls: seq<Call>, n: nat): Config {
    Running(states + [n], syms, rest, calls)
  }

  function Height(c: Config): nat { if c.Running? then |c.states| else 0 }

  /** The symbol a rule makes of those on its right-hand side. */
  function Reduced(rule: nat, args: seq<Sym>): Sym {
    if rule == 1 && |args| == 2 && args[0].NList? && args[1].NStatement? then NList(args[0].ss + [args[1].s])
    else if rule == 2 then NList([])
    else if rule == 3 && |args| == 3 && args[0].Tok? && args[2].NValue? then NStatement(Setting(args[0].t.text, args[2].v))
    else if rule == 6 then NStatement(Blank)
    else if rule == 11 then NValue(EmptyLine)
    else if rule == 12 then NValue(EmptyNul)
    else if rule == 16 && |args| == 2 && args[1].NExpr? && args[1].e.One? then NExpr(One(Tilde(args[1].e.u)))
    else if rule == 17 && |args| == 2 && args[1].NExpr? && args[1].e.One? then NExpr(One(Bang(args[1].e.u)))
    else if rule == 18 && |args| == 3 && args[1].NExpr? then NExpr(One(Paren(args[1].e)))
    else if (rule == 14 || rule == 15) && |args| == 3 && args[0].NExpr? && args[2].NExpr? && args[2].e.One? then
      NExpr(Bin(args[0].e, if rule == 14 then OR else AND, args[2].e.u))
    else if |args| != 1 then Bad
    else if args[0].Tok? then
      if rule == 4 then NStatement(Bare(args[0].t.text))
      else if rule == 5 then NStatement(Section(args[0].t.text))
      else if rule == 8 then NValue(Encapsulated(args[0].t.text))
      else if rule == 9 then NValue(True(args[0].t.text))
      else if rule == 10 then NValue(False(args[0].t.text))
      else if rule == 19 then NConst(args[0].t.text)
      else Bad
    else if rule == 7 && args[0].NExpr? then NValue(Computed(args[0].e))
    else if rule == 13 && args[0].NConst? then NExpr(One(Const(args[0].name)))
    else Bad
  }

  /** The calls a reduction makes. */
  function CallsOf(env: Env, sym: Sym): seq<Call> {
    if sym.NStatement? then CallsS(env, sym.s) else []
  }

  function ReduceBy(env: Env, c: Config, rule: nat): Config
    requires c.Running? && c.Ok() && 1 <= rule <= 19
  {
    var len := Length(rule);
    if len > |c.syms| then Done(1, c.calls)
    else
      var n := |c.syms| - len;
      var sym := Reduced(rule, c.syms[n..]);
      var g := Goto(c.states[n], LeftSide(rule));
      if g < 0 || g >= 28 then Done(1, c.calls)
      else Push(c.states[..n + 1], c.syms[..n] + [sym], c.rest, c.calls + CallsOf(env, sym), g)
  }

  function Step(env: Env, c: Config): Config {
    if c.Done? || !c.Ok() then c
    else
      match ActionFor(c.Top(), c.Lookahead())
      case Accept => Done(0, c.calls)
      case Error => Done(1, c.calls)
      case Shift(n) =>
        if c.rest == [] then Push(c.states, c.syms + [Eof], [], c.calls, n)
        else Push(c.states, c.syms + [Tok(c.rest[0])], c.rest[1..], c.calls, n)
      case Reduce(rule) => if 1 <= rule <= 19 then ReduceBy(env, c, rule) else Done(1, c.calls)
  }

  function Steps(env: Env, c: Config, n: nat): Config
    decreases n
  {
    if n == 0 then c else Steps(env, Step(env, c), n - 1)
  }

  /** The most states that the stack holds in the course of n steps. */
  function Peak(env: Env, c: Config, n: nat): nat
    decreases n
  {
    if n == 0 then Height(c) else Max(Height(c), Peak(env, Step(env, c), n - 1))
  }

  /** In n steps the machine gets from a to b, its stack being as high as d in between and no higher. */
  ghost predicate Reaches(env: Env, a: Config, n: nat, b: Config, d: nat) { Steps(env, a, n) == b && Peak(env, a, n) == d }

  lemma {:induction false} PeakAdd(env: Env, c: Config, a: nat, b: nat)
    ensures Peak(env, c, a + b) == Max(Peak(env, c, a), Peak(env, Steps(env, c, a), b))
    decreases a
  {
    hide Step, Height;
    if a > 0 {
      PeakAdd(env, Step(env, c), a - 1, b);
    } else {
      PeakAtLeast(env, c, b, 0);
    }
  }

  lemma {:induction false} PeakAtLeast(env: Env, c: Config, n: nat, k: nat)
    requires k <= n
    ensures Height(Steps(env, c, k)) <= Peak(env, c, n)
    decreases n
  {
    hide Step, Height;
    if k > 0 {
      PeakAtLeast(env, Step(env, c), n - 1, k - 1);
    }
  }

  function Start(tokens: seq<Token>): Config { Running([0], [], tokens, []) }

  lemma {:induction false} StepsAdd(env: Env, c: Config, a: nat, b: nat)
    ensures Steps(env, Steps(env, c, a), b) == Steps(env, c, a + b)
    decreases a
  {
    if a > 0 {
      StepsAdd(env, Step(env, c), a - 1, b);
    }
  }

  lemma {:induction false} StepsDone(env: Env, c: Config, n: nat)
    requires c.Done?
    ensures Steps(env, c, n) == c
    decreases n
  {
    if n > 0 {
      StepsDone(env, c, n - 1);
    }
  }

  /** The result, once there is one, is the only one. */
  lemma SameResult(env: Env, c: Config, a: nat, b: nat)
    requires Steps(env, c, a).Done? && Steps(env, c, b).Done?
    ensures Steps(env, c, a) == Steps(env, c, b)
  {
    hide Step;
    if a <= b {
      StepsAdd(env, c, a, b - a);
      StepsDone(env, Steps(env, c, a), b - a);
    } else {
      StepsAdd(env, c, b, a - b);
      StepsDone(env, Steps(env, c, b), a - b);
    }
  }

  // Which symbol leads from which state to which

  ghost predicate IsTok(s: Sym, code: int) { s.Tok? && s.t.code == code && (s.t.text == "" || TC_STRING <= code <= CFG_FALSE) }

  /** An expression that an operator may be applied to as it stands. */
  ghost predicate IsUnary(s: Sym) { s.NExpr? && s.e.One? && WellFormedE(s.e) }

  ghost predicate IsExpr(s: Sym) { s.NExpr? && WellFormedE(s.e) }

  ghost predicate Edge(p: nat, s: Sym, q: nat) {
    if q == 1 then p == 0 && s.NList? && forall x :: x in s.ss ==> WellFormedS(x)
    else if q == 2 then p == 1 && IsTok(s, TC_STRING)
    else if q == 3 then p == 1 && IsTok(s, SECTION)
    else if q == 4 then p == 1 && IsTok(s, NEWLINE)
    else if q == 5 then p == 1 && s.NStatement? && WellFormedS(s.s)
    else if q == 6 then p == 2 && IsTok(s, EQUALS)
    else if q == 7 then Begins(p) && IsTok(s, TC_STRING)
    else if q == 8 then p == 6 && IsTok(s, TC_ENCAPSULATED_STRING)
    else if q == 9 then p == 6 && IsTok(s, CFG_TRUE)
    else if q == 10 then p == 6 && IsTok(s, CFG_FALSE)
    else if q == 11 then Begins(p) && IsTok(s, TILDE)
    else if q == 12 then Begins(p) && IsTok(s, BANG)
    else if q == 13 then p == 6 && IsTok(s, NEWLINE)
    else if q == 14 then p == 6 && IsTok(s, NUL)
    else if q == 15 then Begins(p) && IsTok(s, OPEN)
    else if q == 16 then p == 6 && s.NValue? && (s.v.Computed? ==> WellFormedE(s.v.e))
    else if q == 17 then p == 6 && IsExpr(s)
    else if q == 18 then Begins(p) && s.NConst?
    else if q == 19 then p == 11 && IsUnary(s)
    else if q == 20 then p == 12 && IsUnary(s)
    else if q == 21 then p == 15 && IsExpr(s)
    else if q == 22 then (p == 17 || p == 21) && IsTok(s, OR)
    else if q == 23 then (p == 17 || p == 21) && IsTok(s, AND)
    else if q == 24 then p == 21 && IsTok(s, CLOSE)
    else if q == 25 then p == 22 && IsUnary(s)
    else if q == 26 then p == 23 && IsUnary(s)
    else q == 27 && p == 1 && s.Eof?
  }

  ghost predicate Linked(states: seq<nat>, syms: seq<Sym>) {
    && |states| == |syms| + 1 && states[0] == 0
    && forall i :: 0 <= i < |syms| ==> Edge(states[i], syms[i], states[i + 1])
  }

  /** The tokens a symbol has been made of. */
  function Yield(s: Sym): seq<Token> {
    match s
    case Tok(t) => [t]
    case NList(ss) => Print(ss)
    case NStatement(x) => PrintS(x)
    case NValue(v) => PrintV(v)
    case NExpr(e) => PrintE(e)
    case NConst(n) => [Token(TC_STRING, n)]
    case _ => []
  }

  function Yields(syms: seq<Sym>): seq<Token>
    decreases |syms|
  {
    if syms == [] then [] else Yields(syms[..|syms| - 1]) + Yield(syms[|syms| - 1])
  }

  function Made(env: Env, s: Sym): seq<Call> {
    if s.NList? then Calls(env, s.ss) else if s.NStatement? then CallsS(env, s.s) else []
  }

  function AllMade(env: Env, syms: seq<Sym>): seq<Call>
    decreases |syms|
  {
    if syms == [] then [] else AllMade(env, syms[..|syms| - 1]) + Made(env, syms[|syms| - 1])
  }

  /** What holds at every step of parsing the tokens of input. */
  ghost predicate Sound(env: Env, input: seq<Token>, c: Config) {
    c.Running? && Linked(c.states, c.syms) &&
    Yields(c.syms) + c.rest == input && c.calls == AllMade(env, c.syms) &&
    (forall t :: t in c.rest ==> Lexed(t)) && (c.states[|c.states| - 1] == 27 ==> c.rest == [])
  }

  lemma LinkedOk(states: seq<nat>, syms: seq<Sym>)
    requires Linked(states, syms)
    ensures forall i :: 0 <= i < |states| ==> states[i] < 28
  {
    forall i | 0 <= i < |states|
      ensures states[i] < 28
    {
      if i > 0 {
        assert Edge(states[i - 1], syms[i - 1], states[i]);
      }
    }
  }

  lemma {:induction false} YieldsAppend(a: seq<Sym>, b: seq<Sym>)
    ensures Yields(a + b) == Yields(a) + Yields(b)
    decreases |b|
  {
    if b == [] {
      assert a + b == a;
    } else {
      assert (a + b)[..|a + b| - 1] == a + b[..|b| - 1];
      YieldsAppend(a, b[..|b| - 1]);
      assert Yields(a) + (Yields(b[..|b| - 1]) + Yield(b[|b| - 1])) == (Yields(a) + Yields(b[..|b| - 1])) + Yield(b[|b| - 1]);
    }
  }

  lemma {:induction false} MadeAppend(env: Env, a: seq<Sym>, b: seq<Sym>)
    ensures AllMade(env, a + b) == AllMade(env, a) + AllMade(env, b)
    decreases |b|
  {
    if b == [] {
      assert a + b == a;
    } else {
      assert (a + b)[..|a + b| - 1] == a + b[..|b| - 1];
      MadeAppend(env, a, b[..|b| - 1]);
      var x, y, z := AllMade(env, a), AllMade(env, b[..|b| - 1]), Made(env, b[|b| - 1]);
      assert x + (y + z) == (x + y) + z;
    }
  }

  lemma YieldsOne(s: Sym)
    ensures Yields([s]) == Yield(s)
  {
    assert [s][..0] == [];
    assert [] + Yield(s) == Yield(s);
  }

  lemma MadeOne(env: Env, s: Sym)
    ensures AllMade(env, [s]) == Made(env, s)
  {
    assert [s][..0] == [];
    assert [] + Made(env, s) == Made(env, s);
  }
}
