/** What the parser accepts is in the grammar, and the calls it makes are the meaning of what it read. */
module IniSoundness {
  import opened IniGrammar
  import opened IniTables
  import opened IniMachine

  /** The symbols args above state p are what a rule reduces, to sym and into state g. */
  ghost predicate Fits(env: Env, p: nat, args: seq<Sym>, rule: nat, sym: Sym, g: nat) {
    && p < 28 && 1 <= rule <= 19 && |args| == Length(rule) && g < 27
    && Reduced(rule, args) == sym && Goto(p, LeftSide(rule)) == g
    && Edge(p, sym, g) && Yields(args) == Yield(sym) && AllMade(env, args) + CallsOf(env, sym) == Made(env, sym)
  }

  lemma YieldsTwo(env: Env, x: Sym, y: Sym)
    ensures Yields([x, y]) == Yield(x) + Yield(y) && AllMade(env, [x, y]) == Made(env, x) + Made(env, y)
  {
    assert [x, y] == [x] + [y];
    YieldsAppend([x], [y]);
    MadeAppend(env, [x], [y]);
    YieldsOne(x);
    YieldsOne(y);
    MadeOne(env, x);
    MadeOne(env, y);
  }

  lemma YieldsThree(env: Env, x: Sym, y: Sym, z: Sym)
    ensures Yields([x, y, z]) == Yield(x) + Yield(y) + Yield(z)
    ensures AllMade(env, [x, y, z]) == Made(env, x) + Made(env, y) + Made(env, z)
  {
    assert [x, y, z] == [x, y] + [z];
    YieldsTwo(env, x, y);
    YieldsAppend([x, y], [z]);
    MadeAppend(env, [x, y], [z]);
    YieldsOne(z);
    MadeOne(env, z);
  }

  // The rules by the number of symbols they consume

  lemma FitsNone(env: Env)
    ensures Fits(env, 0, [], 2, NList([]), 1)
  {
    hide Length, LeftSide, Goto;
    GotoOther();
    Rules(2);
  }

  lemma FitsLine(env: Env, p: nat, x: Sym, q: nat, rule: nat)
    requires Edge(p, x, q) && 2 <= q <= 4 && rule == q + 2
    ensures Fits(env, p, [x], rule, NStatement(if q == 2 then Bare(x.t.text) else if q == 3 then Section(x.t.text) else Blank), 5)
  {
    hide Length, LeftSide, Goto;
    GotoOther();
    Rules(rule);
    YieldsOne(x);
    MadeOne(env, x);
  }

  lemma FitsText(env: Env, p: nat, x: Sym, q: nat)
    requires Edge(p, x, q) && 8 <= q <= 10
    ensures Fits(env, p, [x], q, NValue(if q == 8 then Encapsulated(x.t.text) else if q == 9 then True(x.t.text) else False(x.t.text)), 16)
  {
    hide Length, LeftSide, Goto;
    GotoOther();
    Rules(q);
    YieldsOne(x);
    MadeOne(env, x);
  }

  lemma FitsEmpty(env: Env, p: nat, x: Sym, q: nat)
    requires Edge(p, x, q) && (q == 13 || q == 14)
    ensures Fits(env, p, [x], q - 2, NValue(if q == 13 then EmptyLine else EmptyNul), 16)
  {
    hide Length, LeftSide, Goto;
    GotoOther();
    Rules(q - 2);
    YieldsOne(x);
    MadeOne(env, x);
  }

  lemma FitsComputed(env: Env, p: nat, x: Sym)
    requires Edge(p, x, 17)
    ensures Fits(env, p, [x], 7, NValue(Computed(x.e)), 16)
  {
    hide Length, LeftSide, Goto;
    GotoOther();
    Rules(7);
    YieldsOne(x);
    MadeOne(env, x);
  }

  lemma FitsName(env: Env, p: nat, x: Sym)
    requires Edge(p, x, 7)
    ensures Fits(env, p, [x], 19, NConst(x.t.text), 18)
  {
    hide Length, LeftSide, Goto;
    GotoExpr(p);
    Rules(19);
    YieldsOne(x);
    MadeOne(env, x);
  }

  lemma FitsConst(env: Env, p: nat, x: Sym)
    requires Edge(p, x, 18)
    ensures Fits(env, p, [x], 13, NExpr(One(Const(x.name))), ExprGoto(p))
  {
    hide Length, LeftSide, Goto;
    GotoExpr(p);
    Rules(13);
    assert WellFormedU(Const(x.name)) && PrintE(One(Const(x.name))) == PrintU(Const(x.name));
    YieldsOne(x);
    MadeOne(env, x);
  }

  lemma FitsStatement(env: Env, p: nat, x: Sym, y: Sym)
    requires Edge(p, x, 1) && Edge(1, y, 5)
    ensures Fits(env, p, [x, y], 1, NList(x.ss + [y.s]), 1)
  {
    hide Length, LeftSide, Goto;
    GotoOther();
    Rules(1);
    YieldsTwo(env, x, y);
    var ss := x.ss + [y.s];
    assert ss[..|ss| - 1] == x.ss;
  }

  lemma FitsPrefix(env: Env, p: nat, x: Sym, m: nat, y: Sym, q: nat)
    requires Edge(p, x, m) && Edge(m, y, q) && (q == 19 || q == 20)
    ensures Fits(env, p, [x, y], q - 3, NExpr(One(if q == 19 then Tilde(y.e.u) else Bang(y.e.u))), ExprGoto(p))
  {
    hide Length, LeftSide, Goto;
    GotoExpr(p);
    Rules(q - 3);
    var u := if q == 19 then Tilde(y.e.u) else Bang(y.e.u);
    assert WellFormedE(y.e) && WellFormedU(u) && PrintE(One(u)) == PrintU(u) && PrintE(y.e) == PrintU(y.e.u);
    YieldsTwo(env, x, y);
  }

  lemma FitsSetting(env: Env, p: nat, x: Sym, y: Sym, z: Sym)
    requires Edge(p, x, 2) && Edge(2, y, 6) && Edge(6, z, 16)
    ensures Fits(env, p, [x, y, z], 3, NStatement(Setting(x.t.text, z.v)), 5)
  {
    hide Length, LeftSide, Goto;
    GotoOther();
    Rules(3);
    YieldsThree(env, x, y, z);
  }

  lemma FitsBinary(env: Env, p: nat, x: Sym, m: nat, y: Sym, n: nat, z: Sym, q: nat)
    requires Edge(p, x, m) && Edge(m, y, n) && Edge(n, z, q) && (q == 25 || q == 26)
    ensures Fits(env, p, [x, y, z], q - 11, NExpr(Bin(x.e, if q == 25 then OR else AND, z.e.u)), ExprGoto(p))
  {
    hide Length, LeftSide, Goto;
    GotoExpr(p);
    Rules(q - 11);
    YieldsThree(env, x, y, z);
  }

  lemma FitsParen(env: Env, p: nat, x: Sym, y: Sym, z: Sym)
    requires Edge(p, x, 15) && Edge(15, y, 21) && Edge(21, z, 24)
    ensures Fits(env, p, [x, y, z], 18, NExpr(One(Paren(y.e))), ExprGoto(p))
  {
    hide Length, LeftSide, Goto;
    GotoExpr(p);
    Rules(18);
    assert WellFormedU(Paren(y.e)) && PrintE(One(Paren(y.e))) == PrintU(Paren(y.e));
    YieldsThree(env, x, y, z);
  }

  lemma ReduceIs(env: Env, c: Config, n: nat, rule: nat, sym: Sym, g: nat)
    requires c.Running? && c.Ok() && n <= |c.syms| && Fits(env, c.states[n], c.syms[n..], rule, sym, g)
    ensures ReduceBy(env, c, rule) == Push(c.states[..n + 1], c.syms[..n] + [sym], c.rest, c.calls + CallsOf(env, sym), g)
  {
    hide Edge, Reduced, Goto, Yields, Yield, AllMade, Made, CallsOf, Length, LeftSide, Push;
  }

  /** The stack after the symbols of args have been replaced by one. */
  lemma Replaced(env: Env, input: seq<Token>, c: Config, n: nat, rule: nat, sym: Sym, g: nat)
    requires Sound(env, input, c) && n <= |c.syms| && n < |c.states| && Fits(env, c.states[n], c.syms[n..], rule, sym, g)
    ensures c.Ok() && ReduceBy(env, c, rule).Running? && Sound(env, input, ReduceBy(env, c, rule))
    ensures Shaped(c, rule)
  {
    hide Edge, Reduced, Goto, Yields, Yield, AllMade, Made, CallsOf, Length, LeftSide, Linked, ReduceBy;
    LinkedOk(c.states, c.syms);
    LinkedSize(c.states, c.syms);
    ReduceIs(env, c, n, rule, sym, g);
    NotBad(c.states[n], sym, g);
    LinkedReplaced(c.states, c.syms, n, sym, g);
    YieldsReplaced(env, c.syms, n, sym);
    var a, b := c.syms[..n], c.syms[n..];
    assert Yields(a) + (Yield(sym) + c.rest) == (Yields(a) + Yield(sym)) + c.rest;
  }

  lemma NotBad(p: nat, sym: Sym, g: nat)
    requires Edge(p, sym, g)
    ensures sym != Bad
  {
  }

  /** On top of the stack is what the rule reduces. */
  ghost predicate Shaped(c: Config, rule: nat) {
    c.Running? && 1 <= rule <= 19 && c.Ok() && Length(rule) <= |c.syms| &&
    var n := |c.syms| - Length(rule);
    Reduced(rule, c.syms[n..]) != Bad && 0 <= Goto(c.states[n], LeftSide(rule)) < 28
  }

  lemma LinkedSize(states: seq<nat>, syms: seq<Sym>)
    requires Linked(states, syms)
    ensures |states| == |syms| + 1 && states[0] == 0
  {
  }

  lemma YieldsReplaced(env: Env, syms: seq<Sym>, n: nat, sym: Sym)
    requires n <= |syms| && Yields(syms[n..]) == Yield(sym)
    requires AllMade(env, syms[n..]) + CallsOf(env, sym) == Made(env, sym)
    ensures Yields(syms[..n] + [sym]) == Yields(syms)
    ensures AllMade(env, syms[..n] + [sym]) == AllMade(env, syms) + CallsOf(env, sym)
  {
    hide Yields, Yield, AllMade, Made, CallsOf;
    var a, b := syms[..n], syms[n..];
    assert syms == a + b;
    YieldsAppend(a, b);
    MadeAppend(env, a, b);
    YieldsAppend(a, [sym]);
    MadeAppend(env, a, [sym]);
    YieldsOne(sym);
    MadeOne(env, sym);
    assert AllMade(env, a) + (AllMade(env, b) + CallsOf(env, sym)) == (AllMade(env, a) + AllMade(env, b)) + CallsOf(env, sym);
  }

  lemma LinkedReplaced(states: seq<nat>, syms: seq<Sym>, n: nat, sym: Sym, g: nat)
    requires Linked(states, syms) && n <= |syms| && Edge(states[n], sym, g)
    ensures Linked(states[..n + 1] + [g], syms[..n] + [sym])
  {
    hide Edge;
    var s, t := states[..n + 1] + [g], syms[..n] + [sym];
    forall i | 0 <= i < |t|
      ensures Edge(s[i], t[i], s[i + 1])
    {
      if i < n {
        assert Edge(states[i], syms[i], states[i + 1]);
      }
    }
  }

  // One step

  /** The rule a state reduces by, with or without looking ahead. */
  function RuleAt(q: nat): nat { if q == 2 then 4 else if q == 17 then 7 else Rule(q) }

  /** What a sound configuration leads to: another one, or a stop. */
  ghost predicate Goes(env: Env, input: seq<Token>, r: Config) {
    if r.Running? then Sound(env, input, r)
    else (r.ret == 0 ==> Accepted(env, input, r.calls)) && r.ret <= 1
  }

  /** The tokens are a text of the grammar, and the calls are its meaning. */
  ghost predicate Accepted(env: Env, input: seq<Token>, calls: seq<Call>) {
    exists ss :: Reads(env, input, calls, ss)
  }

  ghost predicate Reads(env: Env, input: seq<Token>, calls: seq<Call>, ss: seq<Statement>) {
    (forall s :: s in ss ==> WellFormedS(s)) && Print(ss) == input && Calls(env, ss) == calls
  }

  lemma TopEdge(states: seq<nat>, syms: seq<Sym>)
    requires Linked(states, syms)
    ensures |states| == |syms| + 1 && states[0] == 0
    ensures forall i :: 0 < i <= |syms| ==> Edge(states[i - 1], syms[i - 1], states[i])
    ensures forall i :: 0 <= i < |states| && states[i] != 0 ==> 0 < i
  {
  }

  lemma ReduceOne(env: Env, input: seq<Token>, c: Config)
    requires Sound(env, input, c)
    requires var q := c.states[|c.states| - 1]; (2 <= q <= 4 || 7 <= q <= 10 || q == 13 || q == 14 || q == 17 || q == 18)
    ensures c.Ok() && Goes(env, input, ReduceBy(env, c, RuleAt(c.Top()))) && Shaped(c, RuleAt(c.Top()))
  {
    hide Fits, ReduceBy, Sound, Reduced, Shaped;
    SoundParts(env, input, c);
    TopEdge(c.states, c.syms);
    LinkedOk(c.states, c.syms);
    var k, q := |c.syms|, c.states[|c.states| - 1];
    var p, x := c.states[k - 1], c.syms[k - 1];
    assert c.syms[k - 1..] == [x];
    if q <= 4 {
      FitsLine(env, p, x, q, q + 2);
      Replaced(env, input, c, k - 1, q + 2, NStatement(if q == 2 then Bare(x.t.text) else if q == 3 then Section(x.t.text) else Blank), 5);
    } else if q == 7 {
      FitsName(env, p, x);
      Replaced(env, input, c, k - 1, 19, NConst(x.t.text), 18);
    } else if q <= 10 {
      FitsText(env, p, x, q);
      Replaced(env, input, c, k - 1, q, NValue(if q == 8 then Encapsulated(x.t.text) else if q == 9 then True(x.t.text) else False(x.t.text)), 16);
    } else if q <= 14 {
      FitsEmpty(env, p, x, q);
      Replaced(env, input, c, k - 1, q - 2, NValue(if q == 13 then EmptyLine else EmptyNul), 16);
    } else if q == 17 {
      FitsComputed(env, p, x);
      Replaced(env, input, c, k - 1, 7, NValue(Computed(x.e)), 16);
    } else {
      FitsConst(env, p, x);
      Replaced(env, input, c, k - 1, 13, NExpr(One(Const(x.name))), ExprGoto(p));
    }
  }

  lemma SoundParts(env: Env, input: seq<Token>, c: Config)
    requires Sound(env, input, c)
    ensures c.Running? && Linked(c.states, c.syms) && |c.states| == |c.syms| + 1
  {
  }

  lemma ReduceTwo(env: Env, input: seq<Token>, c: Config)
    requires Sound(env, input, c)
    requires var q := c.states[|c.states| - 1]; q == 5 || q == 19 || q == 20
    ensures c.Ok() && Goes(env, input, ReduceBy(env, c, RuleAt(c.Top()))) && Shaped(c, RuleAt(c.Top()))
  {
    hide Fits, ReduceBy, Sound, Reduced, Shaped;
    SoundParts(env, input, c);
    TopEdge(c.states, c.syms);
    LinkedOk(c.states, c.syms);
    var k, q := |c.syms|, c.states[|c.states| - 1];
    var m, y := c.states[k - 1], c.syms[k - 1];
    assert Edge(m, y, q);
    var p, x := c.states[k - 2], c.syms[k - 2];
    assert Edge(p, x, m);
    assert c.syms[k - 2..] == [x, y];
    if q == 5 {
      FitsStatement(env, p, x, y);
      Replaced(env, input, c, k - 2, 1, NList(x.ss + [y.s]), 1);
    } else {
      FitsPrefix(env, p, x, m, y, q);
      Replaced(env, input, c, k - 2, q - 3, NExpr(One(if q == 19 then Tilde(y.e.u) else Bang(y.e.u))), ExprGoto(p));
    }
  }

  lemma ReduceThree(env: Env, input: seq<Token>, c: Config)
    requires Sound(env, input, c)
    requires var q := c.states[|c.states| - 1]; q == 16 || 24 <= q <= 26
    ensures c.Ok() && Goes(env, input, ReduceBy(env, c, RuleAt(c.Top()))) && Shaped(c, RuleAt(c.Top()))
  {
    hide Fits, ReduceBy, Sound, Reduced, Shaped;
    SoundParts(env, input, c);
    TopEdge(c.states, c.syms);
    LinkedOk(c.states, c.syms);
    var k, q := |c.syms|, c.states[|c.states| - 1];
    var n, z := c.states[k - 1], c.syms[k - 1];
    assert Edge(n, z, q);
    var m, y := c.states[k - 2], c.syms[k - 2];
    assert Edge(m, y, n);
    var p, x := c.states[k - 3], c.syms[k - 3];
    assert Edge(p, x, m);
    assert c.syms[k - 3..] == [x, y, z];
    if q == 16 {
      FitsSetting(env, p, x, y, z);
      Replaced(env, input, c, k - 3, 3, NStatement(Setting(x.t.text, z.v)), 5);
    } else if q == 24 {
      FitsParen(env, p, x, y, z);
      Replaced(env, input, c, k - 3, 18, NExpr(One(Paren(y.e))), ExprGoto(p));
    } else {
      FitsBinary(env, p, x, m, y, n, z, q);
      Replaced(env, input, c, k - 3, q - 11, NExpr(Bin(x.e, if q == 25 then OR else AND, z.e.u)), ExprGoto(p));
    }
  }

  lemma ReduceZero(env: Env, input: seq<Token>, c: Config)
    requires Sound(env, input, c) && c.states[|c.states| - 1] == 0
    ensures c.Ok() && Goes(env, input, ReduceBy(env, c, 2)) && Shaped(c, 2)
  {
    hide Fits, ReduceBy, Sound, Reduced, Shaped;
    SoundParts(env, input, c);
    TopEdge(c.states, c.syms);
    LinkedOk(c.states, c.syms);
    var k := |c.syms|;
    assert k > 0 ==> Edge(c.states[k - 1], c.syms[k - 1], 0);
    assert c.syms[k..] == [];
    FitsNone(env);
    Replaced(env, input, c, k, 2, NList([]), 1);
  }

  lemma Extended(env: Env, states: seq<nat>, syms: seq<Sym>, sym: Sym, n: nat)
    requires Linked(states, syms) && Edge(states[|states| - 1], sym, n)
    ensures Linked(states + [n], syms + [sym])
    ensures Yields(syms + [sym]) == Yields(syms) + Yield(sym)
    ensures AllMade(env, syms + [sym]) == AllMade(env, syms) + Made(env, sym)
  {
    hide Edge, Yields, Yield, AllMade, Made;
    var k := |syms|;
    assert syms[..k] == syms && states[..k + 1] == states;
    LinkedReplaced(states, syms, k, sym, n);
    YieldsAppend(syms, [sym]);
    MadeAppend(env, syms, [sym]);
    YieldsOne(sym);
    MadeOne(env, sym);
  }

  /** A token is pushed. */
  lemma Shifted(env: Env, input: seq<Token>, c: Config, n: nat)
    requires Sound(env, input, c) && c.rest != [] && Edge(c.states[|c.states| - 1], Tok(c.rest[0]), n) && n != 27
    ensures Goes(env, input, Push(c.states, c.syms + [Tok(c.rest[0])], c.rest[1..], c.calls, n))
  {
    hide Edge, Yields, AllMade, Linked, Accepted;
    Extended(env, c.states, c.syms, Tok(c.rest[0]), n);
    assert (Yields(c.syms) + [c.rest[0]]) + c.rest[1..] == Yields(c.syms) + c.rest;
    assert c.calls + [] == c.calls;
  }

  lemma EndShifted(env: Env, input: seq<Token>, c: Config)
    requires Sound(env, input, c) && c.rest == [] && c.states[|c.states| - 1] == 1
    ensures Goes(env, input, Push(c.states, c.syms + [Eof], [], c.calls, 27))
  {
    hide Edge, Yields, AllMade, Linked, Accepted;
    EofEdge();
    Extended(env, c.states, c.syms, Eof, 27);
    assert Yields(c.syms) + [] == Yields(c.syms);
    assert c.calls + [] == c.calls;
  }

  lemma EofEdge()
    ensures Edge(1, Eof, 27)
  {
  }

  /** In the state before acceptance the stack holds the whole text as one list of statements. */
  lemma AtAcceptance(env: Env, input: seq<Token>, c: Config)
    requires Sound(env, input, c) && c.states[|c.states| - 1] == 27
    ensures c.rest == [] && Accepted(env, input, c.calls)
  {
    TopEdge(c.states, c.syms);
    var k := |c.syms|;
    assert Edge(c.states[k - 1], c.syms[k - 1], 27);
    assert Edge(c.states[k - 2], c.syms[k - 2], 1);
    assert k > 2 ==> Edge(c.states[k - 3], c.syms[k - 3], 0);
    var ss := c.syms[0].ss;
    assert c.syms == [c.syms[0], Eof];
    YieldsTwo(env, c.syms[0], Eof);
    assert Reads(env, input, c.calls, ss);
  }

  lemma CodeOf(t: Token)
    requires Lexed(t)
    ensures var n := Translate(t.code);
      n > 0 && (n == 3 ==> IsTok(Tok(t), TC_STRING)) && (n == 4 ==> IsTok(Tok(t), TC_ENCAPSULATED_STRING)) &&
      (n == 5 ==> IsTok(Tok(t), SECTION)) && (n == 6 ==> IsTok(Tok(t), CFG_TRUE)) && (n == 7 ==> IsTok(Tok(t), CFG_FALSE)) &&
      (n == 8 ==> IsTok(Tok(t), OR)) && (n == 9 ==> IsTok(Tok(t), AND)) && (n == 10 ==> IsTok(Tok(t), TILDE)) &&
      (n == 11 ==> IsTok(Tok(t), BANG)) && (n == 12 ==> IsTok(Tok(t), EQUALS)) && (n == 13 ==> IsTok(Tok(t), NEWLINE)) &&
      (n == 14 ==> IsTok(Tok(t), NUL)) && (n == 15 ==> IsTok(Tok(t), OPEN)) && (n == 16 ==> IsTok(Tok(t), CLOSE))
  {
  }

  /** The action in every state, and that a shift follows an edge. */
  lemma ActionKinds(c: Config)
    requires c.Running? && c.Ok() && (c.rest != [] ==> Lexed(c.rest[0])) && (c.Top() == 27 ==> c.rest == [])
    ensures var a := ActionFor(c.Top(), c.Lookahead()); var q := c.Top();
      && (a.Accept? ==> q == 27) && (a.Reduce? ==> RuleAt(q) == a.rule && (RuleAt(q) != 0))
      && (a.Shift? ==> if c.rest == [] then q == 1 && a.state == 27 else Edge(q, Tok(c.rest[0]), a.state) && a.state != 27)
  {
    var q, ch := c.Top(), c.Lookahead();
    hide Translate, ActionFor, IsTok;
    if c.rest != [] {
      CodeOf(c.rest[0]);
    } else {
      EndIsZero();
    }
    if Rule(q) != 0 {
      Reducing(q, ch);
    } else if q == 1 {
      AtStatement(ch);
    } else if q == 2 {
      AfterName(ch);
    } else if q == 6 {
      AfterEquals(ch);
    } else if q == 17 {
      AfterValueExpr(ch);
    } else if q == 21 {
      InParentheses(ch);
    } else if q == 27 {
      AtEnd();
    } else {
      AtOperand(q, ch);
    }
  }

  lemma EndIsZero()
    ensures Translate(0) == 0
  {
  }

  lemma StartSound(env: Env, input: seq<Token>)
    requires forall t :: t in input ==> Lexed(t)
    ensures Sound(env, input, Start(input))
  {
    assert [] + input == input;
  }

  /** Every step keeps a parse sound. */
  lemma StepSound(env: Env, input: seq<Token>, c: Config)
    requires Sound(env, input, c)
    ensures c.Ok() && Goes(env, input, Step(env, c))
  {
    hide Sound, Edge, ActionFor, ReduceBy, Push, Accepted;
    SoundParts(env, input, c);
    LinkedOk(c.states, c.syms);
    RestLexed(env, input, c);
    ActionKinds(c);
    var a, q := ActionFor(c.Top(), c.Lookahead()), c.Top();
    if a.Accept? {
      AtAcceptance(env, input, c);
    } else if a.Shift? {
      if c.rest == [] {
        EndShifted(env, input, c);
      } else {
        Shifted(env, input, c, a.state);
      }
    } else if a.Reduce? {
      ReduceAny(env, input, c);
    }
  }

  lemma RestLexed(env: Env, input: seq<Token>, c: Config)
    requires Sound(env, input, c)
    ensures (c.rest != [] ==> Lexed(c.rest[0])) && (c.states[|c.states| - 1] == 27 ==> c.rest == [])
  {
  }

  lemma ReduceAny(env: Env, input: seq<Token>, c: Config)
    requires Sound(env, input, c) && RuleAt(c.states[|c.states| - 1]) != 0
    ensures c.Ok() && 1 <= RuleAt(c.Top()) <= 19 && Goes(env, input, ReduceBy(env, c, RuleAt(c.Top())))
    ensures Shaped(c, RuleAt(c.Top()))
  {
    hide Sound, ReduceBy, Goes, Shaped;
    SoundParts(env, input, c);
    LinkedOk(c.states, c.syms);
    var q := c.states[|c.states| - 1];
    if q == 0 {
      ReduceZero(env, input, c);
    } else if q == 5 || q == 19 || q == 20 {
      ReduceTwo(env, input, c);
    } else if q == 16 || 24 <= q <= 26 {
      ReduceThree(env, input, c);
    } else {
      ReduceOne(env, input, c);
    }
  }

  lemma {:induction false} StepsSound(env: Env, input: seq<Token>, c: Config, n: nat)
    requires Sound(env, input, c)
    ensures Goes(env, input, Steps(env, c, n))
    decreases n
  {
    hide Sound, Step, Accepted;
    SoundParts(env, input, c);
    if n > 0 {
      StepSound(env, input, c);
      if Step(env, c).Running? {
        StepsSound(env, input, Step(env, c), n - 1);
      } else {
        StepsDone(env, Step(env, c), n - 1);
      }
    }
  }

  /** Soundness: the parser returns 0 only on texts of the grammar, having called back with their meaning. */
  lemma AcceptsOnlyGrammar(env: Env, input: seq<Token>, n: nat)
    requires (forall t :: t in input ==> Lexed(t)) && Steps(env, Start(input), n).Done? && Steps(env, Start(input), n).ret == 0
    ensures Accepted(env, input, Steps(env, Start(input), n).calls)
  {
    StartSound(env, input);
    StepsSound(env, input, Start(input), n);
  }
}
