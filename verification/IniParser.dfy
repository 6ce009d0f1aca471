/** yyparse: the engine that runs the tables, on stacks that it grows itself. */
module IniParser {
  import opened IniGrammar
  import opened IniTables
  import opened IniMachine
  import opened IniSoundness
  import opened IniCompleteness

  /** The state stack yyss and the value stack yyvs, which always rise and fall together. */
  class Stacks {
    var yyss: array<nat>
    var yyvs: array<string>
    var yystacksize: nat
    var yyssp: int

    ghost predicate Valid()
      reads this
    {
      && yyss.Length == yyvs.Length == yystacksize && YYINITDEPTH <= yystacksize <= YYMAXDEPTH
      && -1 <= yyssp < yystacksize - 1
    }

    ghost function States(): seq<nat>
      reads this, yyss
      requires Valid()
    {
      yyss[..yyssp + 1]
    }

    ghost function Values(): seq<string>
      reads this, yyvs
      requires Valid()
    {
      yyvs[..yyssp + 1]
    }

    constructor ()
      ensures Valid() && fresh(yyss) && fresh(yyvs) && States() == [] && Values() == []
    {
      yystacksize := YYINITDEPTH;
      yyss := new nat[YYINITDEPTH](_ => 0);
      yyvs := new string[YYINITDEPTH](_ => "");
      yyssp := -1;
    }

    /** Larger stacks with the same contents. */
    method Grow()
      requires yyss.Length == yyvs.Length == yystacksize && YYINITDEPTH <= yystacksize < YYMAXDEPTH
      modifies `yyss, `yyvs, `yystacksize
      ensures yyss.Length == yyvs.Length == yystacksize && old(yystacksize) < yystacksize <= YYMAXDEPTH
      ensures yyss[..old(yystacksize)] == old(yyss[..]) && yyvs[..old(yystacksize)] == old(yyvs[..])
      ensures fresh(yyss) && fresh(yyvs)
    {
      yystacksize := if yystacksize * 2 > YYMAXDEPTH then YYMAXDEPTH else yystacksize * 2;
      var ss, vs := yyss, yyvs;
      yyss := new nat[yystacksize](i requires i >= 0 reads ss => if i < ss.Length then ss[i] else 0);
      yyvs := new string[yystacksize](i requires i >= 0 reads vs => if i < vs.Length then vs[i] else "");
      assert yyss[..ss.Length] == ss[..] && yyvs[..vs.Length] == vs[..];
    }

    /** yynewstate: a value and the state above it are pushed; full stacks are doubled, up to YYMAXDEPTH. */
    method Push(state: nat, value: string) returns (overflow: bool)
      requires Valid()
      modifies this, yyss, yyvs
      ensures overflow == (|old(States())| + 1 >= YYMAXDEPTH)
      ensures !overflow ==> Valid() && States() == old(States()) + [state] && Values() == old(Values()) + [value]
      ensures !overflow ==> (yyss == old(yyss) || fresh(yyss)) && (yyvs == old(yyvs) || fresh(yyvs))
    {
      yyssp := yyssp + 1;
      yyss[yyssp] := state;
      yyvs[yyssp] := value;
      overflow := false;
      if yyssp >= yystacksize - 1 {
        if yystacksize >= YYMAXDEPTH {
          return true;
        }
        ghost var ss, vs := yyss[..], yyvs[..];
        Grow();
        assert yyss[..yyssp + 1] == ss && yyvs[..yyssp + 1] == vs;
      }
    }

    method TopState(env: Env, ghost c: Config) returns (q: nat)
      requires Show(env, c) && c.Ok()
      ensures q == c.Top()
    {
      assert yyss[yyssp] == States()[|States()| - 1];
      q := yyss[yyssp];
    }

    lemma Known(env: Env, c: Config)
      requires Show(env, c) && c.Ok()
      ensures Valid() && yyssp >= 0 && forall q :: q in States() ==> q < 28
    {
      assert |States()| == yyssp + 1;
    }

    method Pop(len: nat)
      requires Valid() && len <= |States()|
      modifies `yyssp
      ensures Valid() && States() == old(States())[..|old(States())| - len] && Values() == old(Values())[..|old(Values())| - len]
    {
      yyssp := yyssp - len;
    }

    /** The stacks are those of a configuration. */
    ghost predicate Show(env: Env, c: Config)
      reads this, yyss, yyvs
    {
      Valid() && c.Running? && States() == c.states && Mirrors(env, Values(), c.syms)
    }
  }

  /** The semantic value of a symbol that has one. */
  function ValueOf(env: Env, s: Sym): string {
    match s
    case Tok(t) => t.text
    case NValue(v) => MeanV(env, v)
    case NExpr(e) => MeanE(env, e)
    case NConst(n) => env.constant(n)
    case _ => ""
  }

  predicate HasValue(s: Sym) { s.Tok? || s.NValue? || s.NExpr? || s.NConst? }

  /** The value stack holds the values of the symbols; its lowest place is wasted. */
  ghost predicate Mirrors(env: Env, values: seq<string>, syms: seq<Sym>) {
    |values| == |syms| + 1 && forall i :: 0 <= i < |syms| && HasValue(syms[i]) ==> values[i + 1] == ValueOf(env, syms[i])
  }

  /** The values are those of the symbols. */
  ghost predicate Shows(env: Env, values: seq<string>, syms: seq<Sym>) {
    |values| == |syms| && forall i :: 0 <= i < |syms| && HasValue(syms[i]) ==> values[i] == ValueOf(env, syms[i])
  }

  /** The semantic actions that compute a value; args are the values on the right-hand side, keep is what yyval held. */
  function ActionValue(env: Env, rule: nat, args: seq<string>, keep: string): string {
    if rule == 11 || rule == 12 then ""
    else if rule == 14 && |args| == 3 then env.op(OR, args[0], args[2])
    else if rule == 15 && |args| == 3 then env.op(AND, args[0], args[2])
    else if rule == 16 && |args| == 2 then env.op(TILDE, args[1], "")
    else if rule == 17 && |args| == 2 then env.op(BANG, args[1], "")
    else if rule == 18 && |args| == 3 then args[1]
    else if rule == 19 && |args| == 1 then env.constant(args[0])
    else if |args| > 0 then args[0]
    else keep
  }

  /** The semantic actions that call back. */
  function ActionCalls(rule: nat, args: seq<string>): seq<Call> {
    if rule == 3 && |args| == 3 then [Entry(args[0], args[2])]
    else if rule == 4 && |args| == 1 then [EntryOnly(args[0])]
    else if rule == 5 && |args| == 1 then [SectionCall(args[0])]
    else []
  }

  /** The actions compute what the symbols mean. */
  lemma ActionsRight(env: Env, rule: nat, args: seq<Sym>, values: seq<string>, keep: string)
    requires 1 <= rule <= 19 && |args| == Length(rule) == |values| && Reduced(rule, args) != Bad
    requires Shows(env, values, args)
    ensures var sym := Reduced(rule, args);
      (HasValue(sym) ==> ActionValue(env, rule, values, keep) == ValueOf(env, sym)) &&
      ActionCalls(rule, values) == CallsOf(env, sym)
  {
    hide Length;
    Rules(rule);
    var sym := Reduced(rule, args);
    if rule == 13 {
      assert MeanE(env, sym.e) == MeanU(env, Const(args[0].name));
    } else if rule == 16 || rule == 17 {
      assert MeanE(env, sym.e) == MeanU(env, sym.e.u) && MeanE(env, args[1].e) == MeanU(env, args[1].e.u);
    } else if rule == 18 {
      assert MeanE(env, sym.e) == MeanU(env, Paren(args[1].e));
    } else if rule == 14 || rule == 15 {
      assert MeanE(env, args[2].e) == MeanU(env, args[2].e.u);
      assert MeanE(env, sym.e) == env.op(if rule == 14 then OR else AND, MeanE(env, args[0].e), MeanU(env, args[2].e.u));
    }
  }

  // Termination

  function Rank(q: nat): nat {
    if q == 7 then 4 else if q == 18 then 3
    else if q == 17 || q == 19 || q == 20 || q == 21 || q == 25 || q == 26 then 2
    else if q == 8 || q == 9 || q == 10 || q == 13 || q == 14 || q == 2 || q == 3 || q == 4 then 2
    else if q == 16 || q == 5 then 1 else 0
  }

  function Reductions(c: Config): nat
    requires c.Running? && c.Ok()
  {
    8 * |c.states| + Rank(c.Top()) + if |c.states| == 1 then 100 else 0
  }

  /** A reduction brings the stack closer to the next shift. */
  lemma ReduceMeasure(env: Env, input: seq<Token>, c: Config)
    requires Sound(env, input, c) && c.Ok() && RuleAt(c.Top()) != 0 && ReduceBy(env, c, RuleAt(c.Top())).Running?
    ensures var r := ReduceBy(env, c, RuleAt(c.Top()));
      r.Ok() && r.rest == c.rest && r.Top() != 27 && c.Top() != 27 && Reductions(r) < Reductions(c)
  {
    hide Fits, Goes, Sound, Goto, LeftSide, Length, ReduceBy, Edge, Reduced, Rank, Rule;
    ReduceAny(env, input, c);
    var rule := RuleAt(c.Top());
    var r := ReduceBy(env, c, rule);
    Rules(rule);
    ReduceLook(env, c, rule);
    GoesOnSound(env, input, r);
    LinkedOk(r.states, r.syms);
    TopEdge(r.states, r.syms);
    var g := r.Top();
    assert Edge(r.states[|r.states| - 2], r.syms[|r.syms| - 1], g);
    OnlyStart(env, input, c);
    ReducedKind(rule, c.syms[|c.syms| - Length(rule)..]);
    RankFalls(c.Top(), rule, r.states[|r.states| - 2], r.syms[|r.syms| - 1], g);
  }

  /** A rule with one symbol leads to a state nearer to the next shift. */
  lemma RankFalls(q: nat, rule: nat, p: nat, s: Sym, g: nat)
    requires 1 <= rule <= 19 && rule == RuleAt(q) && Edge(p, s, g)
    requires (3 <= rule <= 6 ==> s.NStatement?) && (7 <= rule <= 12 ==> s.NValue?) && (13 <= rule <= 18 ==> s.NExpr?)
    requires (rule == 19 ==> s.NConst?) && (rule <= 2 ==> s.NList?)
    ensures Length(rule) == 1 ==> Rank(g) < Rank(q)
    ensures g != 27 && q != 27 && (rule == 2 <==> q == 0) && Rank(g) <= 4 && (Length(rule) == 0 <==> rule == 2)
  {
    hide Length;
    Rules(rule);
  }

  lemma GoesOnSound(env: Env, input: seq<Token>, r: Config)
    requires Goes(env, input, r) && r.Running?
    ensures Sound(env, input, r) && Linked(r.states, r.syms)
  {
  }

  lemma ReduceLook(env: Env, c: Config, rule: nat)
    requires Shaped(c, rule) && ReduceBy(env, c, rule).Running?
    ensures var r := ReduceBy(env, c, rule); var n := |c.syms| - Length(rule);
      r.rest == c.rest && |r.states| == |c.states| - Length(rule) + 1 && |r.syms| == n + 1 &&
      r.syms[n] == Reduced(rule, c.syms[n..])
  {
  }

  lemma OnlyStart(env: Env, input: seq<Token>, c: Config)
    requires Sound(env, input, c)
    ensures c.states[|c.states| - 1] == 0 <==> |c.states| == 1
  {
    TopEdge(c.states, c.syms);
    assert |c.syms| > 0 ==> Edge(c.states[|c.syms| - 1], c.syms[|c.syms| - 1], c.states[|c.syms|]);
  }

  lemma ReducedKind(rule: nat, args: seq<Sym>)
    requires 1 <= rule <= 19 && |args| == Length(rule) && Reduced(rule, args) != Bad
    ensures var s := Reduced(rule, args);
      (3 <= rule <= 6 ==> s.NStatement?) && (7 <= rule <= 12 ==> s.NValue?) && (13 <= rule <= 18 ==> s.NExpr?) &&
      (rule == 19 ==> s.NConst?) && (rule <= 2 ==> s.NList?)
  {
    Rules(rule);
  }

  // The engine

  const YYEMPTY := -2

  /** The tokens not yet consumed: the lookahead, if there is one, and what has not been read. */
  function Remaining(tokens: seq<Token>, pos: nat, yychar: int, yylval: string): seq<Token>
    requires pos <= |tokens|
  {
    if yychar == YYEMPTY then tokens[pos..]
    else if yychar <= 0 then []
    else [Token(yychar, yylval)] + tokens[pos..]
  }

  /** The lookahead is either missing, or the end of the input when that has been reached, or a token. */
  predicate LooksAhead(tokens: seq<Token>, pos: nat, yychar: int) {
    pos <= |tokens| && (yychar == YYEMPTY || yychar > 0 || (yychar == 0 && pos == |tokens|))
  }

  /** The entry of yytable for a lookahead, if yycheck confirms it. */
  method Confirm(base: int, yychar1: nat) returns (found: bool, yyn: int)
    requires yychar1 <= 22
    ensures (found, yyn) == Confirmed(base, yychar1)
  {
    yyn := base + yychar1;
    if yyn < 0 || yyn > YYLAST || YYCHECK[yyn] != yychar1 {
      return false, 0;
    }
    return true, YYTABLE[yyn];
  }

  /** What the engine does next, read out of yypact, yycheck, yytable and yydefact. */
  method Consult(yystate: nat, yychar1: nat) returns (a: Action)
    requires yystate < 28 && yychar1 <= 22
    ensures a == ActionFor(yystate, yychar1)
  {
    hide Confirmed;
    if YYPACT[yystate] != YYFLAG {
      var found, yyn := Confirm(YYPACT[yystate], yychar1);
      if found {
        return if yyn < 0 then (if yyn == YYFLAG then Error else Reduce(-yyn))
          else if yyn == 0 then Error else if yyn == YYFINAL then Accept else Shift(yyn);
      }
    }
    var r := YYDEFACT[yystate];
    a := if r == 0 then Error else Reduce(r);
  }

  /** The state pushed after a reduction. */
  method Successor(below: nat, rule: nat) returns (yystate: int)
    requires below < 28 && 1 <= rule <= 19
    ensures yystate == Goto(below, LeftSide(rule))
  {
    hide YYPACT;
    var yyn := YYR1[rule];
    yystate := YYPGOTO[yyn - YYNTBASE] + below;
    if 0 <= yystate <= YYLAST && YYCHECK[yystate] == below {
      yystate := YYTABLE[yystate];
    } else {
      yystate := YYDEFGOTO[yyn - YYNTBASE];
    }
  }

  lemma MirrorsPush(env: Env, values: seq<string>, syms: seq<Sym>, value: string, sym: Sym)
    requires Mirrors(env, values, syms) && (HasValue(sym) ==> value == ValueOf(env, sym))
    ensures Mirrors(env, values + [value], syms + [sym])
  {
  }

  lemma MirrorsPop(env: Env, values: seq<string>, syms: seq<Sym>, len: nat)
    requires Mirrors(env, values, syms) && len <= |syms|
    ensures Mirrors(env, values[..|values| - len], syms[..|syms| - len])
    ensures Shows(env, values[|values| - len..], syms[|syms| - len..])
  {
  }

  /** yyreduce: the action of a rule, and the nonterminal shifted. */
  method ReduceOn(st: Stacks, env: Env, rule: nat, yyval0: string, calls0: seq<Call>, ghost c: Config)
    returns (yyval: string, calls: seq<Call>, overflow: bool)
    requires st.Valid() && Shaped(c, rule) && st.States() == c.states && Mirrors(env, st.Values(), c.syms) && calls0 == c.calls
    modifies st, st.yyss, st.yyvs
    ensures ReduceBy(env, c, rule).Running? && calls == ReduceBy(env, c, rule).calls
    ensures overflow == (Height(ReduceBy(env, c, rule)) >= YYMAXDEPTH)
    ensures !overflow ==> st.Valid() && st.States() == ReduceBy(env, c, rule).states
    ensures !overflow ==> Mirrors(env, st.Values(), ReduceBy(env, c, rule).syms)
    ensures !overflow ==> (st.yyss == old(st.yyss) || fresh(st.yyss)) && (st.yyvs == old(st.yyvs) || fresh(st.yyvs))
  {
    hide Mirrors, Reduced, Goto, LeftSide, ActionValue, ActionCalls, CallsOf, Length;
    ghost var n := |c.syms| - Length(rule);
    var yylen := YYR2[rule];
    LengthIs(rule);
    MirrorsSize(env, st.Values(), c.syms);
    MirrorsPop(env, st.Values(), c.syms, yylen);
    var args := st.yyvs[st.yyssp + 1 - yylen..st.yyssp + 1];
    assert args == st.Values()[|st.Values()| - yylen..];
    ActionsRight(env, rule, c.syms[n..], args, yyval0);
    yyval := ActionValue(env, rule, args, yyval0);
    calls := calls0 + ActionCalls(rule, args);
    st.Pop(yylen);
    assert st.yyss[st.yyssp] == st.States()[|st.States()| - 1] == c.states[n];
    var g := Successor(st.yyss[st.yyssp], rule);
    MirrorsPush(env, st.Values(), c.syms[..n], yyval, Reduced(rule, c.syms[n..]));
    overflow := st.Push(g, yyval);
  }

  lemma LengthIs(rule: nat)
    requires 1 <= rule <= 19
    ensures YYR2[rule] == Length(rule)
  {
  }

  lemma MirrorsSize(env: Env, values: seq<string>, syms: seq<Sym>)
    requires Mirrors(env, values, syms)
    ensures |values| == |syms| + 1
  {
  }

  lemma NoErrorToken(i: nat)
    requires i <= YYLAST
    ensures YYCHECK[i] != 1
  {
  }

  /** yyerrlab: no state handles the error token, so the whole stack is popped. */
  method Recover(st: Stacks)
    requires st.Valid() && st.yyssp >= 0 && forall q :: q in st.States() ==> q < 28
    modifies st`yyssp
    ensures st.Valid() && st.States() == old(st.States())[..1]
  {
    while true
      invariant st.Valid() && 0 <= st.yyssp && st.States() == old(st.States())[..st.yyssp + 1]
      decreases st.yyssp
    {
      assert st.yyss[st.yyssp] == st.States()[st.yyssp] == old(st.States())[st.yyssp];
      assert old(st.States())[st.yyssp] in old(st.States());
      var yyn := YYPACT[st.yyss[st.yyssp]];
      if yyn != YYFLAG {
        yyn := yyn + 1;
        if 0 <= yyn <= YYLAST {
          NoErrorToken(yyn);
        }
      }
      if st.yyssp == 0 {
        return;
      }
      st.yyssp := st.yyssp - 1;
    }
  }

  /** Between two actions: the stacks and the input show configuration c, which has been reached from the start. */
  ghost predicate At(env: Env, tokens: seq<Token>, c: Config, n: nat) {
    Steps(env, Start(tokens), n) == c && Sound(env, tokens, c)
  }

  lemma AtStart(env: Env, tokens: seq<Token>)
    requires forall t :: t in tokens ==> Lexed(t)
    ensures At(env, tokens, Start(tokens), 0) && Mirrors(env, [""], []) && Peak(env, Start(tokens), 0) == 1
  {
    StartSound(env, tokens);
  }

  /** One action further. */
  lemma AtNext(env: Env, tokens: seq<Token>, c: Config, n: nat)
    requires At(env, tokens, c, n)
    ensures c.Ok() && c.Running? && c.Top() < 28 && Steps(env, Start(tokens), n + 1) == Step(env, c)
    ensures Goes(env, tokens, Step(env, c)) && (Step(env, c).Running? ==> At(env, tokens, Step(env, c), n + 1))
    ensures forall q :: q in c.states ==> q < 28
  {
    hide Step, Sound;
    SoundParts(env, tokens, c);
    LinkedOk(c.states, c.syms);
    StepSound(env, tokens, c);
    StepsAdd(env, Start(tokens), n, 1);
    OneStep(env, c, Step(env, c));
    GoesSound(env, tokens, Step(env, c));
  }

  lemma GoesSound(env: Env, tokens: seq<Token>, r: Config)
    requires Goes(env, tokens, r)
    ensures r.Running? ==> Sound(env, tokens, r)
  {
  }

  /** What is known of an action in a sound configuration. */
  lemma ActionFacts(env: Env, tokens: seq<Token>, c: Config)
    requires Sound(env, tokens, c) && c.Ok()
    ensures var a := ActionFor(c.Top(), c.Lookahead());
      (a.Reduce? ==> a.rule == RuleAt(c.Top()) && 1 <= a.rule <= 19 && Shaped(c, a.rule)) &&
      (a.Shift? && c.rest == [] ==> a.state == 27 && c.Top() != 27) && (c.Top() == 27 ==> c.rest == [])
  {
    hide Sound, ActionFor, Shaped;
    SoundParts(env, tokens, c);
    RestLexed(env, tokens, c);
    ActionKinds(c);
    if ActionFor(c.Top(), c.Lookahead()).Reduce? {
      ReduceAny(env, tokens, c);
    }
  }

  /** Every action shifts a token, shifts the end, or brings the stack closer to the next shift. */
  lemma Progress(env: Env, tokens: seq<Token>, c: Config)
    requires Sound(env, tokens, c) && c.Ok() && Step(env, c).Running? && Step(env, c).Ok()
    ensures var r := Step(env, c);
      |r.rest| < |c.rest| || (r.rest == c.rest && r.Top() == 27 && c.Top() != 27) ||
      (r.rest == c.rest && r.Top() != 27 && c.Top() != 27 && Reductions(r) < Reductions(c))
  {
    hide Sound, ActionFor, Shaped, ReduceBy, Goes, Reductions;
    SoundParts(env, tokens, c);
    ActionFacts(env, tokens, c);
    if ActionFor(c.Top(), c.Lookahead()).Reduce? {
      ReduceMeasure(env, tokens, c);
    }
  }

  lemma StepIs(env: Env, c: Config)
    requires c.Running? && c.Ok()
    ensures var a := ActionFor(c.Top(), c.Lookahead());
      (a.Accept? ==> Step(env, c) == Done(0, c.calls)) && (a.Error? ==> Step(env, c) == Done(1, c.calls)) &&
      (a.Shift? && c.rest == [] ==> Step(env, c) == Push(c.states, c.syms + [Eof], [], c.calls, a.state)) &&
      (a.Shift? && c.rest != [] ==> Step(env, c) == Push(c.states, c.syms + [Tok(c.rest[0])], c.rest[1..], c.calls, a.state)) &&
      (a.Reduce? && 1 <= a.rule <= 19 ==> Step(env, c) == ReduceBy(env, c, a.rule))
  {
    hide ActionFor, ReduceBy, Push;
  }

  /** A shift or a reduction, carried out on the stacks. */
  method Act(st: Stacks, env: Env, action: Action, yylval: string, yyval0: string, calls0: seq<Call>, ghost c: Config)
    returns (yyval: string, calls: seq<Call>, overflow: bool)
    requires c.Running? && c.Ok() && st.Show(env, c) && calls0 == c.calls && action == ActionFor(c.Top(), c.Lookahead())
    requires action.Shift? || (action.Reduce? && 1 <= action.rule <= 19 && Shaped(c, action.rule))
    requires action.Shift? && c.rest != [] ==> c.rest[0].text == yylval
    modifies st, st.yyss, st.yyvs
    ensures Step(env, c).Running? && calls == Step(env, c).calls && overflow == (Height(Step(env, c)) >= YYMAXDEPTH)
    ensures !overflow ==> st.Show(env, Step(env, c))
    ensures !overflow ==> (st.yyss == old(st.yyss) || fresh(st.yyss)) && (st.yyvs == old(st.yyvs) || fresh(st.yyvs))
  {
    hide Mirrors, Step, ActionFor, ReduceBy, Shaped;
    StepIs(env, c);
    if action.Shift? {
      yyval, calls := yyval0, calls0;
      MirrorsPush(env, st.Values(), c.syms, yylval, if c.rest == [] then Eof else Tok(c.rest[0]));
      overflow := st.Push(action.state, yylval);
    } else {
      yyval, calls, overflow := ReduceOn(st, env, action.rule, yyval0, calls0, c);
    }
  }

  /** How the remaining input looks with and without a lookahead. */
  lemma ReadNext(tokens: seq<Token>, pos: nat)
    requires pos <= |tokens| && forall t :: t in tokens ==> Lexed(t)
    ensures pos < |tokens| ==> tokens[pos].code > 0
    ensures pos < |tokens| ==> Remaining(tokens, pos + 1, tokens[pos].code, tokens[pos].text) == tokens[pos..]
    ensures pos == |tokens| ==> tokens[pos..] == []
  {
    assert pos < |tokens| ==> tokens[pos] in tokens;
  }

  lemma Consumed(tokens: seq<Token>, pos: nat, yychar: int, yylval: string)
    requires pos <= |tokens| && yychar > 0
    ensures var r := Remaining(tokens, pos, yychar, yylval);
      r != [] && r[0] == Token(yychar, yylval) && r[1..] == Remaining(tokens, pos, YYEMPTY, yylval)
  {
  }

  /** With all the room it needs, the machine would at some step hold as many states as the stack can. */
  ghost predicate TooDeep(env: Env, tokens: seq<Token>) {
    exists n: nat :: Height(Steps(env, Start(tokens), n)) >= YYMAXDEPTH
  }

  /** A syntax tree of the text. */
  ghost predicate Parses(tokens: seq<Token>, ss: seq<Statement>) { (forall s :: s in ss ==> WellFormedS(s)) && Print(ss) == tokens }

  // The calls made before an error

  /** The calls are the meaning of statements that the text begins with. */
  ghost predicate Begun(env: Env, tokens: seq<Token>, calls: seq<Call>) {
    exists ss, rest :: BeginsWith(tokens, ss, rest) && calls == Calls(env, ss)
  }

  ghost predicate BeginsWith(tokens: seq<Token>, ss: seq<Statement>, rest: seq<Token>) {
    (forall s :: s in ss ==> WellFormedS(s)) && Print(ss) + rest == tokens
  }

  /** After a statement comes the end, or a token that a statement can begin with. */
  ghost predicate Complete(tokens: seq<Token>, ss: seq<Statement>, rest: seq<Token>) {
    BeginsWith(tokens, ss, rest) && IniCompleteness.Follows(rest)
  }

  /** Above the list of statements the stack holds at most one more statement, and then nothing else. */
  lemma StackShape(states: seq<nat>, syms: seq<Sym>, i: nat)
    requires Linked(states, syms) && i < |syms|
    ensures syms[0].NList? && forall s :: s in syms[0].ss ==> WellFormedS(s)
    ensures i > 0 ==> !syms[i].NList? && (syms[i].NStatement? ==> i == 1 && |syms| == 2 && WellFormedS(syms[i].s))
  {
    TopEdge(states, syms);
    assert Edge(states[0], syms[0], states[1]);
    if i > 0 {
      assert Edge(states[i], syms[i], states[i + 1]);
      assert Edge(states[i - 1], syms[i - 1], states[i]);
      if i > 1 {
        assert Edge(states[i - 2], syms[i - 2], states[i - 1]);
      }
      if i + 1 < |syms| {
        assert Edge(states[i + 1], syms[i + 1], states[i + 2]);
      }
    }
  }

  lemma {:induction false} NothingMade(env: Env, syms: seq<Sym>)
    requires forall i :: 0 <= i < |syms| ==> !syms[i].NList? && !syms[i].NStatement?
    ensures AllMade(env, syms) == []
    decreases |syms|
  {
    if syms != [] {
      NothingMade(env, syms[..|syms| - 1]);
    }
  }

  /** In a sound configuration the calls made are the meaning of statements that the text begins with. */
  lemma SoundBegun(env: Env, tokens: seq<Token>, c: Config)
    requires Sound(env, tokens, c)
    ensures Begun(env, tokens, c.calls)
  {
    hide Edge, Yields, AllMade;
    var syms := c.syms;
    if syms == [] {
      NothingMade(env, []);
      YieldsNone();
      BegunWith(env, tokens, [], tokens, c.calls);
    } else {
      StackShape(c.states, syms, 0);
      var a, b := [syms[0]], syms[1..];
      assert syms == a + b;
      MadeAppend(env, a, b);
      YieldsAppend(a, b);
      MadeOne(env, syms[0]);
      YieldsOne(syms[0]);
      if |syms| == 2 && syms[1].NStatement? {
        StackShape(c.states, syms, 1);
        assert b == [syms[1]];
        MadeOne(env, syms[1]);
        YieldsOne(syms[1]);
        var ss := syms[0].ss + [syms[1].s];
        assert ss[..|ss| - 1] == syms[0].ss;
        BegunWith(env, tokens, ss, c.rest, c.calls);
      } else {
        forall i | 0 <= i < |b|
          ensures !b[i].NList? && !b[i].NStatement?
        {
          StackShape(c.states, syms, i + 1);
        }
        NothingMade(env, b);
        assert Print(syms[0].ss) + (Yields(b) + c.rest) == tokens;
        BegunWith(env, tokens, syms[0].ss, Yields(b) + c.rest, c.calls);
      }
    }
  }

  lemma YieldsNone()
    ensures Yields([]) == []
  {
  }

  lemma BegunWith(env: Env, tokens: seq<Token>, ss: seq<Statement>, rest: seq<Token>, calls: seq<Call>)
    requires (forall s :: s in ss ==> WellFormedS(s)) && Print(ss) + rest == tokens && calls == Calls(env, ss)
    ensures Begun(env, tokens, calls)
  {
    assert BeginsWith(tokens, ss, rest);
  }

  /** Calls are only ever added. */
  lemma {:induction false} CallsGrow(env: Env, c: Config, n: nat)
    ensures c.calls <= Steps(env, c, n).calls
    decreases n
  {
    hide Step;
    if n > 0 {
      CallsGrowStep(env, c);
      CallsGrow(env, Step(env, c), n - 1);
    }
  }

  lemma CallsGrowStep(env: Env, c: Config)
    ensures c.calls <= Step(env, c).calls
  {
    hide ActionFor, Reduced, Goto, LeftSide, Length, CallsOf;
  }

  /** The calls of complete statements have been made when the parse ends, or when it overflows only afterwards. */
  lemma CompleteCalled(env: Env, tokens: seq<Token>, ss: seq<Statement>, rest: seq<Token>, n: nat)
    requires Complete(tokens, ss, rest)
    requires Steps(env, Start(tokens), n).Done? || (Height(Steps(env, Start(tokens), n)) >= YYMAXDEPTH && FitsStack(ss))
    ensures Calls(env, ss) <= Steps(env, Start(tokens), n).calls
  {
    hide Steps, Step, Peak, FitsStack, Height, Calls;
    var k := ParseList(env, ss, rest);
    var c := Running([0, 1], [NList(ss)], rest, Calls(env, ss));
    if k <= n {
      StepsAdd(env, Start(tokens), k, n - k);
      CallsGrow(env, c, n - k);
    } else {
      if Steps(env, Start(tokens), n).Done? {
        StepsAdd(env, Start(tokens), n, k - n);
        StepsDone(env, Steps(env, Start(tokens), n), k - n);
      } else {
        DepthFits(ss);
        PeakAtLeast(env, Start(tokens), k, n);
      }
    }
  }

  /**
   yyparse. It always returns: 2 exactly when the text is too deep for the stack; otherwise 0 exactly on the texts of the
   grammar, with the calls that are the meaning of the text, and 1 on all others. A text of the grammar is too deep
   exactly when one of its statements is. Unless it returns 0, it has reported one error. Whatever it returns, the calls
   are the meaning of statements that the text begins with, and of all that are complete, unless one was too deep.
   */
  method Parse(env: Env, tokens: seq<Token>) returns (ret: nat, calls: seq<Call>, errors: nat)
    requires forall t :: t in tokens ==> Lexed(t)
    ensures ret <= 2 && errors == (if ret == 0 then 0 else 1)
    ensures ret == 2 <==> TooDeep(env, tokens)
    ensures ret == 0 ==> Accepted(env, tokens, calls)
    ensures ret == 1 ==> forall ss :: !Parses(tokens, ss)
    ensures forall ss | Parses(tokens, ss) :: if FitsStack(ss) then ret == 0 && calls == Calls(env, ss) else ret == 2
    ensures Begun(env, tokens, calls)
    ensures forall ss, rest | Complete(tokens, ss, rest) && FitsStack(ss) :: Calls(env, ss) <= calls
  {
    hide TooDeep, Parses, Peak, Begun, Complete;
    hide Mirrors, Sound, Steps, Step, ReduceBy, Shaped, ActionFor, Goes, FitsStack, Stacks.Show, At, Translate, Remaining, Accepted;
    var st := NewStacks(env, tokens);
    var yychar, yylval, pos, yyval := YYEMPTY, "", 0, "";
    ghost var c, n := Start(tokens), 0;
    calls := [];
    AtStart(env, tokens);
    NothingRead(tokens);
    var overflow;
    while true
      invariant st.Show(env, c) && fresh(st) && fresh(st.yyss) && fresh(st.yyvs) && At(env, tokens, c, n)
      invariant c.Running? && c.Ok() && calls == c.calls && Peak(env, Start(tokens), n) < YYMAXDEPTH
      invariant LooksAhead(tokens, pos, yychar) && Remaining(tokens, pos, yychar, yylval) == c.rest
      decreases |c.rest|, if c.Top() == 27 then 0 else 1, Reductions(c)
    {
      AtNext(env, tokens, c, n);
      StepFacts(env, tokens, c, n);
      var yystate := st.TopState(env, c);
      var decided := YYPACT[yystate] == YYFLAG;
      if !decided && yychar == YYEMPTY {
        ReadNext(tokens, pos);
        EmptyLook(tokens, pos, yylval);
        if pos < |tokens| {
          yychar, yylval, pos := tokens[pos].code, tokens[pos].text, pos + 1;
        } else {
          yychar := 0;
        }
      }
      if decided {
        DefaultOnly(yystate, 0, c.Lookahead());
      } else {
        LookaheadIs(tokens, pos, yychar, yylval, c);
      }
      var action := Consult(yystate, if decided then 0 else Translate(yychar));
      if action.Accept? || action.Error? {
        ret, errors := if action.Accept? then 0 else 1, if action.Accept? then 0 else 1;
        if action.Error? {
          st.Known(env, c);
          Recover(st);
        }
        Finished(env, tokens, n, ret, calls);
        SoundBegun(env, tokens, c);
        AllCalled(env, tokens, n + 1);
        return;
      }
      yyval, calls, overflow := Act(st, env, action, yylval, yyval, calls, c);
      if overflow {
        ret, errors := 2, 1;
        Overflown(env, tokens, n + 1);
        GoesSound(env, tokens, Step(env, c));
        SoundBegun(env, tokens, Step(env, c));
        AllCalled(env, tokens, n + 1);
        return;
      }
      if action.Shift? && yychar != 0 {
        Consumed(tokens, pos, yychar, yylval);
        yychar := YYEMPTY;
      }
      AtNext(env, tokens, Step(env, c), n + 1);
      Progress(env, tokens, c);
      PeakNext(env, Start(tokens), n);
      c, n := Step(env, c), n + 1;
    }
  }

  /** In a state that yypact marks, the lookahead is not needed. */
  lemma DefaultOnly(yystate: nat, ch1: nat, ch2: nat)
    requires yystate < 28 && YYPACT[yystate] == YYFLAG && ch1 <= 22 && ch2 <= 22
    ensures ActionFor(yystate, ch1) == ActionFor(yystate, ch2) && !ActionFor(yystate, ch1).Shift?
  {
  }

  method NewStacks(env: Env, tokens: seq<Token>) returns (st: Stacks)
    ensures fresh(st) && fresh(st.yyss) && fresh(st.yyvs) && st.Show(env, Start(tokens))
  {
    st := new Stacks();
    var overflow := st.Push(0, "");
    assert st.States() == [0] && st.Values() == [""];
  }

  lemma NothingRead(tokens: seq<Token>)
    ensures Remaining(tokens, 0, YYEMPTY, "") == tokens
  {
  }

  lemma EmptyLook(tokens: seq<Token>, pos: nat, yylval: string)
    requires pos <= |tokens|
    ensures Remaining(tokens, pos, YYEMPTY, yylval) == tokens[pos..]
    ensures Remaining(tokens, pos, 0, yylval) == []
  {
  }

  lemma LookaheadIs(tokens: seq<Token>, pos: nat, yychar: int, yylval: string, c: Config)
    requires pos <= |tokens| && yychar >= 0 && c.Running? && Remaining(tokens, pos, yychar, yylval) == c.rest
    ensures c.Lookahead() == Translate(yychar) && (c.rest == [] <==> yychar == 0)
    ensures c.rest != [] ==> c.rest[0] == Token(yychar, yylval)
  {
  }

  /** What the next step of a reached configuration is. */
  lemma StepFacts(env: Env, tokens: seq<Token>, c: Config, n: nat)
    requires At(env, tokens, c, n) && c.Ok()
    ensures Sound(env, tokens, c) && c.Running?
    ensures var a := ActionFor(c.Top(), c.Lookahead()); var r := Step(env, c);
      (a.Accept? ==> r == Done(0, c.calls)) && (a.Error? ==> r == Done(1, c.calls)) &&
      (a.Reduce? ==> 1 <= a.rule <= 19 && Shaped(c, a.rule) && (r.Running? ==> r.rest == c.rest)) &&
      (a.Shift? && r.Running? ==> r.rest == if c.rest == [] then [] else c.rest[1..])
  {
    hide Sound, ActionFor, Shaped, ReduceBy;
    SoundParts(env, tokens, c);
    StepIs(env, c);
    ActionFacts(env, tokens, c);
    if ActionFor(c.Top(), c.Lookahead()).Reduce? {
      if Step(env, c).Running? {
        ReduceLook(env, c, ActionFor(c.Top(), c.Lookahead()).rule);
      }
    }
  }

  lemma AllCalled(env: Env, tokens: seq<Token>, n: nat)
    requires Steps(env, Start(tokens), n).Done? || Height(Steps(env, Start(tokens), n)) >= YYMAXDEPTH
    ensures forall ss, rest | Complete(tokens, ss, rest) && FitsStack(ss) :: Calls(env, ss) <= Steps(env, Start(tokens), n).calls
  {
    hide Steps, Height, FitsStack, Complete;
    forall ss, rest | Complete(tokens, ss, rest) && FitsStack(ss)
      ensures Calls(env, ss) <= Steps(env, Start(tokens), n).calls
    {
      CompleteCalled(env, tokens, ss, rest, n);
    }
  }

  lemma PeakNext(env: Env, c: Config, n: nat)
    ensures Peak(env, c, n + 1) == Max(Peak(env, c, n), Height(Steps(env, c, n + 1)))
  {
    hide Step, Height;
    PeakAdd(env, c, n, 1);
    StepsAdd(env, c, n, 1);
    OneStep(env, Steps(env, c, n), Step(env, Steps(env, c, n)));
    PeakAtLeast(env, c, n, n);
  }

  /** Once it has stopped, the machine rises no higher. */
  lemma PeakBounds(env: Env, c: Config, n: nat, k: nat)
    requires Steps(env, c, n).Done?
    ensures Height(Steps(env, c, k)) <= Peak(env, c, n)
  {
    hide Step, Height;
    if k <= n {
      PeakAtLeast(env, c, n, k);
    } else {
      StepsAdd(env, c, n, k - n);
      StepsDone(env, Steps(env, c, n), k - n);
      PeakAtLeast(env, c, n, n);
    }
  }

  /** A text of the grammar is too deep exactly when one of its statements is. */
  lemma DeepTexts(env: Env, tokens: seq<Token>, ss: seq<Statement>)
    requires Parses(tokens, ss)
    ensures TooDeep(env, tokens) <==> !FitsStack(ss)
  {
    hide Step, Steps, Peak, FitsStack, Height;
    var k := AcceptsGrammar(env, ss);
    DepthFits(ss);
    if !FitsStack(ss) {
      PeakIsReached(env, Start(tokens), k);
    }
    forall n: nat
      ensures Height(Steps(env, Start(tokens), n)) <= Peak(env, Start(tokens), k)
    {
      PeakBounds(env, Start(tokens), k, n);
    }
  }

  lemma {:induction false} PeakIsReached(env: Env, c: Config, n: nat)
    ensures exists k: nat :: k <= n && Height(Steps(env, c, k)) == Peak(env, c, n)
    decreases n
  {
    hide Step, Height;
    assert Steps(env, c, 0) == c;
    if n > 0 {
      PeakIsReached(env, Step(env, c), n - 1);
      var k: nat :| k <= n - 1 && Height(Steps(env, Step(env, c), k)) == Peak(env, Step(env, c), n - 1);
      assert Steps(env, c, k + 1) == Steps(env, Step(env, c), k);
    }
  }

  /** The result of the machine, which has always had room, is what the grammar says. */
  lemma Finished(env: Env, tokens: seq<Token>, n: nat, ret: nat, calls: seq<Call>)
    requires (forall t :: t in tokens ==> Lexed(t)) && Steps(env, Start(tokens), n + 1) == Done(ret, calls)
    requires Peak(env, Start(tokens), n) < YYMAXDEPTH
    ensures !TooDeep(env, tokens)
    ensures ret == 0 ==> Accepted(env, tokens, calls)
    ensures ret != 0 ==> forall ss :: !Parses(tokens, ss)
    ensures forall ss | Parses(tokens, ss) :: FitsStack(ss) && ret == 0 && calls == Calls(env, ss)
  {
    hide Steps, Peak, FitsStack;
    PeakNext(env, Start(tokens), n);
    forall k: nat
      ensures Height(Steps(env, Start(tokens), k)) < YYMAXDEPTH
    {
      PeakBounds(env, Start(tokens), n + 1, k);
    }
    if ret == 0 {
      AcceptsOnlyGrammar(env, tokens, n + 1);
    }
    forall ss | Parses(tokens, ss)
      ensures FitsStack(ss) && ret == 0 && calls == Calls(env, ss)
    {
      DeepTexts(env, tokens, ss);
      var k := AcceptsGrammar(env, ss);
      SameResult(env, Start(tokens), n + 1, k);
    }
  }

  lemma Overflown(env: Env, tokens: seq<Token>, n: nat)
    requires Height(Steps(env, Start(tokens), n)) >= YYMAXDEPTH
    ensures TooDeep(env, tokens) && forall ss | Parses(tokens, ss) :: !FitsStack(ss)
  {
    hide Steps, FitsStack, Height, Parses;
    forall ss | Parses(tokens, ss)
      ensures !FitsStack(ss)
    {
      DeepTexts(env, tokens, ss);
    }
  }

  lemma ReadsOne(env: Env, s: Statement, tokens: seq<Token>, calls: seq<Call>)
    requires WellFormedS(s) && PrintS(s) == tokens && CallsS(env, s) == calls
    ensures Accepted(env, tokens, calls)
  {
    assert [s][..0] == [];
    assert Print([s]) == Print([]) + PrintS(s) && Calls(env, [s]) == Calls(env, []) + CallsS(env, s);
    assert Reads(env, tokens, calls, [s]);
  }

  /** Statements, token by token, and what they make the parser call. */
  lemma PlainReadings(env: Env, k: string, x: string)
    ensures Accepted(env, [Token(TC_STRING, k)], [EntryOnly(k)])
    ensures Accepted(env, [Token(SECTION, k)], [SectionCall(k)])
    ensures Accepted(env, [Token(NEWLINE, "")], [])
    ensures Accepted(env, [Token(TC_STRING, k), Token(EQUALS, "")] + [Token(TC_ENCAPSULATED_STRING, x)], [Entry(k, x)])
    ensures Accepted(env, [Token(TC_STRING, k), Token(EQUALS, "")] + [Token(CFG_TRUE, x)], [Entry(k, x)])
    ensures Accepted(env, [Token(TC_STRING, k), Token(EQUALS, "")] + [Token(CFG_FALSE, x)], [Entry(k, x)])
    ensures Accepted(env, [Token(TC_STRING, k), Token(EQUALS, "")] + [Token(NEWLINE, "")], [Entry(k, "")])
    ensures Accepted(env, [Token(TC_STRING, k), Token(EQUALS, "")] + [Token(TC_STRING, x)], [Entry(k, env.constant(x))])
  {
    hide Accepted;
    var name := [Token(TC_STRING, k), Token(EQUALS, "")];
    ReadsOne(env, Bare(k), [Token(TC_STRING, k)], [EntryOnly(k)]);
    ReadsOne(env, Section(k), [Token(SECTION, k)], [SectionCall(k)]);
    ReadsOne(env, Blank, [Token(NEWLINE, "")], []);
    ReadsOne(env, Setting(k, Encapsulated(x)), name + [Token(TC_ENCAPSULATED_STRING, x)], [Entry(k, x)]);
    ReadsOne(env, Setting(k, True(x)), name + [Token(CFG_TRUE, x)], [Entry(k, x)]);
    ReadsOne(env, Setting(k, False(x)), name + [Token(CFG_FALSE, x)], [Entry(k, x)]);
    ReadsOne(env, Setting(k, EmptyLine), name + [Token(NEWLINE, "")], [Entry(k, "")]);
    assert PrintE(One(Const(x))) == PrintU(Const(x)) && MeanE(env, One(Const(x))) == MeanU(env, Const(x));
    ReadsOne(env, Setting(k, Computed(One(Const(x)))), name + [Token(TC_STRING, x)], [Entry(k, env.constant(x))]);
  }

  /** Operators, token by token: the left operand first, from left to right, prefix operators and parentheses first. */
  lemma OperatorReadings(env: Env, k: string, x: string, y: string, z: string, p: int, q: int)
    requires IsOp(p) && IsOp(q)
    ensures var (cx, cy, cz) := (env.constant(x), env.constant(y), env.constant(z));
      var name := [Token(TC_STRING, k), Token(EQUALS, "")];
      var (tx, ty, tz) := (Token(TC_STRING, x), Token(TC_STRING, y), Token(TC_STRING, z));
      && Accepted(env, name + [tx, Token(p, ""), ty, Token(q, ""), tz], [Entry(k, env.op(q, env.op(p, cx, cy), cz))])
      && Accepted(env, name + [tx, Token(p, ""), Token(OPEN, ""), ty, Token(q, ""), tz, Token(CLOSE, "")],
                  [Entry(k, env.op(p, cx, env.op(q, cy, cz)))])
      && Accepted(env, name + [Token(TILDE, ""), tx, Token(p, ""), Token(BANG, ""), ty],
                  [Entry(k, env.op(p, env.op(TILDE, cx, ""), env.op(BANG, cy, "")))])
  {
    hide Accepted;
    var (cx, cy, cz) := (env.constant(x), env.constant(y), env.constant(z));
    var name := [Token(TC_STRING, k), Token(EQUALS, "")];
    var (tx, ty, tz) := (Token(TC_STRING, x), Token(TC_STRING, y), Token(TC_STRING, z));
    var a, b := One(Const(x)), Bin(One(Const(x)), p, Const(y));
    assert PrintU(Const(x)) == [tx] && MeanU(env, Const(x)) == cx && MeanU(env, Const(y)) == cy && MeanU(env, Const(z)) == cz;
    assert WellFormedU(Const(x)) && WellFormedU(Const(y)) && WellFormedU(Const(z));
    assert PrintE(a) == [tx] && MeanE(env, a) == cx;
    assert PrintU(Const(y)) == [ty] && PrintU(Const(z)) == [tz];
    assert PrintE(b) == [tx, Token(p, ""), ty] && MeanE(env, b) == env.op(p, cx, cy);
    var e := Bin(b, q, Const(z));
    assert PrintE(e) == [tx, Token(p, ""), ty, Token(q, ""), tz] && MeanE(env, e) == env.op(q, env.op(p, cx, cy), cz);
    assert WellFormedE(a);
    assert WellFormedE(b);
    assert WellFormedE(e);
    ReadsOne(env, Setting(k, Computed(e)), name + [tx, Token(p, ""), ty, Token(q, ""), tz], [Entry(k, env.op(q, env.op(p, cx, cy), cz))]);
    var inner := Bin(One(Const(y)), q, Const(z));
    assert PrintE(One(Const(y))) == [ty] && MeanE(env, One(Const(y))) == cy;
    assert PrintE(inner) == [ty, Token(q, ""), tz] && MeanE(env, inner) == env.op(q, cy, cz);
    var f := Bin(a, p, Paren(inner));
    assert PrintU(Paren(inner)) == [Token(OPEN, ""), ty, Token(q, ""), tz, Token(CLOSE, "")];
    assert PrintE(f) == [tx, Token(p, ""), Token(OPEN, ""), ty, Token(q, ""), tz, Token(CLOSE, "")];
    assert WellFormedE(One(Const(y))) && WellFormedE(inner);
    assert MeanU(env, Paren(inner)) == env.op(q, cy, cz) && MeanE(env, f) == env.op(p, cx, env.op(q, cy, cz)) && WellFormedE(inner) && WellFormedU(Paren(inner)) && WellFormedE(f);
    ReadsOne(env, Setting(k, Computed(f)), name + [tx, Token(p, ""), Token(OPEN, ""), ty, Token(q, ""), tz, Token(CLOSE, "")],
             [Entry(k, env.op(p, cx, env.op(q, cy, cz)))]);
    var g := Bin(One(Tilde(Const(x))), p, Bang(Const(y)));
    assert PrintU(Tilde(Const(x))) == [Token(TILDE, ""), tx] && PrintU(Bang(Const(y))) == [Token(BANG, ""), ty];
    assert PrintE(One(Tilde(Const(x)))) == PrintU(Tilde(Const(x)));
    assert PrintE(g) == [Token(TILDE, ""), tx, Token(p, ""), Token(BANG, ""), ty];
    assert MeanU(env, Tilde(Const(x))) == env.op(TILDE, cx, "") && MeanU(env, Bang(Const(y))) == env.op(BANG, cy, "");
    assert MeanE(env, One(Tilde(Const(x)))) == MeanU(env, Tilde(Const(x)));
    assert WellFormedU(Tilde(Const(x))) && WellFormedU(Bang(Const(y))) && WellFormedE(One(Tilde(Const(x)))) && WellFormedE(g);
    assert MeanE(env, g) == env.op(p, env.op(TILDE, cx, ""), env.op(BANG, cy, ""));
    ReadsOne(env, Setting(k, Computed(g)), name + [Token(TILDE, ""), tx, Token(p, ""), Token(BANG, ""), ty],
             [Entry(k, env.op(p, env.op(TILDE, cx, ""), env.op(BANG, cy, "")))]);
  }

  /** Nothing in the grammar ends in an equals sign: a setting without a value at the end of the input is an error. */
  lemma NoValueAtEnd(ss: seq<Statement>)
    requires forall s :: s in ss ==> WellFormedS(s)
    ensures Print(ss) != [] ==> Print(ss)[|Print(ss)| - 1].code != EQUALS
  {
    if ss != [] {
      var p := PrintS(ss[|ss| - 1]);
      LastToken(ss[|ss| - 1]);
      assert ss[|ss| - 1] in ss && Print(ss)[|Print(ss)| - 1] == p[|p| - 1];
    }
  }

  lemma LastToken(s: Statement)
    requires WellFormedS(s)
    ensures PrintS(s) != [] && PrintS(s)[|PrintS(s)| - 1].code != EQUALS
  {
    if s.Setting? && s.value.Computed? {
      LastOfExpr(s.value.e);
    }
  }

  lemma {:induction false} LastOfExpr(e: Expr)
    ensures PrintE(e) != [] && PrintE(e)[|PrintE(e)| - 1].code != EQUALS
    decreases e
  {
    match e {
      case One(u) => LastOfUnary(u);
      case Bin(_, _, u) => LastOfUnary(u);
    }
  }

  lemma {:induction false} LastOfUnary(u: Unary)
    ensures PrintU(u) != [] && PrintU(u)[|PrintU(u)| - 1].code != EQUALS
    decreases u
  {
    match u {
      case Const(_) =>
      case Tilde(v) => LastOfUnary(v);
      case Bang(v) => LastOfUnary(v);
      case Paren(_) =>
    }
  }
}
