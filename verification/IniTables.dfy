/** The LALR(1) tables of zend_ini_parser.c. */
module IniTables {
  import opened IniGrammar

  const YYFINAL := 28
  const YYFLAG := -32768
  const YYNTBASE := 17
  const YYLAST := 34
  const YYINITDEPTH := 200
  const YYMAXDEPTH := 10000

  const YYR1: seq<int> := [0, 17, 17, 18, 18, 18, 18, 19, 19, 19, 19, 19, 19, 20, 20, 20, 20, 20, 20, 21]
  const YYR2: seq<nat> := [0, 2, 0, 3, 1, 1, 1, 1, 1, 1, 1, 1, 1, 1, 3, 3, 2, 2, 3, 1]
  const YYDEFACT: seq<nat> :=
    [2, 0, 4, 5, 6, 1, 0, 19, 8, 9, 10, 0, 0, 11, 12, 0, 3, 7, 13, 16, 17, 0, 0, 0, 18, 14, 15, 0, 0]
  const YYDEFGOTO: seq<nat> := [1, 5, 16, 17, 18]
  const YYPACT: seq<int> :=
    [YYFLAG, 0, -8, YYFLAG, YYFLAG, YYFLAG, 4, YYFLAG, YYFLAG, YYFLAG, YYFLAG, 19, 19, YYFLAG, YYFLAG, 19, YYFLAG, 17,
     YYFLAG, YYFLAG, YYFLAG, -7, 19, 19, YYFLAG, YYFLAG, YYFLAG, 6, YYFLAG]
  const YYPGOTO: seq<int> := [YYFLAG, YYFLAG, YYFLAG, 9, YYFLAG]
  const YYTABLE: seq<int> :=
    [27, 22, 23, 2, 6, 3, 28, 7, 8, 24, 9, 10, 0, 4, 11, 12, 0, 13, 14, 15, 19, 20, 7, 0, 21, 22, 23, 0, 0, 11, 12,
     25, 26, 0, 15]
  const YYCHECK: seq<int> :=
    [0, 8, 9, 3, 12, 5, 0, 3, 4, 16, 6, 7, -1, 13, 10, 11, -1, 13, 14, 15, 11, 12, 3, -1, 15, 8, 9, -1, -1, 10, 11,
     22, 23, -1, 15]

  /** yytranslate and YYTRANSLATE; the end of input is 0. */
  function Translate(code: int): (n: nat)
    ensures n <= 22
  {
    if code <= 0 then 0
    else if code == NEWLINE then 13
    else if code == BANG then 11
    else if code == AND then 9
    else if code == OPEN then 15
    else if code == CLOSE then 16
    else if code == EQUALS then 12
    else if code == OR then 8
    else if code == TILDE then 10
    else if code == 256 then 1
    else if code == TC_STRING then 3
    else if code == TC_ENCAPSULATED_STRING then 4
    else if code == SECTION then 5
    else if code == CFG_TRUE then 6
    else if code == CFG_FALSE then 7
    else if code == NUL then 14
    else if code <= 262 then 2
    else 22
  }

  datatype Action = Shift(state: nat) | Reduce(rule: int) | Accept | Error

  function Default(state: nat): Action
    requires state < 28
  {
    var r := YYDEFACT[state];
    if r == 0 then Error else Reduce(r)
  }

  /** The entry of yytable for a lookahead, if yycheck confirms it. */
  function Confirmed(base: int, ch: nat): (bool, int)
    requires ch <= 22
  {
    var i := base + ch;
    if i < 0 || i > YYLAST || YYCHECK[i] != ch then (false, 0) else (true, YYTABLE[i])
  }

  /** What to do in a state with a lookahead, as the engine finds it in the tables. */
  function ActionFor(state: nat, ch: nat): Action
    requires state < 28 && ch <= 22
  {
    var base := YYPACT[state];
    if base == YYFLAG then Default(state)
    else
      var (found, n) := Confirmed(base, ch);
      if !found then Default(state)
      else if n < 0 then (if n == YYFLAG then Error else Reduce(-n))
      else if n == 0 then Error
      else if n == YYFINAL then Accept
      else Shift(n)
  }

  /** The state after a reduction to a nonterminal above a state. */
  function Goto(state: nat, nonterminal: nat): int
    requires state < 28 && 17 <= nonterminal <= 21
  {
    var i := YYPGOTO[nonterminal - YYNTBASE] + state;
    if 0 <= i <= YYLAST && YYCHECK[i] == state then YYTABLE[i] else YYDEFGOTO[nonterminal - YYNTBASE]
  }

  /** The number of symbols on the right-hand side of a rule. */
  function Length(rule: nat): nat
    requires 1 <= rule <= 19
  {
    YYR2[rule]
  }

  /** The nonterminal a rule reduces to. */
  function LeftSide(rule: nat): (n: nat)
    requires 1 <= rule <= 19
    ensures 17 <= n <= 21
  {
    YYR1[rule]
  }

  // The tables read out

  lemma Rules(rule: nat)
    requires 1 <= rule <= 19
    ensures Length(rule) == if rule == 1 || rule == 16 || rule == 17 then 2 else if rule == 2 then 0
      else if rule == 3 || rule == 14 || rule == 15 || rule == 18 then 3 else 1
    ensures LeftSide(rule) == if rule <= 2 then 17 else if rule <= 6 then 18 else if rule <= 12 then 19 else if rule <= 18 then 20 else 21
  {
  }

  /** The states in which an expression may begin. */
  predicate Begins(p: nat) { p == 6 || p == 11 || p == 12 || p == 15 || p == 22 || p == 23 }

  function ExprGoto(p: nat): nat
    requires Begins(p)
  {
    if p == 6 then 17 else if p == 11 then 19 else if p == 12 then 20 else if p == 15 then 21 else if p == 22 then 25 else 26
  }

  lemma GotoExpr(p: nat)
    requires Begins(p)
    ensures Goto(p, 20) == ExprGoto(p) && Goto(p, 21) == 18
  {
  }

  lemma GotoOther()
    ensures Goto(0, 17) == 1 && Goto(1, 18) == 5 && Goto(6, 19) == 16
  {
  }

  /** The rule by which a state reduces without looking ahead, 0 in the others. */
  function Rule(state: nat): nat {
    if state == 0 then 2 else if state == 3 then 5 else if state == 4 then 6 else if state == 5 then 1
    else if state == 7 then 19 else if state == 8 then 8 else if state == 9 then 9 else if state == 10 then 10
    else if state == 13 then 11 else if state == 14 then 12 else if state == 16 then 3 else if state == 18 then 13
    else if state == 19 then 16 else if state == 20 then 17 else if state == 24 then 18 else if state == 25 then 14
    else if state == 26 then 15 else 0
  }

  lemma RuleIs(state: nat)
    requires state < 28 && Rule(state) != 0
    ensures YYPACT[state] == YYFLAG && YYDEFACT[state] == Rule(state)
  {
  }

  lemma Reducing(state: nat, ch: nat)
    requires state < 28 && ch <= 22 && Rule(state) != 0
    ensures ActionFor(state, ch) == Reduce(Rule(state))
  {
    RuleIs(state);
  }

  lemma AtStatement(ch: nat)
    requires ch <= 22
    ensures ActionFor(1, ch) ==
      if ch == 0 then Shift(27) else if ch == 3 then Shift(2) else if ch == 5 then Shift(3) else if ch == 13 then Shift(4) else Error
  {
    assert YYPACT[1] == 0 && YYDEFACT[1] == 0;
  }

  lemma AfterName(ch: nat)
    requires ch <= 22
    ensures ActionFor(2, ch) == if ch == 12 then Shift(6) else Reduce(4)
  {
    assert YYPACT[2] == -8 && YYDEFACT[2] == 4;
  }

  lemma AfterEquals(ch: nat)
    requires ch <= 22
    ensures ActionFor(6, ch) ==
      if ch == 3 then Shift(7) else if ch == 4 then Shift(8) else if ch == 6 then Shift(9) else if ch == 7 then Shift(10)
      else if ch == 10 then Shift(11) else if ch == 11 then Shift(12) else if ch == 13 then Shift(13)
      else if ch == 14 then Shift(14) else if ch == 15 then Shift(15) else Error
  {
    assert YYPACT[6] == 4 && YYDEFACT[6] == 0;
  }

  lemma Operand(ch: nat)
    requires ch <= 22
    ensures Confirmed(19, ch) ==
      if ch == 3 then (true, 7) else if ch == 10 then (true, 11) else if ch == 11 then (true, 12)
      else if ch == 15 then (true, 15) else (false, 0)
  {
  }

  predicate OperandState(p: nat) { p == 11 || p == 12 || p == 15 || p == 22 || p == 23 }

  lemma OperandPact(p: nat)
    requires OperandState(p)
    ensures YYPACT[p] == 19 && YYDEFACT[p] == 0
  {
  }

  lemma AtOperand(p: nat, ch: nat)
    requires OperandState(p) && ch <= 22
    ensures ActionFor(p, ch) ==
      if ch == 3 then Shift(7) else if ch == 10 then Shift(11) else if ch == 11 then Shift(12) else if ch == 15 then Shift(15)
      else Error
  {
    Operand(ch);
    OperandPact(p);
  }

  lemma AfterValueExpr(ch: nat)
    requires ch <= 22
    ensures ActionFor(17, ch) == if ch == 8 then Shift(22) else if ch == 9 then Shift(23) else Reduce(7)
  {
    assert YYPACT[17] == 17 && YYDEFACT[17] == 7;
  }

  lemma InParentheses(ch: nat)
    requires ch <= 22
    ensures ActionFor(21, ch) ==
      if ch == 8 then Shift(22) else if ch == 9 then Shift(23) else if ch == 16 then Shift(24) else Error
  {
    assert YYPACT[21] == -7 && YYDEFACT[21] == 0;
  }

  lemma AtEnd()
    ensures ActionFor(27, 0) == Accept
  {
    assert YYPACT[27] == 6;
  }
}
