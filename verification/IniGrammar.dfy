/** The language of configuration files (zend_ini_parser.y): syntax trees, the tokens they are written as, and their meaning. */
module IniGrammar {

  /** What the scanner hands over: a token code and, for the tokens that have one, a text. */
  datatype Token = Token(code: int, text: string)

  const TC_STRING := 257
  const TC_ENCAPSULATED_STRING := 258
  const SECTION := 259
  const CFG_TRUE := 260
  const CFG_FALSE := 261
  const NUL := 262
  const NEWLINE := 10
  const BANG := 33
  const AND := 38
  const OPEN := 40
  const CLOSE := 41
  const EQUALS := 61
  const OR := 124
  const TILDE := 126

  /** Only these tokens carry a text. */
  predicate Lexed(t: Token) { t.code > 0 && (t.text != "" ==> TC_STRING <= t.code <= CFG_FALSE) }

  // Prefix operators bind tighter than | and &, which are of equal precedence and associate to the left.

  datatype Unary = Const(name: string) | Tilde(arg: Unary) | Bang(arg: Unary) | Paren(inner: Expr)

  datatype Expr = One(u: Unary) | Bin(left: Expr, op: int, right: Unary)

  datatype Value = Computed(e: Expr) | Encapsulated(s: string) | True(s: string) | False(s: string) | EmptyLine | EmptyNul

  datatype Statement = Setting(name: string, value: Value) | Bare(name: string) | Section(name: string) | Blank

  predicate IsOp(op: int) { op == OR || op == AND }

  predicate WellFormedU(u: Unary) {
    match u
    case Const(_) => true
    case Tilde(v) => WellFormedU(v)
    case Bang(v) => WellFormedU(v)
    case Paren(e) => WellFormedE(e)
  }

  predicate WellFormedE(e: Expr) {
    match e
    case One(u) => WellFormedU(u)
    case Bin(l, op, u) => WellFormedE(l) && IsOp(op) && WellFormedU(u)
  }

  predicate WellFormedS(s: Statement) { s.Setting? && s.value.Computed? ==> WellFormedE(s.value.e) }

  function PrintU(u: Unary): seq<Token> {
    match u
    case Const(n) => [Token(TC_STRING, n)]
    case Tilde(v) => [Token(TILDE, "")] + PrintU(v)
    case Bang(v) => [Token(BANG, "")] + PrintU(v)
    case Paren(e) => [Token(OPEN, "")] + PrintE(e) + [Token(CLOSE, "")]
  }

  function PrintE(e: Expr): seq<Token> {
    match e
    case One(u) => PrintU(u)
    case Bin(l, op, u) => PrintE(l) + [Token(op, "")] + PrintU(u)
  }

  function PrintV(v: Value): seq<Token> {
    match v
    case Computed(e) => PrintE(e)
    case Encapsulated(s) => [Token(TC_ENCAPSULATED_STRING, s)]
    case True(s) => [Token(CFG_TRUE, s)]
    case False(s) => [Token(CFG_FALSE, s)]
    case EmptyLine => [Token(NEWLINE, "")]
    case EmptyNul => [Token(NUL, "")]
  }

  function PrintS(s: Statement): seq<Token> {
    match s
    case Setting(n, v) => [Token(TC_STRING, n), Token(EQUALS, "")] + PrintV(v)
    case Bare(n) => [Token(TC_STRING, n)]
    case Section(n) => [Token(SECTION, n)]
    case Blank => [Token(NEWLINE, "")]
  }

  function Print(ss: seq<Statement>): seq<Token>
    decreases |ss|
  {
    if ss == [] then [] else Print(ss[..|ss| - 1]) + PrintS(ss[|ss| - 1])
  }

  /** The constants of the engine and the operators on numbers in decimal, left uninterpreted. */
  datatype Env = Env(constant: string -> string, op: (int, string, string) -> string)

  function MeanU(env: Env, u: Unary): string {
    match u
    case Const(n) => env.constant(n)
    case Tilde(v) => env.op(TILDE, MeanU(env, v), "")
    case Bang(v) => env.op(BANG, MeanU(env, v), "")
    case Paren(e) => MeanE(env, e)
  }

  function MeanE(env: Env, e: Expr): string {
    match e
    case One(u) => MeanU(env, u)
    case Bin(l, op, u) => env.op(op, MeanE(env, l), MeanU(env, u))
  }

  function MeanV(env: Env, v: Value): string {
    match v
    case Computed(e) => MeanE(env, e)
    case Encapsulated(s) => s
    case True(s) => s
    case False(s) => s
    case EmptyLine => ""
    case EmptyNul => ""
  }

  /** A call of the callback: an entry with its value, an entry without one, or a section. */
  datatype Call = Entry(name: string, value: string) | EntryOnly(name: string) | SectionCall(name: string)

  function CallsS(env: Env, s: Statement): seq<Call> {
    match s
    case Setting(n, v) => [Entry(n, MeanV(env, v))]
    case Bare(n) => [EntryOnly(n)]
    case Section(n) => [SectionCall(n)]
    case Blank => []
  }

  function Calls(env: Env, ss: seq<Statement>): seq<Call>
    decreases |ss|
  {
    if ss == [] then [] else Calls(env, ss[..|ss| - 1]) + CallsS(env, ss[|ss| - 1])
  }

  // How high the stack of the parser rises above what is on it already.

  function Max(a: nat, b: nat): nat { if a < b then b else a }

  function NeedU(u: Unary): (n: nat)
    ensures n >= 1
  {
    match u
    case Const(_) => 1
    case Tilde(v) => 1 + NeedU(v)
    case Bang(v) => 1 + NeedU(v)
    case Paren(e) => 1 + Max(NeedE(e), 2)
  }

  function NeedE(e: Expr): (n: nat)
    ensures n >= 1
  {
    match e
    case One(u) => NeedU(u)
    case Bin(l, _, u) => Max(NeedE(l), 2 + NeedU(u))
  }

  function NeedS(s: Statement): (n: nat)
    ensures n >= 1
  {
    if s.Setting? then 2 + (if s.value.Computed? then NeedE(s.value.e) else 1) else 1
  }
}
