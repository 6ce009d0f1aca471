/** The opcodes that carry control flow and scalar variables, and the machine that runs them. */
module Opcodes {
  import opened Common
  import opened Values

  /** An operand: a constant, a temporary, a variable temporary, or an unused slot, which may hold an opcode number. */
  datatype Node = Const(v: Value) | Tmp(n: nat) | VarTmp(n: nat) | Unused | Addr(to: int)

  datatype Opcode =
    | OpBinary(bop: BinOp) | OpUnary(uop: UnOp)
    | OpFetchR(x: string) | OpFetchW(x: string) | OpFetchRW(x: string)
    | OpAssign | OpAssignOp(aop: BinOp) | OpIncDec(kind: IncDec)
    | OpEcho | OpPrint | OpFree | OpSwitchFree
    | OpJmp | OpJmpZ | OpJmpNZ | OpJmpZNZ | OpJmpZEx | OpJmpNZEx
    | OpBool | OpQmAssign | OpCase | OpBrk | OpCont | OpReturn
  {
    predicate Jumps() { OpJmpZ? || OpJmpNZ? || OpJmpZNZ? || OpJmpZEx? || OpJmpNZEx? }

    predicate Accesses() { OpFetchR? || OpFetchW? || OpFetchRW? || OpAssign? || OpAssignOp? || OpIncDec? }
  }

  /** One zend_op. `ext` is extended_value; JMPZNZ keeps its true target there. */
  datatype Op = Op(code: Opcode, result: Node, op1: Node, op2: Node, ext: Node)

  /** An entry of brk_cont_array. */
  datatype BrkCont = BrkCont(cont: nat, brk: nat, parent: int)

  /** A finished op array: its opcodes, its loop table, and the number of temporaries it needs. */
  datatype Program = Program(ops: seq<Op>, loops: seq<BrkCont>, temps: nat)

  /** What a temporary holds: nothing yet, a value, or the slot of a variable fetched for writing. */
  datatype Temp = Empty | Val(v: Value) | Slot(x: string)

  datatype Machine = Machine(pc: nat, ts: seq<Temp>, st: Store)

  /** Wild stands for every undefined behaviour: a jump, temporary or loop index out of range, or an operand of the wrong kind. */
  datatype Run = Running(m: Machine) | Done(v: Value, st: Store) | Fatal(st: Store) | Wild

  /** get_zval_ptr: the value an operand denotes. */
  function Operand(a: Node, ts: seq<Temp>): Option<Value> {
    match a
    case Const(v) => Some(v)
    case Tmp(i) => if i < |ts| && ts[i].Val? then Some(ts[i].v) else None
    case VarTmp(i) => if i < |ts| && ts[i].Val? then Some(ts[i].v) else None
    case _ => None
  }

  /** get_zval_ptr_ptr: the variable a fetched operand designates. */
  function Target(a: Node, ts: seq<Temp>): Option<string> {
    if a.VarTmp? && a.n < |ts| && ts[a.n].Slot? then Some(ts[a.n].x) else None
  }

  datatype Lookup = Found(loop: BrkCont) | TooShallow | OutsideTable

  /** The do-while walk of BRK and CONT up the parent links; -1 is the end of the chain. */
  function Enclosing(loops: seq<BrkCont>, off: int, levels: nat): Lookup
    requires levels >= 1
    decreases levels
  {
    if off == -1 then TooShallow
    else if !(0 <= off < |loops|) then OutsideTable
    else if levels == 1 then Found(loops[off])
    else Enclosing(loops, loops[off].parent, levels - 1)
  }

  /** Writes a temporary and goes to the next opcode. */
  function Put(m: Machine, res: Node, t: Temp, st: Store): Run {
    if (res.Tmp? || res.VarTmp?) && res.n < |m.ts| then Running(Machine(m.pc + 1, m.ts[res.n := t], st)) else Wild
  }

  function Goto(m: Machine, a: Node): Run {
    if a.Addr? && a.to >= 0 then Running(m.(pc := a.to)) else Wild
  }

  function Next(m: Machine, st: Store): Run { Running(Machine(m.pc + 1, m.ts, st)) }

  /** Handlers that compute a value from operands. */
  function Compute(lib: Lib, m: Machine, op: Op): Run {
    var a := Operand(op.op1, m.ts);
    var b := Operand(op.op2, m.ts);
    if a.None? then Wild
    else match op.code
      case OpBinary(f) => if b.Some? then Put(m, op.result, Val(lib.binary(f, a.value, b.value)), m.st) else Wild
      case OpCase => if b.Some? then Put(m, op.result, Val(lib.binary(IsEqual, a.value, b.value)), m.st) else Wild
      case OpUnary(f) => Put(m, op.result, Val(lib.unary(f, a.value)), m.st)
      case OpBool => Put(m, op.result, Val(Bool(IsTrue(a.value))), m.st)
      case OpQmAssign => Put(m, op.result, Val(a.value), m.st)
      case OpPrint => Put(m, op.result, Val(Long(1)), m.st.Emit(Echoed(a.value)))
      case _ => Wild
  }

  /** Fetches of variables, and handlers that write to a fetched variable. */
  function Access(lib: Lib, m: Machine, op: Op): Run {
    var x := Target(op.op1, m.ts);
    var b := Operand(op.op2, m.ts);
    match op.code
    case OpFetchR(y) => Put(m, op.result, Val(m.st.Get(y)), m.st.FetchedR(y))
    case OpFetchW(y) => Put(m, op.result, Slot(y), m.st.FetchedW(y))
    case OpFetchRW(y) => Put(m, op.result, Slot(y), m.st.FetchedRW(y))
    case OpAssign =>
      if x.Some? && b.Some? then Put(m, op.result, Val(b.value), m.st.Set(x.value, b.value)) else Wild
    case OpAssignOp(f) =>
      if x.Some? && b.Some? then
        var w := lib.binary(f, m.st.Get(x.value), b.value);
        Put(m, op.result, Val(w), m.st.Set(x.value, w))
      else Wild
    case OpIncDec(kind) =>
      if x.Some? then
        var was := m.st.Get(x.value);
        var now := lib.incDec(kind, was);
        Put(m, op.result, Val(if kind.Post() then was else now), m.st.Set(x.value, now))
      else Wild
    case _ => Wild
  }

  /** Conditional jumps; the two with a result leave the truth of the condition in it first. */
  function Branch(m: Machine, op: Op): Run {
    var a := Operand(op.op1, m.ts);
    if a.None? then Wild
    else
      var c := IsTrue(a.value);
      match op.code
      case OpJmpZ => if c then Next(m, m.st) else Goto(m, op.op2)
      case OpJmpNZ => if c then Goto(m, op.op2) else Next(m, m.st)
      case OpJmpZNZ => if c then Goto(m, op.ext) else Goto(m, op.op2)
      case OpJmpZEx =>
        var r := Put(m, op.result, Val(Bool(c)), m.st);
        if !r.Running? || c then r else Goto(r.m, op.op2)
      case OpJmpNZEx =>
        var r := Put(m, op.result, Val(Bool(c)), m.st);
        if !r.Running? || !c then r else Goto(r.m, op.op2)
      case _ => Wild
  }

  /** One round of the dispatch loop. */
  function Step(lib: Lib, p: Program, m: Machine): Run {
    if m.pc >= |p.ops| then Wild
    else
      var op := p.ops[m.pc];
      match op.code
      case OpJmp => Goto(m, op.op1)
      case OpFree => Next(m, m.st)
      case OpSwitchFree => Next(m, m.st)
      case OpEcho =>
        var a := Operand(op.op1, m.ts);
        if a.Some? then Next(m, m.st.Emit(Echoed(a.value))) else Wild
      case OpReturn =>
        var a := Operand(op.op1, m.ts);
        if a.Some? then Done(a.value, m.st) else Wild
      case OpBrk => Leave(p, m, op, true)
      case OpCont => Leave(p, m, op, false)
      case _ =>
        if op.code.Jumps() then Branch(m, op)
        else if op.code.Accesses() then Access(lib, m, op)
        else Compute(lib, m, op)
  }

  /** BRK and CONT: op1 holds the index of the innermost loop, -1 for none, and op2 the constant level. */
  function Leave(p: Program, m: Machine, op: Op, brk: bool): Run {
    if op.op1.Addr? && op.op2.Const? && op.op2.v.Long? then
      var n := op.op2.v.n;
      match Enclosing(p.loops, op.op1.to, if n <= 1 then 1 else n)
      case Found(e) => Running(m.(pc := if brk then e.brk else e.cont))
      case TooShallow => Fatal(m.st)
      case OutsideTable => Wild
    else Wild
  }

  /** The machine after n rounds; a halted machine stays as it is. */
  function Steps(lib: Lib, p: Program, m: Machine, n: nat): Run
    decreases n
  {
    if n == 0 then Running(m)
    else
      var r := Step(lib, p, m);
      if r.Running? then Steps(lib, p, r.m, n - 1) else r
  }

  /** The machine at the start of a script. */
  function Boot(p: Program, st: Store): Machine {
    Machine(0, seq(p.temps, _ => Empty), st)
  }

  lemma StepsAdd(lib: Lib, p: Program, m: Machine, a: nat, b: nat)
    ensures var r := Steps(lib, p, m, a); Steps(lib, p, m, a + b) == if r.Running? then Steps(lib, p, r.m, b) else r
    decreases a
  {
    if a > 0 {
      var r := Step(lib, p, m);
      if r.Running? { StepsAdd(lib, p, r.m, a - 1, b); }
    }
  }
}
