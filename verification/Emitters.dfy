/**
 The emitters of zend_compile.c: each appends opcodes to the op array under construction, takes a note of
 opcode numbers whose target is still open, and patches them when the target is known. Tokens that the
 grammar passes between the emitters of one construct are their parameters and results.
 */
module Emitters {
  import opened Values
  import opened Opcodes
  import opened Codegen

  /** An entry of switch_cond_stack. */
  datatype SwitchEntry = SwitchEntry(cond: Node, defaultCase: int, controlVar: nat)

  /** The compiler's whole state. `bp` is bp_stack: the lists of jumps still to be patched, innermost last. */
  datatype State = State(ops: seq<Op>, t: nat, loops: seq<BrkCont>, cur: int, sw: seq<SwitchEntry>, bp: seq<seq<nat>>) {
    function Append(op: Op): State { this.(ops := ops + [op]) }

    /** begin_loop: a new table entry, still empty but for its parent, becomes the current loop. */
    function LoopBegun(): State { this.(cur := |loops|, loops := loops + [BrkCont(0, 0, cur)]) }

    /** end_loop: the current entry gets its two targets, and its parent becomes the current loop. */
    function LoopEnded(contAddr: nat): State
      requires 0 <= cur < |loops|
    {
      this.(loops := loops[cur := BrkCont(contAddr, |ops|, loops[cur].parent)], cur := loops[cur].parent)
    }
  }

  /** Sets op1, op2 or the extended value of an opcode to a target. */
  datatype Field = Op1 | Op2 | Ext

  function Patched(op: Op, f: Field, to: int): Op {
    match f
    case Op1 => op.(op1 := Addr(to))
    case Op2 => op.(op2 := Addr(to))
    case Ext => op.(ext := Addr(to))
  }

  predicate Open(op: Op, f: Field) {
    match f
    case Op1 => op.op1.Unused?
    case Op2 => op.op2.Unused?
    case Ext => op.ext.Unused?
  }

  /** Every listed opcode is there, listed once, and its op1 is still open. */
  ghost predicate AllOpen(ops: seq<Op>, list: seq<nat>) {
    && (forall j :: 0 <= j < |list| ==> list[j] < |ops| && Open(ops[list[j]], Op1))
    && (forall i, j :: 0 <= i < j < |list| ==> list[i] != list[j])
  }

  lemma AllOpenNext(ops: seq<Op>, list: seq<nat>, to: int)
    requires AllOpen(ops, list) && list != []
    ensures AllOpen(ops[list[0] := Patched(ops[list[0]], Op1, to)], list[1..])
  {
  }

  /** Patches op1 of every listed opcode. */
  function PatchAll(ops: seq<Op>, list: seq<nat>, to: int): (r: seq<Op>)
    requires forall j :: 0 <= j < |list| ==> list[j] < |ops|
    ensures |r| == |ops|
    decreases list
  {
    if list == [] then ops
    else PatchAll(ops[list[0] := Patched(ops[list[0]], Op1, to)], list[1..], to)
  }

  class OpArray {
    var opcodes: seq<Op>
    var T: nat
    var brkContArray: seq<BrkCont>
    var currentBrkCont: int
    var switchCondStack: seq<SwitchEntry>
    var bpStack: seq<seq<nat>>

    /** The state as a value. */
    ghost function Now(): State
      reads this
    {
      State(opcodes, T, brkContArray, currentBrkCont, switchCondStack, bpStack)
    }

    constructor ()
      ensures Now() == State([], 0, [], -1, [], [])
    {
      opcodes, T, brkContArray, currentBrkCont, switchCondStack, bpStack := [], 0, [], -1, [], [];
    }

    /** Appends an opcode; get_next_op and the assignments that follow it. */
    method Emit(op: Op)
      modifies this
      ensures Now() == old(Now()).Append(op)
    {
      opcodes := opcodes + [op];
    }

    /** Fills in a target that is still open. */
    method Patch(i: nat, f: Field, to: nat)
      requires i < |opcodes| && Open(opcodes[i], f)
      modifies this
      ensures Now() == old(Now()).(ops := old(opcodes)[i := Patched(old(opcodes)[i], f, to)])
    {
      opcodes := opcodes[i := Patched(opcodes[i], f, to)];
    }

    method GetTemporaryVariable() returns (n: nat)
      modifies this
      ensures n == old(T) && Now() == old(Now()).(t := n + 1)
    {
      n := T;
      T := T + 1;
    }

    method BeginLoop()
      modifies this
      ensures Now() == old(Now()).LoopBegun()
    {
      var parent := currentBrkCont;
      currentBrkCont := |brkContArray|;
      brkContArray := brkContArray + [BrkCont(0, 0, parent)];
    }

    method EndLoop(contAddr: nat)
      requires 0 <= currentBrkCont < |brkContArray|
      modifies this
      ensures Now() == old(Now()).LoopEnded(contAddr)
    {
      var e := brkContArray[currentBrkCont];
      brkContArray := brkContArray[currentBrkCont := e.(cont := contAddr)];
      brkContArray := brkContArray[currentBrkCont := brkContArray[currentBrkCont].(brk := |opcodes|)];
      currentBrkCont := brkContArray[currentBrkCont].parent;
    }

    // Expressions

    method UnaryOp(code: Opcode, arg: Node) returns (result: Node)
      modifies this
      ensures result == Tmp(old(T))
      ensures Now() == old(Now()).Append(Mk(code, result, arg, Unused)).(t := old(T) + 1)
    {
      var n := GetTemporaryVariable();
      result := Tmp(n);
      Emit(Mk(code, result, arg, Unused));
    }

    method BinaryOp(op: BinOp, a: Node, b: Node) returns (result: Node)
      modifies this
      ensures result == Tmp(old(T))
      ensures Now() == old(Now()).Append(Mk(OpBinary(op), result, a, b)).(t := old(T) + 1)
    {
      var n := GetTemporaryVariable();
      result := Tmp(n);
      Emit(Mk(OpBinary(op), result, a, b));
    }

    /** Assignments and increments: the result is a variable temporary, or a plain one for post-increment. */
    method VariableOp(code: Opcode, plain: bool, target: Node, arg: Node) returns (result: Node)
      modifies this
      ensures result == if plain then Tmp(old(T)) else VarTmp(old(T))
      ensures Now() == old(Now()).Append(Mk(code, result, target, arg)).(t := old(T) + 1)
    {
      var n := GetTemporaryVariable();
      result := if plain then Tmp(n) else VarTmp(n);
      Emit(Mk(code, result, target, arg));
    }

    /** zend_do_boolean_or_begin and zend_do_boolean_and_begin. */
    method BooleanBegin(jump: Opcode, expr1: Node) returns (opToken: nat, left: Node)
      modifies this
      ensures opToken == |old(opcodes)|
      ensures left == if expr1.Tmp? then expr1 else Tmp(old(T))
      ensures Now() == old(Now()).Append(Mk(jump, left, expr1, Unused)).(t := if expr1.Tmp? then old(T) else old(T) + 1)
    {
      opToken := |opcodes|;
      if expr1.Tmp? {
        left := expr1;
      } else {
        var n := GetTemporaryVariable();
        left := Tmp(n);
      }
      Emit(Mk(jump, left, expr1, Unused));
    }

    /** zend_do_boolean_or_end and zend_do_boolean_and_end. */
    method BooleanEnd(left: Node, expr2: Node, opToken: nat)
      requires opToken < |opcodes| && Open(opcodes[opToken], Op2)
      modifies this
      ensures var ops := old(opcodes) + [Mk(OpBool, left, expr2, Unused)];
        Now() == old(Now()).(ops := ops[opToken := Patched(ops[opToken], Op2, |ops|)])
    {
      Emit(Mk(OpBool, left, expr2, Unused));
      Patch(opToken, Op2, |opcodes|);
    }

    method BeginQmOp(cond: Node) returns (qmToken: nat)
      modifies this
      ensures qmToken == |old(opcodes)| && Now() == old(Now()).Append(Mk(OpJmpZ, Unused, cond, Unused))
    {
      qmToken := |opcodes|;
      Emit(Mk(OpJmpZ, Unused, cond, Unused));
    }

    method QmTrue(trueValue: Node, qmToken: nat) returns (result: Node, colonToken: nat)
      requires qmToken < |opcodes| && Open(opcodes[qmToken], Op2)
      modifies this
      ensures result == Tmp(old(T)) && colonToken == |old(opcodes)| + 1
      ensures var ops := old(opcodes) + [Mk(OpQmAssign, result, trueValue, Unused)];
        Now() == old(Now()).(
          ops := ops[qmToken := Patched(ops[qmToken], Op2, |ops| + 1)] + [Mk(OpJmp, Unused, Unused, Unused)], t := old(T) + 1)
    {
      var n := GetTemporaryVariable();
      result := Tmp(n);
      Emit(Mk(OpQmAssign, result, trueValue, Unused));
      Patch(qmToken, Op2, |opcodes| + 1);
      colonToken := |opcodes|;
      Emit(Mk(OpJmp, Unused, Unused, Unused));
    }

    method QmFalse(falseValue: Node, result: Node, colonToken: nat)
      requires colonToken < |opcodes| && Open(opcodes[colonToken], Op1)
      modifies this
      ensures var ops := old(opcodes) + [Mk(OpQmAssign, result, falseValue, Unused)];
        Now() == old(Now()).(ops := ops[colonToken := Patched(ops[colonToken], Op1, |ops|)])
    {
      Emit(Mk(OpQmAssign, result, falseValue, Unused));
      Patch(colonToken, Op1, |opcodes|);
    }

    method Free(n: Node)
      modifies this
      ensures Now() == old(Now()).(ops := old(opcodes) + FreeOps(n))
    {
      if n.Tmp? {
        Emit(Mk(OpFree, Unused, n, Unused));
      }
    }

    // Loops

    method WhileCond(expr: Node) returns (closeBracket: nat)
      modifies this
      ensures closeBracket == |old(opcodes)|
      ensures Now() == old(Now()).Append(Mk(OpJmpZ, Unused, expr, Unused)).LoopBegun()
    {
      closeBracket := |opcodes|;
      Emit(Mk(OpJmpZ, Unused, expr, Unused));
      BeginLoop();
    }

    method WhileEnd(whileToken: nat, closeBracket: nat)
      requires closeBracket < |opcodes| && Open(opcodes[closeBracket], Op2)
      requires 0 <= currentBrkCont < |brkContArray|
      modifies this
      ensures var ops := old(opcodes) + [Mk(OpJmp, Unused, Addr(whileToken), Unused)];
        Now() == old(Now()).(ops := ops[closeBracket := Patched(ops[closeBracket], Op2, |ops|)]).LoopEnded(whileToken)
    {
      Emit(Mk(OpJmp, Unused, Addr(whileToken), Unused));
      Patch(closeBracket, Op2, |opcodes|);
      EndLoop(whileToken);
    }

    method DoWhileEnd(doToken: nat, openBracket: nat, expr: Node)
      requires 0 <= currentBrkCont < |brkContArray|
      modifies this
      ensures Now() == old(Now()).Append(Mk(OpJmpNZ, Unused, expr, Addr(doToken))).LoopEnded(openBracket)
    {
      Emit(Mk(OpJmpNZ, Unused, expr, Addr(doToken)));
      EndLoop(openBracket);
    }

    method ForCond(expr: Node) returns (secondSemicolon: nat)
      modifies this
      ensures secondSemicolon == |old(opcodes)| && Now() == old(Now()).Append(Mk(OpJmpZNZ, Unused, expr, Unused))
    {
      secondSemicolon := |opcodes|;
      Emit(Mk(OpJmpZNZ, Unused, expr, Unused));
    }

    method ForBeforeStatement(condStart: nat, secondSemicolon: nat)
      requires secondSemicolon < |opcodes| && Open(opcodes[secondSemicolon], Ext)
      modifies this
      ensures var ops := old(opcodes) + [Mk(OpJmp, Unused, Addr(condStart), Unused)];
        Now() == old(Now()).(ops := ops[secondSemicolon := Patched(ops[secondSemicolon], Ext, |ops|)]).LoopBegun()
    {
      Emit(Mk(OpJmp, Unused, Addr(condStart), Unused));
      Patch(secondSemicolon, Ext, |opcodes|);
      BeginLoop();
    }

    method ForEnd(secondSemicolon: nat)
      requires secondSemicolon < |opcodes| && Open(opcodes[secondSemicolon], Op2)
      requires 0 <= currentBrkCont < |brkContArray|
      modifies this
      ensures var ops := old(opcodes) + [Mk(OpJmp, Unused, Addr(secondSemicolon + 1), Unused)];
        Now() == old(Now()).(ops := ops[secondSemicolon := Patched(ops[secondSemicolon], Op2, |ops|)]).LoopEnded(secondSemicolon + 1)
    {
      Emit(Mk(OpJmp, Unused, Addr(secondSemicolon + 1), Unused));
      Patch(secondSemicolon, Op2, |opcodes|);
      EndLoop(secondSemicolon + 1);
    }

    // if

    method IfCond(cond: Node) returns (closingBracket: nat)
      modifies this
      ensures closingBracket == |old(opcodes)| && Now() == old(Now()).Append(Mk(OpJmpZ, Unused, cond, Unused))
    {
      closingBracket := |opcodes|;
      Emit(Mk(OpJmpZ, Unused, cond, Unused));
    }

    method IfAfterStatement(closingBracket: nat, initialize: bool)
      requires closingBracket < |opcodes| && Open(opcodes[closingBracket], Op2)
      requires initialize || bpStack != []
      modifies this
      ensures var ops := old(opcodes) + [Mk(OpJmp, Unused, Unused, Unused)];
        var bp := if initialize then old(bpStack) + [[]] else old(bpStack);
        Now() == old(Now()).(ops := ops[closingBracket := Patched(ops[closingBracket], Op2, |ops|)],
                             bp := bp[|bp| - 1 := bp[|bp| - 1] + [|old(opcodes)|]])
    {
      var ifEnd := |opcodes|;
      Emit(Mk(OpJmp, Unused, Unused, Unused));
      if initialize {
        bpStack := bpStack + [[]];
      }
      bpStack := bpStack[|bpStack| - 1 := bpStack[|bpStack| - 1] + [ifEnd]];
      Patch(closingBracket, Op2, ifEnd + 1);
    }

    /** Patches every jump on the innermost list to the end of the if, and drops the list. */
    method IfEnd()
      requires bpStack != []
      requires AllOpen(opcodes, bpStack[|bpStack| - 1])
      modifies this
      ensures var n := |old(bpStack)| - 1;
        Now() == old(Now()).(ops := PatchAll(old(opcodes), old(bpStack)[n], |old(opcodes)|), bp := old(bpStack)[..n])
    {
      var list := bpStack[|bpStack| - 1];
      var next := |opcodes|;
      var i := 0;
      while i < |list|
        invariant 0 <= i <= |list| && |opcodes| == next == |old(opcodes)|
        invariant AllOpen(opcodes, list[i..]) && PatchAll(opcodes, list[i..], next) == PatchAll(old(opcodes), list, next)
        invariant Now() == old(Now()).(ops := opcodes)
      {
        assert list[i..][1..] == list[i + 1..] && list[i..][0] == list[i];
        AllOpenNext(opcodes, list[i..], next);
        Patch(list[i], Op1, next);
        i := i + 1;
      }
      bpStack := bpStack[..|bpStack| - 1];
    }

    // break, continue, return

    method BreakOrContinue(op: Opcode, levels: int)
      modifies this
      ensures Now() == old(Now()).Append(Mk(op, Unused, Addr(old(currentBrkCont)), Const(Long(levels))))
    {
      Emit(Mk(op, Unused, Addr(currentBrkCont), Const(Long(levels))));
    }

    /** The frees of the enclosing switch subjects, from the top of the stack down to the first constant one, then the return. */
    method Return(expr: Node)
      modifies this
      ensures Now() == old(Now()).(ops := old(opcodes) + (ReturnFrees(Subjects(old(switchCondStack))) + [Mk(OpReturn, Unused, expr, Unused)]))
    {
      hide ReturnFrees, Subjects;
      ghost var done: seq<Op> := [];
      ghost var was := Now();
      var i := |switchCondStack|;
      assert switchCondStack[..i] == switchCondStack;
      while i > 0 && (switchCondStack[i - 1].cond.Tmp? || switchCondStack[i - 1].cond.VarTmp?)
        invariant 0 <= i <= |switchCondStack|
        invariant Now() == was.(ops := was.ops + done)
        invariant done + ReturnFrees(Subjects(switchCondStack[..i])) == ReturnFrees(Subjects(switchCondStack))
      {
        ReturnFreesStep(switchCondStack, i);
        done := done + [Mk(OpSwitchFree, Unused, switchCondStack[i - 1].cond, Unused)];
        Emit(Mk(OpSwitchFree, Unused, switchCondStack[i - 1].cond, Unused));
        i := i - 1;
      }
      ReturnFreesEnd(switchCondStack, i);
      assert done + [] == done;
      Emit(Mk(OpReturn, Unused, expr, Unused));
      assert (was.ops + done) + [Mk(OpReturn, Unused, expr, Unused)] == was.ops + (done + [Mk(OpReturn, Unused, expr, Unused)]);
    }

    // switch

    method SwitchCond(cond: Node)
      modifies this
      ensures Now() == old(Now()).Append(Mk(OpBool, Tmp(old(T)), Const(Bool(false)), Unused)).LoopBegun()
          .(t := old(T) + 1, sw := old(switchCondStack) + [SwitchEntry(cond, -1, old(T))])
    {
      var n := GetTemporaryVariable();
      Emit(Mk(OpBool, Tmp(n), Const(Bool(false)), Unused));
      switchCondStack := switchCondStack + [SwitchEntry(cond, -1, n)];
      BeginLoop();
    }

    /** `caseList` is the opcode number of the open jump of the previous case, or -1. */
    method CaseBeforeStatement(caseList: int, expr: Node) returns (caseToken: nat)
      requires switchCondStack != []
      requires caseList == -1 || (0 <= caseList < |opcodes| && Open(opcodes[caseList], Op1))
      modifies this
      ensures caseToken == |old(opcodes)| + 1
      ensures var e := old(switchCondStack)[|old(switchCondStack)| - 1];
        var ops := Closed(old(opcodes), caseList, |old(opcodes)| + 2);
        Now() == old(Now()).(ops := ops + [Mk(OpCase, Tmp(e.controlVar), e.cond, expr),
                                           Mk(OpJmpZ, Unused, Tmp(e.controlVar), Unused)])
    {
      var e := switchCondStack[|switchCondStack| - 1];
      Emit(Mk(OpCase, Tmp(e.controlVar), e.cond, expr));
      caseToken := |opcodes|;
      Emit(Mk(OpJmpZ, Unused, Tmp(e.controlVar), Unused));
      if caseList != -1 {
        Patch(caseList, Op1, |opcodes|);
      }
    }

    method DefaultBeforeStatement(caseList: int) returns (defaultToken: nat)
      requires switchCondStack != []
      requires caseList == -1 || (0 <= caseList < |opcodes| && Open(opcodes[caseList], Op1))
      modifies this
      ensures defaultToken == |old(opcodes)|
      ensures var n := |old(switchCondStack)| - 1;
        var e := old(switchCondStack)[n];
        var ops := Closed(old(opcodes), caseList, |old(opcodes)| + 2);
        Now() == old(Now()).(ops := ops + [Mk(OpJmp, Unused, Unused, Unused), Mk(OpBool, Tmp(e.controlVar), Const(Bool(true)), Unused)],
                             sw := old(switchCondStack)[n := e.(defaultCase := |old(opcodes)| + 1)])
    {
      var e := switchCondStack[|switchCondStack| - 1];
      defaultToken := |opcodes|;
      Emit(Mk(OpJmp, Unused, Unused, Unused));
      var next := |opcodes|;
      Emit(Mk(OpBool, Tmp(e.controlVar), Const(Bool(true)), Unused));
      switchCondStack := switchCondStack[|switchCondStack| - 1 := e.(defaultCase := next)];
      if caseList != -1 {
        Patch(caseList, Op1, |opcodes|);
      }
    }

    /** The jump behind the body stays open; the opcode that skips the body is told where the body ends. */
    method CaseAfterStatement(caseToken: nat) returns (caseList: nat)
      requires caseToken < |opcodes|
      requires opcodes[caseToken].code.OpJmp? ==> Open(opcodes[caseToken], Op1)
      requires opcodes[caseToken].code.OpJmpZ? ==> Open(opcodes[caseToken], Op2)
      requires opcodes[caseToken].code.OpJmp? || opcodes[caseToken].code.OpJmpZ?
      modifies this
      ensures caseList == |old(opcodes)|
      ensures var ops := old(opcodes) + [Mk(OpJmp, Unused, Unused, Unused)];
        var f := if ops[caseToken].code.OpJmp? then Op1 else Op2;
        Now() == old(Now()).(ops := ops[caseToken := Patched(ops[caseToken], f, |ops|)])
    {
      caseList := |opcodes|;
      Emit(Mk(OpJmp, Unused, Unused, Unused));
      match opcodes[caseToken].code {
        case OpJmp => Patch(caseToken, Op1, |opcodes|);
        case OpJmpZ => Patch(caseToken, Op2, |opcodes|);
        case _ =>
      }
    }

    method SwitchEnd(caseList: int)
      requires switchCondStack != [] && 0 <= currentBrkCont < |brkContArray|
      requires caseList == -1 || (0 <= caseList < |opcodes| && Open(opcodes[caseList], Op1))
      modifies this
      ensures var n := |old(switchCondStack)| - 1;
        var e := old(switchCondStack)[n];
        var tail := |old(opcodes)|;
        var again := if e.defaultCase == -1 then [] else [Mk(OpJmpZ, Unused, Tmp(e.controlVar), Addr(e.defaultCase))];
        var end := tail + |again|;
        Now() == old(Now()).(ops := Closed(old(opcodes), caseList, tail) + again).LoopEnded(end)
            .(ops := Closed(old(opcodes), caseList, tail) + again + SwitchFrees(e.cond), sw := old(switchCondStack)[..n])
    {
      var e := switchCondStack[|switchCondStack| - 1];
      if caseList != -1 {
        Patch(caseList, Op1, |opcodes|);
      }
      if e.defaultCase != -1 {
        Emit(Mk(OpJmpZ, Unused, Tmp(e.controlVar), Addr(e.defaultCase)));
      }
      EndLoop(|opcodes|);
      if e.cond.VarTmp? || e.cond.Tmp? {
        Emit(Mk(OpSwitchFree, Unused, e.cond, Unused));
      }
      switchCondStack := switchCondStack[..|switchCondStack| - 1];
    }
  }

  lemma ReturnFreesEnd(sw: seq<SwitchEntry>, i: nat)
    requires i <= |sw| && (i > 0 ==> !sw[i - 1].cond.Tmp? && !sw[i - 1].cond.VarTmp?)
    ensures ReturnFrees(Subjects(sw[..i])) == []
  {
  }

  lemma ReturnFreesStep(sw: seq<SwitchEntry>, i: nat)
    requires 0 < i <= |sw| && (sw[i - 1].cond.Tmp? || sw[i - 1].cond.VarTmp?)
    ensures ReturnFrees(Subjects(sw[..i])) ==
      [Mk(OpSwitchFree, Unused, sw[i - 1].cond, Unused)] + ReturnFrees(Subjects(sw[..i - 1]))
  {
    assert Subjects(sw[..i])[..i - 1] == Subjects(sw[..i - 1]);
  }

  /** Closes the open jump of the previous case, if there is one. */
  function Closed(ops: seq<Op>, caseList: int, to: nat): (r: seq<Op>)
    requires caseList == -1 || 0 <= caseList < |ops|
    ensures |r| == |ops|
  {
    if caseList == -1 then ops else ops[caseList := Patched(ops[caseList], Op1, to)]
  }

  function Subjects(sw: seq<SwitchEntry>): (r: seq<Node>)
    ensures |r| == |sw|
  {
    seq(|sw|, i requires 0 <= i < |sw| => sw[i].cond)
  }
}
