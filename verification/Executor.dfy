/** The dispatch loop of zend_execute.c over an array of temporaries, proved to follow the machine of module Opcodes. */
module Executor {
  import opened Values
  import opened Common
  import opened Opcodes

  class Execution {
    var opline: nat
    const Ts: array<Temp>
    var store: Store

    ghost function Now(): Machine
      reads this, Ts
    {
      Machine(opline, Ts[..], store)
    }

    constructor (p: Program, st: Store)
      ensures Now() == Boot(p, st) && fresh(Ts)
    {
      opline, store := 0, st;
      Ts := new Temp[p.temps](_ => Empty);
    }

    method GetZval(a: Node) returns (v: Option<Value>)
      ensures v == Operand(a, Ts[..])
    {
      match a {
        case Const(c) => v := Some(c);
        case Tmp(i) => v := if i < Ts.Length && Ts[i].Val? then Some(Ts[i].v) else None;
        case VarTmp(i) => v := if i < Ts.Length && Ts[i].Val? then Some(Ts[i].v) else None;
        case _ => v := None;
      }
    }

    method GetVariable(a: Node) returns (x: Option<string>)
      ensures x == Target(a, Ts[..])
    {
      x := if a.VarTmp? && a.n < Ts.Length && Ts[a.n].Slot? then Some(Ts[a.n].x) else None;
    }

    /** Writes the result and moves on; false when the result operand names no temporary. */
    method SetResult(res: Node, t: Temp) returns (ok: bool)
      modifies this`opline, Ts
      ensures var r := Put(old(Now()), res, t, store); ok == r.Running? && (ok ==> Now() == r.m)
    {
      ok := (res.Tmp? || res.VarTmp?) && res.n < Ts.Length;
      if ok {
        Ts[res.n] := t;
        opline := opline + 1;
      }
    }

    method Jump(a: Node) returns (ok: bool)
      modifies this`opline
      ensures var r := Goto(old(Now()), a); ok == r.Running? && (ok ==> Now() == r.m)
    {
      ok := a.Addr? && a.to >= 0;
      if ok {
        opline := a.to;
      }
    }

    /** The do-while loop of BRK and CONT. */
    method FindLoop(loops: seq<BrkCont>, off: int, levels: int) returns (l: Lookup)
      ensures l == Enclosing(loops, off, if levels <= 1 then 1 else levels)
    {
      var offset, nestLevels := off, levels;
      ghost var n: nat := if levels <= 1 then 1 else levels;
      while true
        invariant n == (if nestLevels <= 1 then 1 else nestLevels)
        invariant Enclosing(loops, offset, n) == Enclosing(loops, off, if levels <= 1 then 1 else levels)
        decreases n
      {
        if offset == -1 {
          return TooShallow;
        }
        if !(0 <= offset < |loops|) {
          return OutsideTable;
        }
        var jmpTo := loops[offset];
        offset := jmpTo.parent;
        nestLevels := nestLevels - 1;
        if nestLevels <= 0 {
          return Found(jmpTo);
        }
        n := n - 1;
      }
    }

    method ComputeValue(lib: Lib, op: Op) returns (ok: bool)
      modifies this, Ts
      ensures var r := Compute(lib, old(Now()), op); ok == r.Running? && (ok ==> Now() == r.m)
    {
      var a := GetZval(op.op1);
      var b := GetZval(op.op2);
      ok := a.Some?;
      if ok {
        var v := Null;
        match op.code {
          case OpBinary(f) =>
            ok := b.Some?;
            v := if ok then lib.binary(f, a.value, b.value) else Null;
          case OpCase =>
            ok := b.Some?;
            v := if ok then lib.binary(IsEqual, a.value, b.value) else Null;
          case OpUnary(f) => v := lib.unary(f, a.value);
          case OpBool => v := Bool(IsTrue(a.value));
          case OpQmAssign => v := a.value;
          case OpPrint =>
            v := Long(1);
            store := store.Emit(Echoed(a.value));
          case _ => ok := false;
        }
        if ok {
          ok := SetResult(op.result, Val(v));
        }
      }
    }

    method AccessVariable(lib: Lib, op: Op) returns (ok: bool)
      modifies this, Ts
      ensures var r := Access(lib, old(Now()), op); ok == r.Running? && (ok ==> Now() == r.m)
    {
      var x := GetVariable(op.op1);
      var b := GetZval(op.op2);
      var t := Empty;
      ok := true;
      match op.code {
        case OpFetchR(y) => t, store := Val(store.Get(y)), store.FetchedR(y);
        case OpFetchW(y) => t, store := Slot(y), store.FetchedW(y);
        case OpFetchRW(y) => t, store := Slot(y), store.FetchedRW(y);
        case OpAssign =>
          ok := x.Some? && b.Some?;
          if ok {
            t, store := Val(b.value), store.Set(x.value, b.value);
          }
        case OpAssignOp(f) =>
          ok := x.Some? && b.Some?;
          if ok {
            var w := lib.binary(f, store.Get(x.value), b.value);
            t, store := Val(w), store.Set(x.value, w);
          }
        case OpIncDec(k) =>
          ok := x.Some?;
          if ok {
            var was := store.Get(x.value);
            var now := lib.incDec(k, was);
            t, store := Val(if k.Post() then was else now), store.Set(x.value, now);
          }
        case _ => ok := false;
      }
      if ok {
        ok := SetResult(op.result, t);
      }
    }

    method TestAndJump(op: Op) returns (ok: bool)
      modifies this, Ts
      ensures var r := Branch(old(Now()), op); ok == r.Running? && (ok ==> Now() == r.m)
    {
      var a := GetZval(op.op1);
      ok := a.Some?;
      if ok {
        var cond := IsTrue(a.value);
        match op.code {
          case OpJmpZ => if cond { opline := opline + 1; } else { ok := Jump(op.op2); }
          case OpJmpNZ => if cond { ok := Jump(op.op2); } else { opline := opline + 1; }
          case OpJmpZNZ => if cond { ok := Jump(op.ext); } else { ok := Jump(op.op2); }
          case OpJmpZEx =>
            ok := SetResult(op.result, Val(Bool(cond)));
            if ok && !cond { ok := Jump(op.op2); }
          case OpJmpNZEx =>
            ok := SetResult(op.result, Val(Bool(cond)));
            if ok && cond { ok := Jump(op.op2); }
          case _ => ok := false;
        }
      }
    }

    /** One round of the loop; `halt` is Some when the script is over. */
    method Round(lib: Lib, p: Program) returns (halt: Option<Run>)
      modifies this, Ts
      ensures var r := Step(lib, p, old(Now())); if r.Running? then halt == None && Now() == r.m else halt == Some(r)
    {
      if opline >= |p.ops| {
        return Some(Wild);
      }
      hide Compute, Access, Branch, Leave;
      var op := p.ops[opline];
      var ok := true;
      if op.code.OpJmp? {
        ok := Jump(op.op1);
      } else if op.code.OpFree? || op.code.OpSwitchFree? {
        opline := opline + 1;
      } else if op.code.OpEcho? {
        var a := GetZval(op.op1);
        ok := a.Some?;
        if ok {
          store := store.Emit(Echoed(a.value));
          opline := opline + 1;
        }
      } else if op.code.OpReturn? {
        var a := GetZval(op.op1);
        return Some(if a.Some? then Done(a.value, store) else Wild);
      } else if op.code.OpBrk? || op.code.OpCont? {
        halt := BreakOut(p, op, op.code.OpBrk?);
        return;
      } else {
        if op.code.Jumps() {
          ok := TestAndJump(op);
        } else if op.code.Accesses() {
          ok := AccessVariable(lib, op);
        } else {
          ok := ComputeValue(lib, op);
        }
        HaltsWild(lib, old(Now()), op);
      }
      halt := if ok then None else Some(Wild);
    }

    method BreakOut(p: Program, op: Op, brk: bool) returns (halt: Option<Run>)
      modifies this
      ensures var r := Leave(p, old(Now()), op, brk); if r.Running? then halt == None && Now() == r.m else halt == Some(r)
    {
      if !(op.op1.Addr? && op.op2.Const? && op.op2.v.Long?) {
        return Some(Wild);
      }
      var l := FindLoop(p.loops, op.op1.to, op.op2.v.n);
      match l {
        case Found(e) =>
          opline := if brk then e.brk else e.cont;
          halt := None;
        case TooShallow => halt := Some(Fatal(store));
        case OutsideTable => halt := Some(Wild);
      }
    }
  }

  /** These handlers either go on or misbehave; they never end the script. */
  lemma HaltsWild(lib: Lib, m: Machine, op: Op)
    ensures var r := Branch(m, op); r.Running? || r.Wild?
    ensures var r := Access(lib, m, op); r.Running? || r.Wild?
    ensures var r := Compute(lib, m, op); r.Running? || r.Wild?
  {
  }

  /** Runs a program for at most so many rounds. */
  method Execute(lib: Lib, p: Program, st: Store, rounds: nat) returns (r: Run)
    ensures r == Steps(lib, p, Boot(p, st), rounds)
  {
    hide Step;
    var e := new Execution(p, st);
    var i := 0;
    while i < rounds
      invariant 0 <= i <= rounds
      invariant fresh(e) && fresh(e.Ts)
      invariant Steps(lib, p, e.Now(), rounds - i) == Steps(lib, p, Boot(p, st), rounds)
    {
      var halt := e.Round(lib, p);
      if halt.Some? {
        return halt.value;
      }
      i := i + 1;
    }
    r := Running(Machine(e.opline, e.Ts[..], e.store));
  }
}
