/**
 Scripts on scalar variables carried out by the copy-on-write opcodes: on shared, reference-counted zvals they do
 exactly what LateReading says.
 */
module ReferenceScripts {
  import opened Common
  import opened Values
  import opened Zvals
  import opened RefSets
  import opened CowMoves
  import opened Pendings
  import opened CopyOnWrite
  import opened ReferenceMeaning
  import opened LateReading

  lemma FreshTemp(s: set<nat>)
    ensures exists t: nat :: t !in s
  {
    var t := Beyond(s);
    assert t !in s;
  }

  method NewTemp(v: Variables) returns (t: nat)
    ensures t !in v.locked && t !in v.vals
  {
    FreshTemp(v.locked.Keys + v.vals.Keys);
    t :| t !in v.locked.Keys + v.vals.Keys;
  }

  /** Locks before an expression, and after it with its result. */
  ghost predicate LockedBy(before: map<nat, Ptr>, after: map<nat, Ptr>, r: Operand) {
    if r.Lock? then r.t !in before && r.t in after && after == before[r.t := after[r.t]] else after == before
  }

  ghost predicate ValsGrown(before: map<nat, Value>, after: map<nat, Value>, r: Operand) {
    (forall t :: t in before ==> t in after && after[t] == before[t]) && (r.Tmp? ==> r.t !in before && r.t in after)
  }

  method EvalRead(v: Variables, x: string, used: bool) returns (r: Operand)
    requires Tidy(v.Now()) && v.slotOf == map[]
    modifies v
    ensures Tidy(v.Now()) && v.slotOf == map[] && Grounded(old(v.Now())) && View(v.Now()) == View(old(v.Now()))
    ensures Follows(old(v.Now()), v.Now(), Nothing) && v.vals == old(v.vals)
    ensures used ==> Usable(v.Now(), r) && Seen(v.Now(), r) == Pendings.Read(v.Now(), x)
    ensures LockedBy(old(v.locked), v.locked, r) && !r.Tmp? && (r.Lock? ==> used)
  {
    hide Tidy, View, LocksKept, Vars.Get, Usable, OperandValue, Follows, Seen;
    r := Const(Null);
    if used {
      var t := NewTemp(v);
      v.OpFetchR(x, t);
      r := Lock(t);
    } else {
      v.Begin();
    }
  }

  method EvalBinary(v: Variables, lib: Lib, op: BinOp, a: Operand, b: Operand) returns (r: Operand)
    requires Tidy(v.Now()) && v.slotOf == map[] && Usable(v.Now(), a) && Usable(v.Now(), b) && (a.Lock? ==> b != a)
    modifies v
    ensures Tidy(v.Now()) && v.slotOf == map[] && Grounded(old(v.Now())) && View(v.Now()) == View(old(v.Now()))
    ensures Follows(old(v.Now()), v.Now(), Nothing) && r.Tmp? && ValsGrown(old(v.vals), v.vals, r)
    ensures Usable(v.Now(), r)
    ensures OperandValue(v.Now(), r) == lib.binary(op, OperandValue(old(v.Now()), a), OperandValue(old(v.Now()), b))
    ensures v.locked == Without(Without(old(v.locked), a), b)
  {
    hide Tidy, View, LocksKept, OperandValue, Follows;
    var out := NewTemp(v);
    v.OpBinary(lib, op, a, b, out);
    r := Tmp(out);
  }

  method EvalAssign(v: Variables, x: string, a: Operand, used: bool) returns (r: Operand)
    requires Tidy(v.Now()) && v.slotOf == map[] && Usable(v.Now(), a)
    modifies v
    ensures Tidy(v.Now()) && v.slotOf == map[] && Grounded(old(v.Now())) && v.vals == old(v.vals)
    ensures View(v.Now()) == Entered(View(old(v.Now())), x).Assigned(x, OperandValue(old(v.Now()), a))
    ensures Follows(old(v.Now()), v.Now(), Change.Write(x, OperandValue(old(v.Now()), a)))
    ensures used ==> Usable(v.Now(), r) && Seen(v.Now(), r) == Pendings.Read(v.Now(), x)
    ensures LockedBy(Without(old(v.locked), a), v.locked, r) && !r.Tmp? && (r.Lock? ==> used)
  {
    hide Tidy, View, LocksKept, Vars.Assigned, Vars.Touched, Follows, Seen, LockedAfter, LockedBy, Without, Usable, OperandValue;
    ghost var m := v.Now();
    var t := NewTemp(v);
    v.OpFetchW(x, t);
    ghost var m1 := v.Now();
    OperandStays(m, m1, t, x, a);
    var out := NewTemp(v);
    v.OpAssign(t, a, used, out);
    r := if used then Lock(out) else Const(Null);
    SlotAndOperand(m.locked, v.locked, t, m1.locked[t], a, used, out);
    FollowsThen(m, m1, v.Now(), Change.Write(x, OperandValue(m, a)));
  }

  method EvalAssignOp(v: Variables, lib: Lib, op: BinOp, x: string, a: Operand, used: bool) returns (r: Operand)
    requires Tidy(v.Now()) && v.slotOf == map[] && Usable(v.Now(), a)
    modifies v
    ensures Tidy(v.Now()) && v.slotOf == map[] && Grounded(old(v.Now())) && v.vals == old(v.vals)
    ensures var s := Entered(View(old(v.Now())), x); var w := lib.binary(op, s.Get(x), OperandValue(old(v.Now()), a));
      View(v.Now()) == s.Assigned(x, w) && Follows(old(v.Now()), v.Now(), Change.Write(x, w))
    ensures used ==> Usable(v.Now(), r) && Seen(v.Now(), r) == Pendings.Read(v.Now(), x)
    ensures LockedBy(Without(old(v.locked), a), v.locked, r) && !r.Tmp? && (r.Lock? ==> used)
  {
    hide Tidy, View, LocksKept, Vars.Assigned, Vars.Touched, Vars.Get, Follows, Seen, LockedAfter, LockedBy, Without, Usable, OperandValue;
    ghost var m := v.Now();
    var t := NewTemp(v);
    v.OpFetchW(x, t);
    ghost var m1 := v.Now();
    OperandStays(m, m1, t, x, a);
    var out := NewTemp(v);
    v.OpAssignOp(lib, op, t, a, used, out);
    r := if used then Lock(out) else Const(Null);
    SlotAndOperand(m.locked, v.locked, t, m1.locked[t], a, used, out);
    FollowsThen(m, m1, v.Now(), Change.Write(x, lib.binary(op, View(m1).Get(x), OperandValue(m, a))));
  }

  method EvalIncDec(v: Variables, lib: Lib, k: IncDec, x: string, used: bool) returns (r: Operand)
    requires Tidy(v.Now()) && v.slotOf == map[]
    modifies v
    ensures Tidy(v.Now()) && v.slotOf == map[] && Grounded(old(v.Now())) && ValsGrown(old(v.vals), v.vals, r)
    ensures var s := Entered(View(old(v.Now())), x); var w := lib.incDec(k, s.Get(x));
      View(v.Now()) == s.Assigned(x, w) && Follows(old(v.Now()), v.Now(), Change.Write(x, w)) &&
      (used ==> Usable(v.Now(), r) && Seen(v.Now(), r) == if k.Post() then Pending(s.Get(x), {}) else Pendings.Read(v.Now(), x))
    ensures LockedBy(old(v.locked), v.locked, r) && (r.Lock? ==> used && !k.Post())
  {
    hide Tidy, View, LocksKept, Vars.Assigned, Vars.Touched, Vars.Get, Follows;
    ghost var m := v.Now();
    var t := NewTemp(v);
    v.OpFetchW(x, t);
    ghost var m1 := v.Now();
    var out := NewTemp(v);
    v.OpIncDec(lib, k, t, used, out);
    FollowsThen(m, m1, v.Now(), Change.Write(x, lib.incDec(k, View(m1).Get(x))));
    r := if k.Post() then Tmp(out) else if used then Lock(out) else Const(Null);
  }

  method EvalBind(v: Variables, x: string, y: string, used: bool) returns (r: Operand)
    requires Tidy(v.Now()) && v.slotOf == map[]
    modifies v
    ensures Tidy(v.Now()) && v.slotOf == map[] && Grounded(old(v.Now())) && v.vals == old(v.vals)
    ensures var s := Entered(Entered(View(old(v.Now())), y), x); var w := BoundTo(s, x, y);
      View(v.Now()) == w && Follows(old(v.Now()), v.Now(), BindChange(x, y))
    ensures used ==> Usable(v.Now(), r) && Seen(v.Now(), r) == Pendings.Read(v.Now(), x)
    ensures LockedBy(old(v.locked), v.locked, r) && !r.Tmp? && (r.Lock? ==> used)
  {
    hide Tidy, View, LocksKept, Vars.Bound, Vars.Detached, Vars.Touched, Vars.Get, Follows, Seen, LockedAfter, LockedBy, Usable, OperandValue;
    ghost var m := v.Now();
    var u := NewTemp(v);
    v.OpFetchW(y, u);
    ghost var m1 := v.Now();
    var t := NewTemp(v);
    v.OpFetchW(x, t);
    ghost var m2 := v.Now();
    FollowsThen(m, m1, m2, Nothing);
    var out := NewTemp(v);
    v.OpAssignRef(t, u, used, out);
    r := if used then Lock(out) else Const(Null);
    TwoSlots(m.locked, v.locked, u, m1.locked[u], t, m2.locked[t], used, out);
    FollowsThen(m, m2, v.Now(), BindChange(x, y));
  }

  /** An operand outlives the fetching of a slot. */
  lemma OperandStays(m: Mem, n: Mem, t: nat, x: string, a: Operand)
    requires Usable(m, a) && t !in m.locked && t in n.locked && n.locked == m.locked[t := n.locked[t]] && n.slotOf == m.slotOf[t := x]
    requires LocksKept(m, n) && n.vals == m.vals && Grounded(m)
    ensures Usable(n, a) && OperandValue(n, a) == OperandValue(m, a) && (a.Lock? ==> a.t in m.locked)
  {
    UsableKept(m, n, a);
  }

  /** The locks when a slot and an operand have been used up. */
  lemma SlotAndOperand(before: map<nat, Ptr>, after: map<nat, Ptr>, t: nat, p: Ptr, a: Operand, used: bool, out: nat)
    requires t !in before && out !in before && out != t && (a.Lock? ==> a.t in before)
    requires LockedAfter(before[t := p], after, t, a, used, out)
    ensures LockedBy(Without(before, a), after, if used then Lock(out) else Const(Null))
    ensures forall u :: u in before && u in after ==> u in before[t := p]
  {
    assert Without(before[t := p], a) - {t} == Without(before, a);
  }

  lemma TwoSlots(before: map<nat, Ptr>, after: map<nat, Ptr>, u: nat, q: Ptr, t: nat, p: Ptr, used: bool, out: nat)
    requires t !in before && u !in before && t != u && out !in before && out != t && out != u
    requires LockedAfter(before[u := q][t := p] - {u}, after, t, Const(Null), used, out)
    ensures LockedBy(before, after, if used then Lock(out) else Const(Null))
  {
    assert before[u := q][t := p] - {u} - {t} == before;
  }

  lemma BothUsed(l0: map<nat, Ptr>, l1: map<nat, Ptr>, l2: map<nat, Ptr>, a: Operand, b: Operand)
    requires LockedBy(l0, l1, a) && LockedBy(l1, l2, b)
    ensures Without(Without(l2, a), b) == l0
  {
  }

  lemma Used(l0: map<nat, Ptr>, l1: map<nat, Ptr>, a: Operand)
    requires LockedBy(l0, l1, a)
    ensures Without(l1, a) == l0
  {
  }

  /** What is to be seen of the variables: their values, their sets, and the reference flags. */
  ghost function StateOf(m: Mem): State
    requires Grounded(m)
  {
    State(View(m), Flags(m))
  }

  lemma StateWellFormed(m: Mem)
    requires Grounded(m)
    ensures WellFormed(StateOf(m))
  {
    ViewCoherent(m);
  }

  lemma ReadIsRead(m: Mem, x: string)
    requires Grounded(m)
    ensures Pendings.Read(m, x) == StateOf(m).Read(x)
  {
  }

  /** Every temporary there was is still there, and shows what becomes of an operand that e comes after. */
  ghost predicate LocksTracked(lib: Lib, e: Expr, m: Mem, n: Mem)
    requires Grounded(m)
  {
    forall t :: t in m.locked ==> LockTracked(lib, e, m, n, t)
  }

  ghost predicate LockTracked(lib: Lib, e: Expr, m: Mem, n: Mem, t: nat)
    requires Grounded(m) && t in m.locked
  {
    && t in n.locked && n.locked[t] == m.locked[t] && m.locked[t] in m.heap && m.locked[t] in n.heap
    && Reading(n, n.locked[t]) == Tracked(lib, true, e, StateOf(m), Reading(m, m.locked[t]))
  }

  /** From memory m to memory n, the expression has been evaluated, with its value in operand r if it is used. */
  ghost predicate Evaluated(lib: Lib, e: Expr, used: bool, m: Mem, n: Mem, r: Operand) {
    && Tidy(n) && n.slotOf == map[] && Grounded(m) && Grounded(n)
    && StateOf(n) == Outcome(lib, true, e, StateOf(m)).1
    && (used ==> Usable(n, r) && Seen(n, r) == Outcome(lib, true, e, StateOf(m)).0)
    && LockedBy(m.locked, n.locked, r) && ValsGrown(m.vals, n.vals, r)
    && (r.Lock? ==> used)
    && LocksTracked(lib, e, m, n)
  }

  /** An operand survives the evaluation of the one after it, and may be changed by it. */
  lemma OperandTracked(lib: Lib, e: Expr, m: Mem, r: Mem, a: Operand, b: Operand)
    requires Grounded(m) && Usable(m, a) && LockedBy(m.locked, r.locked, b) && ValsGrown(m.vals, r.vals, b) && r.slotOf == map[]
    requires LocksTracked(lib, e, m, r)
    ensures Usable(r, a) && Seen(r, a) == Tracked(lib, true, e, StateOf(m), Seen(m, a)) && (a.Lock? ==> b != a)
  {
    hide Tracked, View, Flags;
    if a.Lock? {
      assert LockTracked(lib, e, m, r, a.t);
    } else {
      Unwatched(lib, true, e, StateOf(m), Seen(m, a));
    }
  }

  lemma SeenValue(m: Mem, r: Operand)
    requires Usable(m, r)
    ensures Seen(m, r).v == OperandValue(m, r)
  {
  }

  lemma KeepsTracked(lib: Lib, e: Expr, m: Mem, n: Mem)
    requires Follows(m, n, Nothing) && (e.Lit? || e.Read?) && forall t :: t in m.locked ==> t in n.locked
    ensures LocksTracked(lib, e, m, n)
  {
    forall t | t in m.locked
      ensures LockTracked(lib, e, m, n, t)
    {
      assert LockFollows(m, n, t, Nothing);
    }
  }

  /** An expression made of another and one opcode. */
  lemma EffectTracked(lib: Lib, e: Expr, m: Mem, m1: Mem, n: Mem)
    requires Grounded(m) && (e.Assign? || e.AssignOp?) && LocksTracked(lib, e.e, m, m1)
    requires Follows(m1, n, Effect(lib, true, e, StateOf(m))) && forall t :: t in m.locked ==> t in n.locked
    ensures LocksTracked(lib, e, m, n)
  {
    hide Effect, View, Flags;
    forall t | t in m.locked
      ensures LockTracked(lib, e, m, n, t)
    {
      assert LockTracked(lib, e.e, m, m1, t);
      assert LockFollows(m1, n, t, Effect(lib, true, e, StateOf(m)));
    }
  }

  /** An expression that is one opcode. */
  lemma OpcodeTracked(lib: Lib, e: Expr, m: Mem, n: Mem)
    requires Grounded(m) && (e.Bind? || e.IncDecVar?)
    requires Follows(m, n, Effect(lib, true, e, StateOf(m))) && forall t :: t in m.locked ==> t in n.locked
    ensures LocksTracked(lib, e, m, n)
  {
    hide Effect, View, Flags;
    forall t | t in m.locked
      ensures LockTracked(lib, e, m, n, t)
    {
      assert LockFollows(m, n, t, Effect(lib, true, e, StateOf(m)));
    }
  }

  lemma BinaryTracked(lib: Lib, e: Expr, m: Mem, m1: Mem, m2: Mem, n: Mem)
    requires Grounded(m) && Grounded(m1) && e.Binary? && LocksTracked(lib, e.l, m, m1) && LocksTracked(lib, e.r, m1, m2)
    requires StateOf(m1) == Outcome(lib, true, e.l, StateOf(m)).1
    requires Follows(m2, n, Nothing) && forall t :: t in m.locked ==> t in n.locked
    ensures LocksTracked(lib, e, m, n)
  {
    hide View, Flags, Outcome;
    forall t | t in m.locked
      ensures LockTracked(lib, e, m, n, t)
    {
      assert LockTracked(lib, e.l, m, m1, t);
      assert LockTracked(lib, e.r, m1, m2, t);
      assert LockFollows(m2, n, t, Nothing);
    }
  }

  lemma LocksStay(before: map<nat, Ptr>, after: map<nat, Ptr>, r: Operand)
    requires LockedBy(before, after, r)
    ensures forall t :: t in before ==> t in after
  {
  }

  /** The opcodes of an expression, in the order in which the parser has them emitted. */
  method Evaluate(v: Variables, lib: Lib, e: Expr, used: bool) returns (r: Operand)
    requires Tidy(v.Now()) && v.slotOf == map[]
    modifies v
    ensures Evaluated(lib, e, used, old(v.Now()), v.Now(), r)
    decreases e, 1
  {
    hide Tidy, View, LocksKept, OperandValue, Usable, Seen, Follows, LocksTracked, Vars.Assigned, Vars.Bound, Vars.Detached, Vars.Touched, Vars.Get;
    ghost var m := v.Now();
    if e.Lit? {
      TidyGrounded(m);
      r := Const(e.v);
      LitUsable(m, e.v);
      TidyFollows(m);
      KeepsTracked(lib, e, m, m);
    } else if e.Read? {
      r := EvalRead(v, e.x, used);
      TidyGrounded(v.Now());
      FollowsFlags(m, v.Now(), Nothing);
      ReadIsRead(v.Now(), e.x);
      KeepsTracked(lib, e, m, v.Now());
    } else if e.Binary? {
      r := EvaluateBinary(v, lib, e);
    } else if e.Bind? {
      r := EvaluateBind(v, lib, e, used);
    } else if e.IncDecVar? {
      r := EvaluateIncDec(v, lib, e, used);
    } else {
      r := EvaluateAssign(v, lib, e, used);
    }
  }

  method EvaluateBind(v: Variables, lib: Lib, e: Expr, used: bool) returns (r: Operand)
    requires Tidy(v.Now()) && v.slotOf == map[] && e.Bind?
    modifies v
    ensures Evaluated(lib, e, used, old(v.Now()), v.Now(), r)
  {
    hide Tidy, View, Flags, LocksKept, OperandValue, Usable, Seen, Follows, LocksTracked, Vars.Assigned, Vars.Bound, Vars.Detached, Vars.Touched, Vars.Get;
    ghost var m := v.Now();
    r := EvalBind(v, e.x, e.y, used);
    TidyGrounded(v.Now());
    FollowsFlags(m, v.Now(), BindChange(e.x, e.y));
    ReadIsRead(v.Now(), e.x);
    OpcodeTracked(lib, e, m, v.Now());
  }

  method EvaluateIncDec(v: Variables, lib: Lib, e: Expr, used: bool) returns (r: Operand)
    requires Tidy(v.Now()) && v.slotOf == map[] && e.IncDecVar?
    modifies v
    ensures Evaluated(lib, e, used, old(v.Now()), v.Now(), r)
  {
    hide Tidy, View, Flags, LocksKept, OperandValue, Usable, Seen, Follows, LocksTracked, Vars.Assigned, Vars.Bound, Vars.Detached, Vars.Touched, Vars.Get;
    ghost var m := v.Now();
    r := EvalIncDec(v, lib, e.kind, e.x, used);
    TidyGrounded(v.Now());
    FollowsFlags(m, v.Now(), Effect(lib, true, e, StateOf(m)));
    ReadIsRead(v.Now(), e.x);
    OpcodeTracked(lib, e, m, v.Now());
  }

  method EvaluateBinary(v: Variables, lib: Lib, e: Expr) returns (r: Operand)
    requires Tidy(v.Now()) && v.slotOf == map[] && e.Binary?
    modifies v
    ensures forall used :: Evaluated(lib, e, used, old(v.Now()), v.Now(), r)
    decreases e, 0
  {
    hide Tidy, View, Flags, LocksKept, OperandValue, Usable, Follows, LocksTracked, Seen;
    ghost var m := v.Now();
    var a := Evaluate(v, lib, e.l, true);
    ghost var m1 := v.Now();
    var b := Evaluate(v, lib, e.r, true);
    ghost var m2 := v.Now();
    OperandTracked(lib, e.r, m1, m2, a, b);
    BothUsed(m.locked, m1.locked, m2.locked, a, b);
    SeenValue(m2, a);
    SeenValue(m2, b);
    r := EvalBinary(v, lib, e.op, a, b);
    TidyGrounded(v.Now());
    FollowsFlags(m2, v.Now(), Nothing);
    TmpSeen(v.Now(), r);
    BinaryTracked(lib, e, m, m1, m2, v.Now());
  }

  method EvaluateAssign(v: Variables, lib: Lib, e: Expr, used: bool) returns (r: Operand)
    requires Tidy(v.Now()) && v.slotOf == map[] && (e.Assign? || e.AssignOp?)
    modifies v
    ensures Evaluated(lib, e, used, old(v.Now()), v.Now(), r)
    decreases e, 0
  {
    hide Tidy, View, Flags, LocksKept, OperandValue, Usable, Seen, Follows, LocksTracked, Vars.Assigned, Vars.Touched, Vars.Get;
    ghost var m := v.Now();
    var a := Evaluate(v, lib, e.e, true);
    ghost var m1 := v.Now();
    Used(m.locked, m1.locked, a);
    SeenValue(m1, a);
    if e.Assign? {
      r := EvalAssign(v, e.x, a, used);
    } else {
      r := EvalAssignOp(v, lib, e.op, e.x, a, used);
    }
    TidyGrounded(v.Now());
    FollowsFlags(m1, v.Now(), Effect(lib, true, e, StateOf(m)));
    ReadIsRead(v.Now(), e.x);
    LocksStay(m.locked, v.locked, r);
    EffectTracked(lib, e, m, m1, v.Now());
  }

  lemma FollowsFlags(m: Mem, n: Mem, c: Change)
    requires Follows(m, n, c)
    ensures Grounded(m) && Grounded(n) && Flags(n) == FlagsAfter(Flags(m), c)
  {
  }

  lemma TmpSeen(m: Mem, r: Operand)
    requires Usable(m, r) && !r.Lock?
    ensures Seen(m, r) == Pending(OperandValue(m, r), {})
  {
  }

  lemma TidyFollows(m: Mem)
    requires Tidy(m)
    ensures Follows(m, m, Nothing)
  {
    FollowsSame(m);
  }

  lemma TidyGrounded(m: Mem)
    requires Tidy(m)
    ensures Grounded(m)
  {
  }

  lemma LitUsable(m: Mem, v: Value)
    ensures Usable(m, Const(v)) && Seen(m, Const(v)) == Pending(v, {})
  {
  }

  /** One statement; between statements no temporary is left. */
  method Execute(v: Variables, lib: Lib, c: Stmt)
    requires Tidy(v.Now()) && v.slotOf == map[] && v.locked == map[]
    modifies v
    ensures Tidy(v.Now()) && v.slotOf == map[] && v.locked == map[] && Grounded(old(v.Now())) && Grounded(v.Now())
    ensures StateOf(v.Now()) == StmtOutcome(lib, true, c, StateOf(old(v.Now())))
  {
    hide Tidy, View, Flags, LocksKept, Outcome, LocksTracked, UnsetFlags, Vars.Unset;
    if c.Do? {
      var r := Evaluate(v, lib, c.e, false);
    } else {
      v.OpUnset(c.x);
      TidyGrounded(v.Now());
    }
  }

  /**
   Copy-on-write is invisible: after any script the variables are what they are when assignment copies and only
   the members of one reference set change together, operands being read late, and every count is exactly accounted
   for. If the script is steady, it makes no difference when operands are read.
   */
  method Run(v: Variables, lib: Lib, cs: seq<Stmt>)
    requires Tidy(v.Now()) && v.slotOf == map[] && v.locked == map[]
    modifies v
    ensures v.Now().Valid() && v.locked == map[] && Grounded(old(v.Now())) && Grounded(v.Now())
    ensures StateOf(v.Now()) == ScriptOutcome(lib, true, cs, StateOf(old(v.Now())))
    ensures SteadyScript(lib, cs, StateOf(old(v.Now()))) ==> View(v.Now()) == ScriptMeaning(lib, cs, View(old(v.Now())))
  {
    hide View, Flags, LocksKept, StmtOutcome, Anchored, Mem.Valid, SteadyScript, ScriptMeaning;
    TidyGrounded(v.Now());
    ghost var s := StateOf(v.Now());
    var i := 0;
    while i < |cs|
      invariant 0 <= i <= |cs|
      invariant Tidy(v.Now()) && v.slotOf == map[] && v.locked == map[] && Grounded(v.Now())
      invariant StateOf(v.Now()) == ScriptOutcome(lib, true, cs[..i], s)
    {
      Execute(v, lib, cs[i]);
      TidyGrounded(v.Now());
      i := i + 1;
      assert cs[..i][..i - 1] == cs[..i - 1];
    }
    assert cs[..i] == cs;
    StateWellFormed(old(v.Now()));
    if SteadyScript(lib, cs, s) {
      SteadyScriptMeans(lib, cs, s);
    }
  }

  /** The opcodes on a script whose right operand writes to the reference that the left operand is read from. */
  method RunLate(lib: Lib, op: BinOp, own: bool) returns (v: Variables)
    ensures v.Now().Valid() && Grounded(v.Now())
    ensures View(v.Now()).Get("c") == lib.binary(op, Long(5), Long(5))
    ensures ScriptMeaning(lib, if own then WriteUnderSelfBound(op) else WriteUnderOperator(op), Vars(map[], map[])).Get("c")
      == lib.binary(op, Long(1), Long(5))
  {
    hide View, Flags, Vars.Get, ScriptOutcome, ScriptMeaning, SteadyScript, Mem.Valid;
    v := new Variables();
    NobodyYet(v.Now());
    var cs := if own then WriteUnderSelfBound(op) else WriteUnderOperator(op);
    Run(v, lib, cs);
    LateValue(lib, op, own);
  }

  lemma NobodyYet(m: Mem)
    requires m.Valid() && m.locked == map[] && m.slotOf == map[] && Grounded(m) && View(m) == Vars(map[], map[])
    ensures StateOf(m) == Nobody && Tidy(m)
  {
    assert View(m).value.Keys == m.symbols.Keys;
    assert m.symbols.Keys == {};
  }

  /**
   Why it matters when operands are read: a temporary that holds a zval sees it being overwritten, and a variable's
   zval is overwritten under a lock only when it is a reference.
   */
  lemma LockSeesWrite(m: Mem, x: string, t: nat, v: Value)
    requires m.Valid() && x in m.symbols && (m.At(x).isRef || m.At(x).refcount == 1)
    requires t in m.locked && t !in m.slotOf && m.locked[t] in m.heap
    ensures var r := m.(heap := m.heap[m.symbols[x] := m.At(x).(value := v)]);
      OperandValue(r, Lock(t)) == if m.locked[t] == m.symbols[x] then v else OperandValue(m, Lock(t))
    ensures m.locked[t] == m.symbols[x] ==> m.At(x).isRef
  {
    if !m.At(x).isRef {
      SoleSlot(m, x);
    }
  }
}
