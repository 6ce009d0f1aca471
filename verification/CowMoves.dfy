/** Steps of the copy-on-write opcodes: what each composite move does to the memory and to the view of it. */
module CowMoves {
  import opened Common
  import opened Values
  import opened Zvals
  import opened RefSets

  /** The right-hand side of an assignment: a constant (is_ref set, never shared), a plain temporary's value, or a zval. */
  datatype Source = FromConst(v: Value) | FromTmp(v: Value) | FromVar(p: Ptr)

  function SourceValue(m: Mem, s: Source): Value
    requires s.FromVar? ==> s.p in m.heap
  {
    if s.FromVar? then m.heap[s.p].value else s.v
  }

  /** Locked temporaries still hold the same value, unless they hold the reference that was written to. */
  ghost predicate TempsKept(m: Mem, r: Mem, written: Ptr) {
    forall t :: t in r.locked && t in m.locked && m.locked[t] in m.heap ==>
      && r.locked[t] == m.locked[t] && r.locked[t] in r.heap
      && (r.heap[r.locked[t]].value == m.heap[m.locked[t]].value || (m.locked[t] == written && m.heap[written].isRef))
  }

  lemma FreshExists(heap: map<Ptr, Zval>)
    ensures exists p: Ptr :: p !in heap
  {
    var p := Beyond(heap.Keys);
    assert p !in heap.Keys;
  }

  /** Views of the composite moves. */
  lemma SharedView(m: Mem, x: string, p: Ptr)
    requires m.Valid() && x in m.symbols && !m.At(x).isRef && p in Dropped(m, x).heap && !m.heap[p].isRef
    ensures var r := Attached(Dropped(m, x), x, p); r.Valid() && View(r) == View(m).Assigned(x, m.heap[p].value)
  {
    hide Mem.Valid, View, Attached, Vars.Assigned, Vars.Unset;
    DropFacts(m, x);
    AttachedValid(Dropped(m, x), x, p);
    AttachedView(Dropped(m, x), x, p);
    ViewCoherent(m);
    InNoSet(m, x);
    ReplacedIsAssigned(View(m), x, m.heap[p].value);
  }

  lemma CopiedView(m: Mem, x: string, q: Ptr, v: Value)
    requires m.Valid() && x in m.symbols && !m.At(x).isRef && q !in Dropped(m, x).heap
    ensures var r := AttachedNew(Dropped(m, x), x, q, v, false); r.Valid() && View(r) == View(m).Assigned(x, v)
  {
    hide Mem.Valid, View, AttachedNew, Vars.Assigned, Vars.Unset;
    DropFacts(m, x);
    AttachedNewValid(Dropped(m, x), x, q, v, false);
    AttachedNewView(Dropped(m, x), x, q, v, false);
    ViewCoherent(m);
    InNoSet(m, x);
    ReplacedIsAssigned(View(m), x, v);
  }

  /** Separation: the slot gets a copy of its own. */
  lemma SeparatedView(m: Mem, x: string, q: Ptr, isRef: bool)
    requires m.Valid() && x in m.symbols && q !in Dropped(m, x).heap
    ensures var r := AttachedNew(Dropped(m, x), x, q, m.At(x).value, isRef); r.Valid() && View(r) == View(m).Detached(x)
  {
    hide Mem.Valid, View, AttachedNew, Vars.Detached, Vars.Unset;
    DropFacts(m, x);
    AttachedNewValid(Dropped(m, x), x, q, m.At(x).value, isRef);
    AttachedNewView(Dropped(m, x), x, q, m.At(x).value, isRef);
    ViewCoherent(m);
    ViewAt(m, x);
    ReenteredIsDetached(View(m), x);
  }

  lemma DropFacts(m: Mem, x: string)
    requires m.Valid() && x in m.symbols
    ensures Grounded(m) && Dropped(m, x).Valid() && Grounded(Dropped(m, x)) && View(Dropped(m, x)) == View(m).Unset(x)
    ensures DropKeeps(m, x)
  {
    hide View, Vars.Unset, Dropped, Mem.Valid, DropKeeps;
    ValidGrounded(m);
    DropLooks(m, x);
    DroppedValid(m, x);
    if m.At(x).refcount == 1 {
      SoleSlot(m, x);
    }
    DroppedView(m, x);
  }

  /** What is left after a drop is as it was, but for one count. */
  ghost predicate DropKeeps(m: Mem, x: string)
    requires x in m.symbols && m.symbols[x] in m.heap
  {
    var d := Dropped(m, x);
    x !in d.symbols &&
    forall p :: p in d.heap ==> p in m.heap && d.heap[p].isRef == m.heap[p].isRef && d.heap[p].value == m.heap[p].value
  }

  lemma DropLooks(m: Mem, x: string)
    requires x in m.symbols && m.symbols[x] in m.heap
    ensures DropKeeps(m, x)
  {
  }

  lemma CountPositive(m: Mem, x: string)
    requires m.Valid() && x in m.symbols
    ensures m.symbols[x] in m.heap && m.At(x).refcount >= 1
  {
  }

  lemma ValidGrounded(m: Mem)
    requires m.Valid()
    ensures Grounded(m)
  {
  }

  /** A zval held by a lock outlives the slot. */
  lemma TempsKeptByDrop(m: Mem, x: string, r: Mem)
    requires m.Valid() && x in m.symbols && r.locked == m.locked
    requires forall p :: p in Dropped(m, x).heap ==> p in r.heap && r.heap[p].value == m.heap[p].value
    ensures TempsKept(m, r, m.symbols[x])
  {
    if m.At(x).refcount == 1 {
      SoleSlot(m, x);
    }
  }

  lemma ViewAt(m: Mem, x: string)
    requires Grounded(m) && x in m.symbols
    ensures x in View(m).value && x in View(m).refs && View(m).value[x] == m.At(x).value
  {
  }

  lemma InNoSet(m: Mem, x: string)
    requires Grounded(m) && x in m.symbols && !m.At(x).isRef
    ensures x in View(m).refs && View(m).refs[x] == {x}
  {
  }

  /** The shared null zval is never a reference, and neither is garbage. */
  lemma NotUninit(m: Mem, p: Ptr)
    requires m.Valid() && p in m.heap && m.heap[p].isRef
    ensures p != UNINIT && p !in m.garbage
  {
  }

  lemma SameValueAssigned(m: Mem, x: string)
    requires Grounded(m) && x in m.symbols
    ensures View(m).Assigned(x, m.At(x).value) == View(m)
  {
    assert View(m).Assigned(x, m.At(x).value).value == View(m).value;
  }

  /** Nothing is freed while operands are being used up: even a zval that only they held stays as garbage. */
  ghost predicate NoneFreed(m: Mem, r: Mem) {
    forall p :: p in m.heap ==> SameZval(m, r, p)
  }

  ghost predicate SameZval(m: Mem, r: Mem, p: Ptr) {
    p in m.heap && p in r.heap && r.heap[p].value == m.heap[p].value
  }

  /** Every slot points where it did, to a zval of the same kind. */
  ghost predicate SlotsKept(m: Mem, r: Mem) {
    r.symbols == m.symbols &&
    forall x :: x in m.symbols ==>
      m.symbols[x] in m.heap && m.symbols[x] in r.heap && r.At(x).isRef == m.At(x).isRef && r.At(x).value == m.At(x).value
  }

  /** Temporaries that outlast a step hold the same zval with the same value. */
  ghost predicate LocksKept(m: Mem, r: Mem) {
    forall t :: t in m.locked && t in r.locked ==>
      m.locked[t] in m.heap && r.locked[t] == m.locked[t] && r.locked[t] in r.heap &&
      r.heap[r.locked[t]].value == m.heap[m.locked[t]].value
  }

  lemma LocksKeptSame(m: Mem)
    requires m.Valid()
    ensures LocksKept(m, m)
  {
  }

  lemma LocksKeptAcross(a: Mem, b: Mem, c: Mem)
    requires LocksKept(a, b) && LocksKept(b, c) && forall t :: t in a.locked && t in c.locked ==> t in b.locked
    ensures LocksKept(a, c)
  {
  }

  lemma LitterInHeap(m: Mem)
    requires m.Valid() && m.garbage != []
    ensures m.garbage[|m.garbage| - 1] in m.heap
  {
  }

  lemma LockedInHeap(m: Mem)
    requires m.Valid()
    ensures forall t :: t in m.locked ==> m.locked[t] in m.heap
    ensures UNINIT in m.heap
  {
  }

  lemma UninitShared(m: Mem)
    requires m.Valid()
    ensures UNINIT in m.heap && !m.heap[UNINIT].isRef && m.heap[UNINIT].value == Null
  {
  }

  /** The memory after one garbage entry has been disposed of. */
  ghost function Taken(m: Mem): Mem
    requires m.garbage != [] && m.garbage[|m.garbage| - 1] in m.heap
  {
    var p := m.garbage[|m.garbage| - 1];
    var z := m.heap[p];
    m.(garbage := m.garbage[..|m.garbage| - 1],
       heap := if z.refcount == 1 then m.heap - {p} else m.heap[p := Zval(z.value, z.refcount - 1, z.isRef && z.refcount != 2)])
  }

  lemma TakenValid(m: Mem)
    requires m.Valid() && m.garbage != [] && m.garbage[|m.garbage| - 1] in m.heap
    ensures Taken(m).Valid() && LocksKept(m, Taken(m))
  {
    hide Mem.Owners;
    var p := m.garbage[|m.garbage| - 1];
    var d := Taken(m);
    if m.heap[p].refcount == 1 {
      SoleLitter(m, p);
    }
    forall q | q in m.heap
      ensures d.Owners(q) == m.Owners(q) - if q == p then 1 else 0
    {
      TakenOwners(m, q);
    }
    forall q | q in d.garbage
      ensures q in d.heap
    {
      LitterLeft(m, q);
    }
    if p == UNINIT {
      UninitLitter(m);
    }
  }

  /** What stays in the garbage list stays in memory. */
  lemma LitterLeft(m: Mem, q: Ptr)
    requires m.Valid() && m.garbage != [] && q in m.garbage[..|m.garbage| - 1]
    ensures q in m.heap && (q == m.garbage[|m.garbage| - 1] ==> m.heap[q].refcount >= 2)
  {
    var n := |m.garbage| - 1;
    assert m.garbage == m.garbage[..n] + [m.garbage[n]];
    assert multiset(m.garbage) == multiset(m.garbage[..n]) + multiset{m.garbage[n]};
    assert q in multiset(m.garbage[..n]);
    assert m.heap[q].refcount == m.Owners(q);
  }

  lemma TakenOwners(m: Mem, q: Ptr)
    requires m.garbage != [] && m.garbage[|m.garbage| - 1] in m.heap
    ensures Taken(m).Owners(q) == m.Owners(q) - if q == m.garbage[|m.garbage| - 1] then 1 else 0
  {
    var n := |m.garbage| - 1;
    assert m.garbage == m.garbage[..n] + [m.garbage[n]];
    assert multiset(m.garbage) == multiset(m.garbage[..n]) + multiset{m.garbage[n]};
  }

  lemma UninitLitter(m: Mem)
    requires m.Valid() && UNINIT in m.garbage
    ensures m.heap[UNINIT].refcount >= 2
  {
    assert UNINIT in multiset(m.garbage);
    assert m.heap[UNINIT].refcount == m.Owners(UNINIT);
  }

  /** A zval whose only owner is the garbage list is held by no slot and no lock. */
  lemma SoleLitter(m: Mem, p: Ptr)
    requires m.Valid() && p in m.garbage && m.heap[p].refcount == 1
    ensures p != UNINIT && (forall x :: x in m.symbols ==> m.symbols[x] != p) && (forall t :: t in m.locked ==> m.locked[t] != p)
    ensures multiset(m.garbage)[p] == 1
  {
    assert p in multiset(m.garbage);
    forall x | x in m.symbols
      ensures m.symbols[x] != p
    {
      if m.symbols[x] == p {
        HoldersSome(m.symbols, x, p);
      }
    }
    forall t | t in m.locked
      ensures m.locked[t] != p
    {
      if m.locked[t] == p {
        HoldersSome(m.locked, t, p);
      }
    }
  }

  lemma TakenView(m: Mem)
    requires m.Valid() && m.garbage != [] && m.garbage[|m.garbage| - 1] in m.heap
    ensures Grounded(m) && Grounded(Taken(m)) && View(Taken(m)) == View(m)
  {
    hide View;
    var p := m.garbage[|m.garbage| - 1];
    var z := m.heap[p];
    if z.refcount == 1 {
      SoleLitter(m, p);
      FreedView(m, p, Taken(m));
    } else {
      if z.refcount == 2 {
        LitterAndOne(m, p);
      }
      Invisible(m, p, Zval(z.value, z.refcount - 1, z.isRef && z.refcount != 2), Taken(m));
    }
  }

  /** With two owners, one of them the garbage list, at most one is a slot. */
  lemma LitterAndOne(m: Mem, p: Ptr)
    requires m.Valid() && p in m.garbage && m.heap[p].refcount == 2
    ensures forall x :: x in m.symbols && m.symbols[x] == p ==> Alone(m, x)
  {
    assert p in multiset(m.garbage);
    forall x, y | x in m.symbols && m.symbols[x] == p && y in m.symbols && y != x
      ensures m.symbols[y] != p
    {
      if m.symbols[y] == p {
        HoldersTwo(m.symbols, x, y, p);
      }
    }
  }

  lemma LockedIs(m: Mem, t: nat, p: Ptr)
    requires m.Valid() && t !in m.locked && p in m.heap
    ensures Locked(m, t, p).Valid() && Grounded(m) && Grounded(Locked(m, t, p)) && View(Locked(m, t, p)) == View(m)
  {
    hide View;
    LockedValid(m, t, p);
    Invisible(m, p, m.heap[p].(refcount := m.heap[p].refcount + 1), Locked(m, t, p));
  }

  lemma UnlockedIs(m: Mem, t: nat)
    requires m.Valid() && t in m.locked && |m.garbage| < 2
    ensures Unlocked(m, t).Valid() && Grounded(m) && Grounded(Unlocked(m, t)) && View(Unlocked(m, t)) == View(m)
    ensures SlotsKept(m, Unlocked(m, t)) && LocksKept(m, Unlocked(m, t)) && NoneFreed(m, Unlocked(m, t))
  {
    hide View, Mem.Valid;
    ValidGrounded(m);
    LockedInHeap(m);
    UnlockedValid(m, t);
    var p := m.locked[t];
    if m.heap[p].refcount == 1 {
      LastLock(m, t);
    }
    Invisible(m, p, Unlocked(m, t).heap[p], Unlocked(m, t));
  }

  lemma LastLock(m: Mem, t: nat)
    requires m.Valid() && t in m.locked && m.heap[m.locked[t]].refcount == 1
    ensures forall x :: x in m.symbols ==> m.symbols[x] != m.locked[t]
  {
    HoldersSome(m.locked, t, m.locked[t]);
    forall x | x in m.symbols
      ensures m.symbols[x] != m.locked[t]
    {
      if m.symbols[x] == m.locked[t] {
        HoldersSome(m.symbols, x, m.locked[t]);
      }
    }
  }

  lemma SlotsDoNotCount(m: Mem, s: map<nat, string>)
    requires m.Valid()
    ensures m.(slotOf := s).Valid() && Grounded(m) && View(m.(slotOf := s)) == View(m)
  {
    var r := m.(slotOf := s);
    forall p | p in r.heap
      ensures r.heap[p].refcount == r.Owners(p)
    {
      assert m.Owners(p) == r.Owners(p);
    }
    assert Grounded(m);
    SameView(r, View(m));
  }

  lemma NewIsTouched(m: Mem, x: string)
    requires Grounded(m)
    ensures x in m.symbols ==> View(m).Touched(x) == View(m)
    ensures x !in m.symbols ==> View(m).Touched(x) == Vars(View(m).value[x := Null], View(m).refs[x := {x}])
  {
  }

  /** What reading a variable yields. */
  lemma GetIs(m: Mem, x: string)
    requires m.Valid()
    ensures Grounded(m) && UNINIT in m.heap
    ensures x in m.symbols ==> m.symbols[x] in m.heap && m.At(x).value == View(m).Get(x)
    ensures x !in m.symbols ==> m.heap[UNINIT].value == View(m).Get(x)
  {
  }

  /** Every temporary that designates a slot holds a lock on the zval that slot points to. */
  ghost predicate Anchored(m: Mem) {
    forall t :: t in m.slotOf ==> t in m.locked && m.slotOf[t] in m.symbols && m.symbols[m.slotOf[t]] == m.locked[t]
  }

  /** No other temporary designates the slot that t does. */
  ghost predicate OnlyOne(m: Mem, t: nat) {
    forall u :: u in m.slotOf && u != t && t in m.slotOf ==> m.slotOf[u] != m.slotOf[t]
  }

  /** Between opcodes: the memory is valid and the designated slots have not moved. */
  ghost predicate Tidy(m: Mem) { m.Valid() && Anchored(m) }

  /** Only the slot of x may have been pointed elsewhere. */
  ghost predicate OnlyMoved(m: Mem, r: Mem, x: string) {
    && r.symbols.Keys == m.symbols.Keys && r.locked == m.locked && r.slotOf == m.slotOf
    && forall y :: y in m.symbols && y != x ==> r.symbols[y] == m.symbols[y]
  }

  lemma OnlyMovedIs(m: Mem, r: Mem, x: string, p: Ptr)
    requires x in m.symbols && r.locked == m.locked && r.slotOf == m.slotOf
    requires r.symbols == (m.symbols - {x})[x := p]
    ensures OnlyMoved(m, r, x)
  {
  }

  lemma StillAnchored(m: Mem, r: Mem, x: string)
    requires Anchored(m) && OnlyMoved(m, r, x) && forall u :: u in m.slotOf ==> m.slotOf[u] != x
    ensures Anchored(r)
  {
  }

  /** Where an opcode's operand comes from: a constant, a plain temporary, or a temporary that holds a lock. */
  datatype Operand = Const(v: Value) | Tmp(t: nat) | Lock(t: nat)

  ghost predicate Usable(m: Mem, r: Operand) {
    && (r.Tmp? ==> r.t in m.vals)
    && (r.Lock? ==> r.t in m.locked && r.t !in m.slotOf && m.locked[r.t] in m.heap)
  }

  ghost function OperandValue(m: Mem, r: Operand): Value
    requires Usable(m, r)
  {
    match r
    case Const(v) => v
    case Tmp(t) => m.vals[t]
    case Lock(t) => m.heap[m.locked[t]].value
  }

  /** The locks left once the operand has been used. */
  function Without(locked: map<nat, Ptr>, r: Operand): map<nat, Ptr> {
    if r.Lock? then locked - {r.t} else locked
  }

  lemma UsableKept(m: Mem, r: Mem, o: Operand)
    requires Usable(m, o) && LocksKept(m, r) && r.vals == m.vals
    requires o.Lock? ==> o.t in r.locked && o.t !in r.slotOf
    ensures Usable(r, o) && OperandValue(r, o) == OperandValue(m, o)
  {
  }

  lemma KeptAnchored(m: Mem, r: Mem)
    requires Anchored(m) && r.symbols == m.symbols
    requires forall t :: t in r.slotOf ==> t in m.slotOf && r.slotOf[t] == m.slotOf[t] && t in r.locked && r.locked[t] == m.locked[t]
    ensures Anchored(r)
  {
  }

  lemma UnmovedAnchored(m: Mem, r: Mem)
    requires Anchored(m) && r.symbols == m.symbols && r.slotOf == m.slotOf && r.locked == m.locked
    ensures Anchored(r)
  {
  }

  lemma SlotsSame(m: Mem)
    requires m.Valid()
    ensures SlotsKept(m, m)
  {
  }

  /** The zval of x may be overwritten in place: unless it is a reference, no other variable and no temporary notices. */
  ghost predicate Writable(m: Mem, x: string) {
    && x in m.symbols && m.symbols[x] in m.heap && m.symbols[x] != UNINIT
    && (m.At(x).isRef || (Alone(m, x) && forall t :: t in m.locked ==> m.locked[t] != m.symbols[x]))
  }

  lemma WritableKept(m: Mem, r: Mem, x: string)
    requires Writable(m, x) && SlotsKept(m, r) && forall t :: t in r.locked ==> t in m.locked && r.locked[t] == m.locked[t]
    ensures Writable(r, x) && r.At(x).value == m.At(x).value
  {
  }

  lemma OwnIsWritable(m: Mem, x: string)
    requires m.Valid() && x in m.symbols && (m.At(x).isRef || m.At(x).refcount == 1)
    ensures Writable(m, x)
  {
    if !m.At(x).isRef {
      SoleSlot(m, x);
    }
  }

  /** A slot just given a zval of its own. */
  lemma CopyIsWritable(m: Mem, x: string, q: Ptr, v: Value, isRef: bool)
    requires Grounded(m) && x !in m.symbols && q !in m.heap && UNINIT in m.heap
    requires forall t :: t in m.locked ==> m.locked[t] in m.heap
    ensures Writable(AttachedNew(m, x, q, v, isRef), x)
  {
  }

  /** Separating a variable that is in no set is invisible. */
  lemma SplitView(m: Mem, x: string, q: Ptr, isRef: bool)
    requires m.Valid() && x in m.symbols && q !in Dropped(m, x).heap && !m.At(x).isRef
    ensures var r := AttachedNew(Dropped(m, x), x, q, m.At(x).value, isRef); r.Valid() && View(r) == View(m)
  {
    hide Mem.Valid, View, AttachedNew, Vars.Detached, Dropped;
    ValidGrounded(m);
    SeparatedView(m, x, q, isRef);
    ViewCoherent(m);
    InNoSet(m, x);
    DetachedAlone(View(m), x);
  }

  /** Setting the reference flag of a zval with one owner is invisible. */
  lemma FlaggedView(m: Mem, x: string, isRef: bool)
    requires m.Valid() && x in m.symbols && m.At(x).refcount == 1
    ensures var r := m.(heap := m.heap[m.symbols[x] := m.At(x).(isRef := isRef)]);
      Grounded(m) && r.Valid() && View(r) == View(m)
  {
    hide View;
    SoleSlot(m, x);
    ValidGrounded(m);
    var r := m.(heap := m.heap[m.symbols[x] := m.At(x).(isRef := isRef)]);
    RewrittenValid(m, m.symbols[x], m.At(x).value, isRef);
    Invisible(m, m.symbols[x], m.At(x).(isRef := isRef), r);
  }

  /** Binding x to the reference y, x having been dropped from a. */
  lemma BoundView(a: Vars, m: Mem, x: string, y: string)
    requires a.Coherent() && x in a.refs && y in a.refs && x != y
    requires m.Valid() && x !in m.symbols && y in m.symbols && m.At(y).isRef && Grounded(m) && View(m) == a.Unset(x)
    ensures var r := Attached(m, x, m.symbols[y]); r.Valid() && View(r) == a.Bound(x, y)
  {
    hide Mem.Valid, Attached, Vars.Bound, Vars.Coherent, Vars.Unset;
    var u := a.Unset(x);
    RejoinedIsBound(a, x, y);
    JoinedView(m, x, y);
    AttachedValid(m, x, m.symbols[y]);
  }

  lemma AssignedGet(m: Mem, x: string, v: Value)
    requires Grounded(m) && x in m.symbols
    ensures x in View(m).refs && x in View(m).value && x in View(m).Assigned(x, v).value && View(m).Assigned(x, v).value[x] == v
  {
  }

  lemma SymbolsSame(m: Mem, r: Mem)
    requires SlotsKept(m, r)
    ensures r.symbols == m.symbols
  {
  }

  lemma SlotsOnly(m: Mem, r: Mem, t: nat)
    requires Anchored(m) && SlotsKept(m, r) && t !in m.slotOf
    requires r.locked == m.locked - {t} && r.slotOf == m.slotOf - {t}
    ensures Anchored(r) && r.slotOf == m.slotOf
  {
  }

  lemma NoneMoved(m: Mem, x: string)
    ensures forall h :: OnlyMoved(m, m.(heap := h), x)
  {
  }

  lemma SplitLocks(m: Mem, x: string, q: Ptr, isRef: bool)
    requires m.Valid() && x in m.symbols && m.At(x).refcount != 1 && q !in Dropped(m, x).heap
    ensures LocksKept(m, AttachedNew(Dropped(m, x), x, q, m.At(x).value, isRef))
  {
  }

  /** A slot whose zval has one owner is in no set. */
  lemma OneOwner(m: Mem, x: string)
    requires m.Valid() && x in m.symbols && m.At(x).refcount <= 1
    ensures Grounded(m) && m.At(x).refcount == 1 && x in View(m).refs && View(m).refs[x] == {x}
  {
    SoleSlot(m, x);
  }

  /** Clearing the reference flag of a zval with one owner is invisible. */
  lemma UnflaggedView(m: Mem, p: Ptr)
    requires m.Valid() && p in m.heap && m.heap[p].refcount == 1
    ensures var r := m.(heap := m.heap[p := m.heap[p].(isRef := false)]); Grounded(m) && r.Valid() && View(r) == View(m)
  {
    hide View;
    ValidGrounded(m);
    if p == UNINIT {
      UninitShared(m);
      assert m.heap[p := m.heap[p].(isRef := false)] == m.heap;
    } else {
      RewrittenValid(m, p, m.heap[p].value, false);
      forall x | x in m.symbols && m.symbols[x] == p
        ensures Alone(m, x)
      {
        SoleSlot(m, x);
      }
      Invisible(m, p, m.heap[p].(isRef := false), m.(heap := m.heap[p := m.heap[p].(isRef := false)]));
    }
  }

  lemma UnsetNothing(m: Mem, x: string)
    requires Grounded(m) && x !in m.symbols
    ensures View(m).Unset(x) == View(m)
  {
    SameVars(View(m).Unset(x), View(m));
  }

  /** The locks after an opcode that used up slot temporary t and operand r. */
  ghost predicate LockedAfter(before: map<nat, Ptr>, after: map<nat, Ptr>, t: nat, r: Operand, used: bool, out: nat) {
    var rest := Without(before, r) - {t};
    if used then out in after && after == rest[out := after[out]] else after == rest
  }

  lemma MovedKeys(m: Mem, r: Mem, x: string)
    requires OnlyMoved(m, r, x)
    ensures r.symbols.Keys == m.symbols.Keys && r.locked == m.locked && r.slotOf == m.slotOf
  {
  }

  lemma SourceKept(m: Mem, r: Mem, src: Source)
    requires NoneFreed(m, r) && (src.FromVar? ==> src.p in m.heap)
    ensures src.FromVar? ==> src.p in r.heap
    ensures SourceValue(r, src) == SourceValue(m, src)
  {
  }

  lemma LockUsed(m: Mem, r: Mem, t: nat)
    requires NoneFreed(m, r) && t in m.locked && m.locked[t] in m.heap
    ensures m.locked[t] in r.heap && r.heap[m.locked[t]].value == m.heap[m.locked[t]].value
  {
  }

  lemma NoneFreedSame(m: Mem)
    ensures NoneFreed(m, m)
  {
  }

  /** Both variables are there to be bound. */
  predicate BindReady(a: Vars, x: string, y: string) { x in a.refs && y in a.refs && y in a.value }

  /** x =& y, for a variable bound to itself as well. */
  ghost function BoundTo(a: Vars, x: string, y: string): Vars
    requires BindReady(a, x, y)
  {
    if x == y then a.Detached(x) else a.Bound(x, y)
  }

  lemma SlotLeft(m: Mem, r: Mem, t: nat, u: nat)
    requires t in m.slotOf && t != u && r.slotOf == m.slotOf - {u}
    ensures t in r.slotOf && r.slotOf[t] == m.slotOf[t]
  {
  }

  lemma TwoMoved(m: Mem, r: Mem, x: string, y: string)
    requires Anchored(m) && r.locked == m.locked && r.slotOf == m.slotOf && r.symbols.Keys == m.symbols.Keys
    requires forall z :: z in m.symbols && z != x && z != y ==> r.symbols[z] == m.symbols[z]
    requires forall u :: u in m.slotOf ==> m.slotOf[u] != x && m.slotOf[u] != y
    ensures Anchored(r)
  {
    assert forall z :: z in m.symbols ==> z in r.symbols;
  }

  lemma GetAt(a: Vars, x: string)
    requires x in a.value
    ensures a.Get(x) == a.value[x]
  {
  }

  lemma WriteReady(m: Mem, x: string)
    requires m.Valid() && Writable(m, x)
    ensures Grounded(m) && x in m.symbols && m.symbols[x] in m.heap && x in View(m).refs && m.At(x).value == View(m).Get(x)
  {
  }

  lemma ValsDoNotCount(m: Mem, s: map<nat, Value>)
    requires m.Valid()
    ensures m.(vals := s).Valid() && Grounded(m) && View(m.(vals := s)) == View(m)
  {
    var r := m.(vals := s);
    forall p | p in r.heap
      ensures r.heap[p].refcount == r.Owners(p)
    {
      assert m.Owners(p) == r.Owners(p);
    }
    assert Grounded(m);
    SameView(r, View(m));
  }

  lemma ValsApart(m: Mem, r: Mem, s: map<nat, Value>)
    requires LocksKept(m, r)
    ensures LocksKept(m, r.(vals := s))
  {
  }
}
