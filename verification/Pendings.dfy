/**
 What an operand that is still to be read has to expect. A temporary that holds the zval of a reference goes on
 watching that reference; one that holds any other zval has a value that nobody can change any more.
 */
module Pendings {
  import opened Values
  import opened Zvals
  import opened RefSets
  import opened CowMoves

  /** The ways in which an opcode changes variables: written to, bound to another, or taken out of its set. */
  datatype Change = Nothing | Write(x: string, v: Value) | Join(x: string, y: string) | Leave(x: string)

  /** An operand's value, and the variables that share its zval by reference. */
  datatype Pending = Pending(v: Value, watched: set<string>) {

    function After(c: Change): Pending {
      match c
      case Nothing => this
      case Write(x, w) => if x in watched then this.(v := w) else this
      case Join(x, y) => this.(watched := if y in watched then watched + {x} else watched - {x})
      case Leave(x) => this.(watched := watched - {x})
    }
  }

  /** Variables whose zval has the reference flag set. */
  function FlagsAfter(flags: set<string>, c: Change): set<string> {
    match c
    case Nothing => flags
    case Write(_, _) => flags
    case Join(x, y) => flags + {x, y}
    case Leave(x) => flags + {x}
  }

  /** x =& y, for a variable bound to itself as well. */
  function BindChange(x: string, y: string): Change { if x == y then Leave(x) else Join(x, y) }

  ghost function Flags(m: Mem): set<string>
    requires Grounded(m)
  {
    set x | x in m.symbols && m.At(x).isRef
  }

  ghost function Reading(m: Mem, p: Ptr): Pending
    requires p in m.heap
  {
    Pending(m.heap[p].value, if m.heap[p].isRef then set x | x in m.symbols && m.symbols[x] == p else {})
  }

  /** The flags and every temporary that outlasts the change are as the change makes them. */
  ghost predicate Follows(m: Mem, n: Mem, c: Change) {
    && Grounded(m) && Grounded(n) && Flags(n) == FlagsAfter(Flags(m), c)
    && forall t :: t in m.locked && t in n.locked ==> LockFollows(m, n, t, c)
  }

  ghost predicate LockFollows(m: Mem, n: Mem, t: nat, c: Change)
    requires t in m.locked && t in n.locked
  {
    && n.locked[t] == m.locked[t] && m.locked[t] in m.heap && n.locked[t] in n.heap
    && Reading(n, n.locked[t]) == Reading(m, m.locked[t]).After(c)
  }

  lemma FollowsSame(m: Mem)
    requires m.Valid()
    ensures Follows(m, m, Nothing)
  {
  }

  lemma FollowsThen(a: Mem, b: Mem, c: Mem, d: Change)
    requires Follows(a, b, Nothing) && Follows(b, c, d) && forall t :: t in a.locked && t in c.locked ==> t in b.locked
    ensures Follows(a, c, d)
  {
    forall t | t in a.locked && t in c.locked
      ensures LockFollows(a, c, t, d)
    {
      assert LockFollows(a, b, t, Nothing) && LockFollows(b, c, t, d);
    }
  }

  lemma FollowsMore(a: Mem, b: Mem, c: Mem, d: Change)
    requires Follows(a, b, d) && Follows(b, c, Nothing) && forall t :: t in a.locked && t in c.locked ==> t in b.locked
    ensures Follows(a, c, d)
  {
    forall t | t in a.locked && t in c.locked
      ensures LockFollows(a, c, t, d)
    {
      assert LockFollows(a, b, t, d) && LockFollows(b, c, t, Nothing);
    }
  }

  /** The same zval, whatever its count. */
  predicate Alike(a: Zval, b: Zval) { a.value == b.value && a.isRef == b.isRef }

  /** Slots stay where they are, and every zval that a slot or a lasting lock holds stays alike. */
  lemma CountsFollow(m: Mem, n: Mem)
    requires Grounded(m) && n.symbols == m.symbols
    requires forall x :: x in m.symbols ==> m.symbols[x] in n.heap && Alike(n.At(x), m.At(x))
    requires forall t :: t in m.locked && t in n.locked ==>
      n.locked[t] == m.locked[t] && m.locked[t] in m.heap && m.locked[t] in n.heap && Alike(n.heap[m.locked[t]], m.heap[m.locked[t]])
    ensures Follows(m, n, Nothing)
  {
  }

  /** The slot of x leads from one zval that is no reference to another such; all others stay. */
  ghost predicate Moves(m: Mem, n: Mem, x: string) {
    && Grounded(m) && Grounded(n) && n.locked == m.locked
    && (x in m.symbols ==> !m.At(x).isRef) && x in n.symbols && !n.At(x).isRef
    && n.symbols.Keys == m.symbols.Keys + {x}
    && (forall y :: y in m.symbols && y != x ==> n.symbols[y] == m.symbols[y] && Alike(n.At(y), m.At(y)))
    && (forall t :: t in m.locked ==> m.locked[t] in m.heap && m.locked[t] in n.heap && Alike(n.heap[m.locked[t]], m.heap[m.locked[t]]))
  }

  lemma MovesFollow(m: Mem, n: Mem, x: string, c: Change)
    requires Moves(m, n, x) && (c.Nothing? || (c.Write? && c.x == x))
    ensures Follows(m, n, c)
  {
    forall t | t in m.locked && t in n.locked
      ensures LockFollows(m, n, t, c)
    {
      var p := m.locked[t];
      if m.heap[p].isRef {
        assert (set y | y in n.symbols && n.symbols[y] == p) == (set y | y in m.symbols && m.symbols[y] == p);
      }
    }
  }

  /** Overwriting the zval of x in place. */
  lemma WriteFollows(m: Mem, x: string, v: Value)
    requires Grounded(m) && Writable(m, x)
    requires forall t :: t in m.locked ==> m.locked[t] in m.heap
    ensures Follows(m, m.(heap := m.heap[m.symbols[x] := m.At(x).(value := v)]), Write(x, v))
  {
    var n := m.(heap := m.heap[m.symbols[x] := m.At(x).(value := v)]);
    forall t | t in m.locked && t in n.locked
      ensures LockFollows(m, n, t, Write(x, v))
    {
      assert n.symbols == m.symbols;
    }
  }

  /** The slot is pointed to another zval that is no reference. */
  lemma SharedMoves(m: Mem, x: string, p: Ptr)
    requires m.Valid() && x in m.symbols && !m.At(x).isRef && p in Dropped(m, x).heap && !m.heap[p].isRef
    ensures Moves(m, Attached(Dropped(m, x), x, p), x)
  {
    hide Mem.Valid, Dropped;
    DropAlike(m, x);
    DropLooks(m, x);
    AttachedAlike(Dropped(m, x), x, p);
  }

  lemma AttachedAlike(d: Mem, x: string, p: Ptr)
    requires p in d.heap
    ensures var n := Attached(d, x, p); n.symbols == d.symbols[x := p] && n.locked == d.locked && n.heap.Keys == d.heap.Keys
    ensures forall q :: q in d.heap ==> Alike(Attached(d, x, p).heap[q], d.heap[q])
  {
  }

  lemma CopiedMoves(m: Mem, x: string, q: Ptr, v: Value)
    requires m.Valid() && x in m.symbols && !m.At(x).isRef && q !in Dropped(m, x).heap
    ensures Moves(m, AttachedNew(Dropped(m, x), x, q, v, false), x)
  {
    hide Mem.Valid, Dropped;
    DropAlike(m, x);
  }

  /** A new slot that shares a zval which is no reference. */
  lemma TouchMoves(m: Mem, x: string)
    requires m.Valid() && x !in m.symbols
    ensures UNINIT in m.heap && Moves(m, Attached(m, x, UNINIT), x)
  {
    hide Mem.Valid;
    ValidGrounded(m);
    LockedInHeap(m);
    UninitShared(m);
    AttachedAlike(m, x, UNINIT);
  }

  /** A slot with a zval of its own that is no reference: rewriting it changes nothing for others. */
  lemma SoleMoves(m: Mem, x: string, v: Value)
    requires m.Valid() && x in m.symbols && !m.At(x).isRef && m.At(x).refcount == 1
    ensures Moves(m, m.(heap := m.heap[m.symbols[x] := Zval(v, 1, false)]), x)
  {
    SoleSlot(m, x);
  }

  lemma StandsStill(m: Mem, x: string)
    requires m.Valid() && x in m.symbols && !m.At(x).isRef
    ensures Moves(m, m, x)
  {
  }

  /** A reference that is assigned its own value. */
  lemma SameWritten(m: Mem, x: string)
    requires m.Valid() && x in m.symbols && m.At(x).isRef
    ensures Follows(m, m, Write(x, m.At(x).value))
  {
  }

  /** What a temporary that has just fetched a variable is to expect. */
  ghost function Read(m: Mem, x: string): Pending
    requires Grounded(m)
  {
    if x in m.symbols then Pending(m.At(x).value, if m.At(x).isRef then RefSet(m, x) else {}) else Pending(Null, {})
  }

  /** What it has to expect depends on what is to be seen only. */
  lemma ReadSame(m: Mem, n: Mem, x: string)
    requires Follows(m, n, Nothing) && View(n) == View(m)
    ensures Read(n, x) == Read(m, x)
  {
    assert View(n).value.Keys == n.symbols.Keys && View(m).value.Keys == m.symbols.Keys;
    assert x in m.symbols ==> x in View(m).value && x in View(n).value && x in View(m).refs && x in View(n).refs;
    assert x in m.symbols ==> (m.At(x).isRef <==> x in Flags(m)) && (n.At(x).isRef <==> x in Flags(n));
  }

  lemma ReadIs(m: Mem, x: string)
    requires m.Valid()
    ensures Grounded(m)
    ensures if x in m.symbols then Read(m, x) == Reading(m, m.symbols[x]) else UNINIT in m.heap && Read(m, x) == Reading(m, UNINIT)
  {
  }

  /** What an operand has to expect. */
  ghost function Seen(m: Mem, r: Operand): Pending
    requires Usable(m, r)
  {
    match r
    case Const(v) => Pending(v, {})
    case Tmp(t) => Pending(m.vals[t], {})
    case Lock(t) => Reading(m, m.locked[t])
  }

  // Garbage and locks

  lemma TakenFollows(m: Mem)
    requires m.Valid() && m.garbage != [] && m.garbage[|m.garbage| - 1] in m.heap
    ensures Follows(m, Taken(m), Nothing)
  {
    var p := m.garbage[|m.garbage| - 1];
    if m.heap[p].refcount == 1 {
      SoleLitter(m, p);
    }
    CountsFollow(m, Taken(m));
  }

  lemma LockedFollows(m: Mem, t: nat, p: Ptr)
    requires m.Valid() && t !in m.locked && p in m.heap
    ensures Follows(m, Locked(m, t, p), Nothing) && Reading(Locked(m, t, p), p) == Reading(m, p)
  {
    CountsFollow(m, Locked(m, t, p));
  }

  lemma UnlockedFollows(m: Mem, t: nat)
    requires m.Valid() && t in m.locked
    ensures Follows(m, Unlocked(m, t), Nothing)
  {
    hide Mem.Valid;
    ValidGrounded(m);
    LockedInHeap(m);
    var p := m.locked[t];
    if m.heap[p].refcount == 1 {
      LastLock(m, t);
      OnlyLock(m, t);
    }
    UnlockedAlike(m, t);
    hide Unlocked;
    CountsFollow(m, Unlocked(m, t));
  }

  lemma UnlockedAlike(m: Mem, t: nat)
    requires t in m.locked && m.locked[t] in m.heap
    ensures var n := Unlocked(m, t); n.symbols == m.symbols && n.locked == m.locked - {t} && n.heap.Keys == m.heap.Keys
    ensures forall q :: q in m.heap && (q != m.locked[t] || m.heap[q].refcount != 1) ==> Alike(Unlocked(m, t).heap[q], m.heap[q])
  {
  }

  /** A zval with one owner that is a lock is held by no other lock. */
  lemma OnlyLock(m: Mem, t: nat)
    requires m.Valid() && t in m.locked && m.heap[m.locked[t]].refcount == 1
    ensures forall u :: u in m.locked && u != t ==> m.locked[u] != m.locked[t]
  {
    forall u | u in m.locked && u != t
      ensures m.locked[u] != m.locked[t]
    {
      if m.locked[u] == m.locked[t] {
        HoldersTwo(m.locked, t, u, m.locked[t]);
      }
    }
  }

  /** Nothing but the slots, the zvals and the locks matters. */
  lemma SidesFollow(m: Mem, n: Mem)
    requires m.Valid() && n.heap == m.heap && n.symbols == m.symbols && n.locked == m.locked
    ensures Follows(m, n, Nothing)
  {
    CountsFollow(m, n);
  }

  // References

  /** From d to e the slot of y has been given a zval that is a reference; all other zvals stay alike. */
  ghost predicate Referred(d: Mem, e: Mem, y: string) {
    && y in d.symbols && d.symbols[y] in d.heap && y in e.symbols && e.symbols[y] in e.heap && e.At(y).isRef
    && e.locked == d.locked && e.symbols == d.symbols[y := e.symbols[y]]
    && (forall p :: p in d.heap && p != e.symbols[y] ==> p in e.heap && Alike(e.heap[p], d.heap[p]))
    && (e.symbols[y] in d.heap ==> e.symbols[y] == d.symbols[y] && (d.At(y).isRef || d.At(y).refcount == 1) && e.At(y).value == d.At(y).value)
    && (d.At(y).isRef ==> e.symbols[y] == d.symbols[y])
  }

  /** The ways in which the slot of y comes by a reference. */
  lemma ReferredStays(m: Mem, y: string)
    requires y in m.symbols && m.symbols[y] in m.heap && m.At(y).isRef
    ensures Referred(m, m, y)
  {
  }

  lemma ReferredInPlace(m: Mem, y: string)
    requires y in m.symbols && m.symbols[y] in m.heap && !m.At(y).isRef && m.At(y).refcount == 1
    ensures Referred(m, m.(heap := m.heap[m.symbols[y] := m.At(y).(isRef := true)]), y)
  {
  }

  lemma ReferredByCopy(m: Mem, y: string, q: Ptr)
    requires y in m.symbols && m.symbols[y] in m.heap && !m.At(y).isRef && m.At(y).refcount > 1 && q !in Dropped(m, y).heap
    ensures Referred(m, AttachedNew(Dropped(m, y), y, q, m.At(y).value, true), y)
  {
    DropShared(m, y);
  }

  /** In such a move every other slot and every lock still sees the zval it saw. */
  lemma ReferredOthers(d: Mem, e: Mem, y: string)
    requires d.Valid() && Referred(d, e, y)
    ensures forall z :: z in d.symbols && z != y ==> z in e.symbols && e.symbols[z] == d.symbols[z] && e.symbols[z] in e.heap && Alike(e.At(z), d.At(z))
    ensures forall t :: t in d.locked ==> d.locked[t] in d.heap && d.locked[t] in e.heap && Alike(e.heap[d.locked[t]], d.heap[d.locked[t]])
    ensures forall z :: z in d.symbols && z != y && e.symbols[z] == e.symbols[y] ==> d.symbols[z] == d.symbols[y] && d.At(y).isRef
    ensures forall t :: t in d.locked && d.locked[t] == e.symbols[y] ==> d.locked[t] == d.symbols[y] && d.At(y).isRef
  {
    if d.At(y).refcount == 1 {
      SoleSlot(d, y);
    }
  }

  lemma JoinFollows(m: Mem, e: Mem, x: string, y: string)
    requires m.Valid() && x in m.symbols && y in m.symbols && x != y && Dropped(m, x).Valid() && Referred(Dropped(m, x), e, y)
    ensures Follows(m, Attached(e, x, e.symbols[y]), Join(x, y))
  {
    hide Mem.Valid, Dropped;
    DropAlike(m, x);
    var d := Dropped(m, x);
    ReferredOthers(d, e, y);
    JoinSlots(m, d, e, x, y);
    var n := Attached(e, x, e.symbols[y]);
    AttachedAlike(e, x, e.symbols[y]);
    assert d.At(y).isRef ==> e.symbols[y] == d.symbols[y];
    hide Attached, Referred;
    forall t | t in m.locked && t in n.locked
      ensures LockFollows(m, n, t, Join(x, y))
    {
      JoinedWatchers(m, d, e, n, x, y, m.locked[t]);
    }
  }

  /** The flags before and after. */
  lemma JoinSlots(m: Mem, d: Mem, e: Mem, x: string, y: string)
    requires Grounded(m) && x in m.symbols && y in m.symbols && x != y && d.symbols == m.symbols - {x} && Referred(d, e, y)
    requires forall z :: z in m.symbols && z != x ==> m.symbols[z] in d.heap && Alike(d.At(z), m.At(z))
    requires forall z :: z in d.symbols && z != y ==> z in e.symbols && e.symbols[z] == d.symbols[z] && e.symbols[z] in e.heap && Alike(e.At(z), d.At(z))
    ensures var n := Attached(e, x, e.symbols[y]); Grounded(n) && Flags(n) == Flags(m) + {x, y}
  {
  }

  /** What a drop leaves alone. */
  lemma DropAlike(m: Mem, x: string)
    requires m.Valid() && x in m.symbols
    ensures var d := Dropped(m, x); Grounded(m) && d.symbols == m.symbols - {x} && d.locked == m.locked
    ensures forall z :: z in m.symbols && z != x ==> m.symbols[z] in Dropped(m, x).heap && Alike(Dropped(m, x).At(z), m.At(z))
    ensures forall t :: t in m.locked ==> m.locked[t] in m.heap && m.locked[t] in Dropped(m, x).heap && Alike(Dropped(m, x).heap[m.locked[t]], m.heap[m.locked[t]])
  {
    hide Mem.Owners;
    if m.At(x).refcount == 1 {
      SoleSlot(m, x);
    }
  }

  /** Who shares the zval p, given that it is a reference that a lock holds. */
  lemma JoinedWatchers(m: Mem, d: Mem, e: Mem, n: Mem, x: string, y: string, p: Ptr)
    requires x in m.symbols && y in m.symbols && x != y && d.symbols == m.symbols - {x}
    requires y in e.symbols && e.symbols == d.symbols[y := e.symbols[y]] && n.symbols == e.symbols[x := e.symbols[y]]
    requires p == e.symbols[y] ==> p == d.symbols[y]
    requires p == d.symbols[y] && p in m.heap && m.heap[p].isRef ==> e.symbols[y] == p
    ensures p in m.heap && m.heap[p].isRef ==>
      (set z | z in n.symbols && n.symbols[z] == p)
      == var w := set z | z in m.symbols && m.symbols[z] == p; if y in w then w + {x} else w - {x}
  {
  }

  /** A variable that shares its zval gets a reference of its own. */
  lemma SplitLeaves(m: Mem, x: string, q: Ptr)
    requires m.Valid() && x in m.symbols && m.At(x).refcount > 1 && q !in Dropped(m, x).heap
    ensures Follows(m, AttachedNew(Dropped(m, x), x, q, m.At(x).value, true), Leave(x))
  {
    hide Mem.Valid;
    DropAlike(m, x);
    DropShared(m, x);
    hide Dropped;
    var n := AttachedNew(Dropped(m, x), x, q, m.At(x).value, true);
    forall t | t in m.locked && t in n.locked
      ensures LockFollows(m, n, t, Leave(x))
    {
      var p := m.locked[t];
      assert p != q;
      assert (set z | z in n.symbols && n.symbols[z] == p) == (set z | z in m.symbols && m.symbols[z] == p) - {x};
    }
  }

  lemma DropShared(m: Mem, x: string)
    requires x in m.symbols && m.symbols[x] in m.heap && m.At(x).refcount > 1
    ensures Dropped(m, x).heap.Keys == m.heap.Keys
  {
  }

  /** A variable that has its zval to itself. */
  lemma FlagLeaves(m: Mem, x: string)
    requires m.Valid() && x in m.symbols && m.At(x).refcount == 1
    ensures Follows(m, m.(heap := m.heap[m.symbols[x] := m.At(x).(isRef := true)]), Leave(x))
  {
    SoleSlot(m, x);
    var n := m.(heap := m.heap[m.symbols[x] := m.At(x).(isRef := true)]);
    forall t | t in m.locked && t in n.locked
      ensures LockFollows(m, n, t, Leave(x))
    {
      assert n.symbols == m.symbols;
    }
  }

  /** A reference that unsetting leaves with one variable is one no longer. */
  function UnsetFlags(s: Vars, flags: set<string>, x: string): set<string> {
    if x in s.refs && |s.refs[x] - {x}| == 1 then flags - s.refs[x] else flags - {x}
  }

  lemma UnsetNoFlag(m: Mem, x: string)
    requires Grounded(m) && x !in m.symbols
    ensures UnsetFlags(View(m), Flags(m), x) == Flags(m)
  {
  }

  /** The memory after a variable has been taken out of the symbol table. */
  function Removed(m: Mem, x: string): Mem
    requires x in m.symbols && m.symbols[x] in m.heap
  {
    var d := Dropped(m, x);
    var p := m.symbols[x];
    if p in d.heap && d.heap[p].refcount == 1 then d.(heap := d.heap[p := d.heap[p].(isRef := false)]) else d
  }

  lemma RemovedFlags(m: Mem, x: string)
    requires m.Valid() && x in m.symbols && m.locked == map[] && m.garbage == []
    ensures Grounded(m) && Grounded(Removed(m, x)) && Flags(Removed(m, x)) == UnsetFlags(View(m), Flags(m), x)
  {
    hide Mem.Valid, Dropped;
    DroppedValid(m, x);
    DropAlike(m, x);
    var d := Dropped(m, x);
    var p := m.symbols[x];
    RemovedSet(m, d, x, p);
    if m.At(x).isRef {
      RemainingCount(m, x);
      assert View(m).refs[x] == RefSet(m, x);
    }
  }

  /** With no temporary left, the count of a reference is the number of variables in its set. */
  lemma RemainingCount(m: Mem, x: string)
    requires m.Valid() && x in m.symbols && m.locked == map[] && m.garbage == [] && m.At(x).isRef
    ensures var d := Dropped(m, x); var p := m.symbols[x];
      if p in d.heap then d.heap[p].refcount == |RefSet(m, x) - {x}| else RefSet(m, x) == {x}
  {
    var d := Dropped(m, x);
    var p := m.symbols[x];
    HoldersNone(m.locked, p);
    HoldersDrop(m.symbols, x, p);
    assert RefSet(m, x) - {x} == set y | y in d.symbols && d.symbols[y] == p;
    if m.At(x).refcount == 1 {
      SoleSlot(m, x);
    }
  }

  lemma RemovedSet(m: Mem, d: Mem, x: string, p: Ptr)
    requires Grounded(m) && x in m.symbols && m.symbols[x] == p && d.symbols == m.symbols - {x} && p in m.heap
    requires forall z :: z in m.symbols && z != x ==> m.symbols[z] in d.heap && Alike(d.At(z), m.At(z))
    ensures Grounded(d) && Flags(d) == Flags(m) - {x}
    ensures p in d.heap ==>
      var n := d.(heap := d.heap[p := d.heap[p].(isRef := false)]);
      Grounded(n) && Flags(n) == if m.At(x).isRef then Flags(m) - RefSet(m, x) else Flags(m) - {x}
  {
  }
}
