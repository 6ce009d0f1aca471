/**
 Reference-counted zvals: the memory an execution shares between variable slots, locked temporaries and the
 garbage list, the bookkeeping that must hold in it, and the variables one sees through it.
 */
module Zvals {
  import opened Values

  type Ptr = nat

  /** EG(uninitialized_zval): one statically owned zval that every new variable shares. */
  const UNINIT: Ptr := 0

  datatype Zval = Zval(value: Value, refcount: int, isRef: bool)

  /**
   symbols: the active symbol table, slot by slot. locked: temporaries holding a lock on a zval; those in slotOf
   designate the slot itself (ptr_ptr). vals: plain temporaries. garbage: EG(garbage).
   */
  datatype Mem = Mem(heap: map<Ptr, Zval>, symbols: map<string, Ptr>, locked: map<nat, Ptr>, slotOf: map<nat, string>,
                     vals: map<nat, Value>, garbage: seq<Ptr>) {

    /** Everything that owns one count of p. */
    ghost function Owners(p: Ptr): nat {
      Holders(symbols, p) + Holders(locked, p) + multiset(garbage)[p] + if p == UNINIT then 1 else 0
    }

    /** Reference-count conservation, no dangling pointer, no reference among the garbage, and the capacity of its array. */
    ghost predicate Valid() {
      && UNINIT in heap && heap[UNINIT].value == Null && !heap[UNINIT].isRef
      && (forall x :: x in symbols ==> symbols[x] in heap)
      && (forall t :: t in locked ==> locked[t] in heap)
      && (forall p :: p in garbage ==> p in heap && !heap[p].isRef)
      && (forall p :: p in heap ==> heap[p].refcount == Owners(p) && heap[p].refcount >= 1)
      && |garbage| <= 2
    }

    function Count(p: Ptr, d: int): Mem
      requires p in heap
    {
      this.(heap := heap[p := heap[p].(refcount := heap[p].refcount + d)])
    }

    /** The zval a slot points to. */
    function At(x: string): Zval
      requires x in symbols && symbols[x] in heap
    {
      heap[symbols[x]]
    }
  }

  /** How many keys lead to p. */
  ghost function Holders<K>(m: map<K, Ptr>, p: Ptr): nat { |set k | k in m && m[k] == p| }

  lemma HoldersPut<K>(m: map<K, Ptr>, k: K, q: Ptr, p: Ptr)
    requires k !in m
    ensures Holders(m[k := q], p) == Holders(m, p) + if q == p then 1 else 0
  {
    var a := set j | j in m && m[j] == p;
    var m1 := m[k := q];
    var b := set j | j in m1 && m1[j] == p;
    assert b == if q == p then a + {k} else a;
  }

  lemma HoldersDrop<K>(m: map<K, Ptr>, k: K, p: Ptr)
    requires k in m
    ensures Holders(m - {k}, p) == Holders(m, p) - if m[k] == p then 1 else 0
  {
    var a := set j | j in m && m[j] == p;
    var m1 := m - {k};
    var b := set j | j in m1 && m1[j] == p;
    assert b == if m[k] == p then a - {k} else a;
  }

  lemma HoldersSome<K>(m: map<K, Ptr>, k: K, p: Ptr)
    requires k in m && m[k] == p
    ensures Holders(m, p) >= 1
  {
    var a := set j | j in m && m[j] == p;
    Subset({k}, a);
  }

  lemma HoldersTwo<K>(m: map<K, Ptr>, k: K, l: K, p: Ptr)
    requires k in m && m[k] == p && l in m && m[l] == p && k != l
    ensures Holders(m, p) >= 2
  {
    var a := set j | j in m && m[j] == p;
    assert |{k, l}| == 2;
    Subset({k, l}, a);
  }

  lemma Subset<T>(a: set<T>, b: set<T>)
    requires a <= b
    ensures |a| <= |b|
  {
    assert b == a + (b - a);
  }

  lemma HoldersNone<K>(m: map<K, Ptr>, p: Ptr)
    requires p !in m.Values
    ensures Holders(m, p) == 0
  {
    assert forall k :: k in m ==> m[k] in m.Values;
    assert (set k | k in m && m[k] == p) == {};
  }

  /** A zval with a single owner that is a slot is held by nothing else. */
  lemma SoleSlot(m: Mem, x: string)
    requires m.Valid() && x in m.symbols && m.At(x).refcount == 1
    ensures forall y :: y in m.symbols && y != x ==> m.symbols[y] != m.symbols[x]
    ensures forall t :: t in m.locked ==> m.locked[t] != m.symbols[x]
    ensures m.symbols[x] !in m.garbage && m.symbols[x] != UNINIT
  {
    var p := m.symbols[x];
    HoldersSome(m.symbols, x, p);
    forall y | y in m.symbols && y != x
      ensures m.symbols[y] != p
    {
      if m.symbols[y] == p {
        HoldersTwo(m.symbols, x, y, p);
      }
    }
    forall t | t in m.locked
      ensures m.locked[t] != p
    {
      if m.locked[t] == p {
        HoldersSome(m.locked, t, p);
      }
    }
  }

  // The moves of which every opcode is made. Each keeps the memory valid.

  /** A slot lets go of its zval, which is freed with its last count. */
  function Dropped(m: Mem, x: string): Mem
    requires x in m.symbols && m.symbols[x] in m.heap
  {
    var p := m.symbols[x];
    var m1 := m.(symbols := m.symbols - {x});
    if m.heap[p].refcount == 1 then m1.(heap := m.heap - {p}) else m1.Count(p, -1)
  }

  /** An empty slot takes a further count of a zval. */
  function Attached(m: Mem, x: string, p: Ptr): Mem
    requires p in m.heap
  {
    m.Count(p, 1).(symbols := m.symbols[x := p])
  }

  /** An empty slot gets a new zval of its own. */
  function AttachedNew(m: Mem, x: string, p: Ptr, v: Value, isRef: bool): Mem {
    m.(heap := m.heap[p := Zval(v, 1, isRef)], symbols := m.symbols[x := p])
  }

  function Locked(m: Mem, t: nat, p: Ptr): Mem
    requires p in m.heap
  {
    m.Count(p, 1).(locked := m.locked[t := p])
  }

  /** PZVAL_UNLOCK: a zval that loses its last count goes to the garbage list with one count of its own. */
  function Unlocked(m: Mem, t: nat): Mem
    requires t in m.locked && m.locked[t] in m.heap
  {
    var p := m.locked[t];
    var m1 := m.(locked := m.locked - {t}, slotOf := m.slotOf - {t});
    if m.heap[p].refcount == 1 then
      m1.(heap := m.heap[p := m.heap[p].(isRef := false)], garbage := m.garbage + [p])
    else m1.Count(p, -1)
  }

  lemma DroppedValid(m: Mem, x: string)
    requires m.Valid() && x in m.symbols
    ensures Dropped(m, x).Valid()
  {
    hide Mem.Owners;
    var p := m.symbols[x];
    var d := Dropped(m, x);
    if m.heap[p].refcount == 1 {
      SoleSlot(m, x);
    }
    DroppedPositive(m, x);
    forall q | q in d.heap
      ensures d.heap[q].refcount == d.Owners(q) && d.heap[q].refcount >= 1
    {
      DroppedOwners(m, x, q);
    }
  }

  lemma DroppedOwners(m: Mem, x: string, q: Ptr)
    requires x in m.symbols && m.symbols[x] in m.heap
    ensures Dropped(m, x).Owners(q) == m.Owners(q) - if m.symbols[x] == q then 1 else 0
  {
    HoldersDrop(m.symbols, x, q);
  }

  lemma DroppedPositive(m: Mem, x: string)
    requires m.Valid() && x in m.symbols
    ensures m.At(x).refcount >= 1
  {
  }

  lemma AttachedValid(m: Mem, x: string, p: Ptr)
    requires m.Valid() && x !in m.symbols && p in m.heap
    ensures Attached(m, x, p).Valid()
  {
    var d := Attached(m, x, p);
    forall q | q in d.heap
      ensures d.heap[q].refcount == d.Owners(q) && d.heap[q].refcount >= 1
    {
      HoldersPut(m.symbols, x, p, q);
    }
  }

  lemma FreshUnowned(m: Mem, p: Ptr)
    requires m.Valid() && p !in m.heap
    ensures m.Owners(p) == 0
  {
    HoldersNone(m.symbols, p);
    HoldersNone(m.locked, p);
  }

  lemma AttachedNewValid(m: Mem, x: string, p: Ptr, v: Value, isRef: bool)
    requires m.Valid() && x !in m.symbols && p !in m.heap
    ensures AttachedNew(m, x, p, v, isRef).Valid()
  {
    var d := AttachedNew(m, x, p, v, isRef);
    FreshUnowned(m, p);
    forall q | q in d.heap
      ensures d.heap[q].refcount == d.Owners(q) && d.heap[q].refcount >= 1
    {
      HoldersPut(m.symbols, x, p, q);
    }
  }

  lemma LockedValid(m: Mem, t: nat, p: Ptr)
    requires m.Valid() && t !in m.locked && p in m.heap
    ensures Locked(m, t, p).Valid()
  {
    var d := Locked(m, t, p);
    forall q | q in d.heap
      ensures d.heap[q].refcount == d.Owners(q) && d.heap[q].refcount >= 1
    {
      HoldersPut(m.locked, t, p, q);
    }
  }

  lemma UnlockedValid(m: Mem, t: nat)
    requires m.Valid() && t in m.locked
    requires m.heap[m.locked[t]].refcount == 1 ==> |m.garbage| < 2
    ensures Unlocked(m, t).Valid()
  {
    hide Mem.Owners;
    var p := m.locked[t];
    var d := Unlocked(m, t);
    LockedOwner(m, t);
    forall q | q in d.heap
      ensures d.heap[q].refcount == d.Owners(q) && d.heap[q].refcount >= 1
    {
      UnlockedOwners(m, t, q);
    }
  }

  lemma LockedOwner(m: Mem, t: nat)
    requires t in m.locked
    ensures m.Owners(m.locked[t]) >= 1 && (m.locked[t] == UNINIT ==> m.Owners(UNINIT) >= 2)
  {
    HoldersSome(m.locked, t, m.locked[t]);
  }

  lemma UnlockedOwners(m: Mem, t: nat, q: Ptr)
    requires t in m.locked && m.locked[t] in m.heap
    ensures var p := m.locked[t];
      Unlocked(m, t).Owners(q) == m.Owners(q) - if q == p && m.heap[p].refcount != 1 then 1 else 0
  {
    HoldersDrop(m.locked, t, q);
  }

  /** Overwriting a zval's value and reference flag concerns no count. */
  lemma RewrittenValid(m: Mem, p: Ptr, v: Value, isRef: bool)
    requires m.Valid() && p in m.heap && p != UNINIT && (isRef ==> p !in m.garbage)
    ensures m.(heap := m.heap[p := Zval(v, m.heap[p].refcount, isRef)]).Valid()
  {
    var d := m.(heap := m.heap[p := Zval(v, m.heap[p].refcount, isRef)]);
    forall q | q in d.heap
      ensures d.heap[q].refcount == d.Owners(q) && d.heap[q].refcount >= 1
    {
      assert d.Owners(q) == m.Owners(q);
    }
  }
}
