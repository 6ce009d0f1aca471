/** Whole runs of the request allocator, as the program sees them. */
module ArenaRuns {
  import opened Buckets
  import opened Arenas
  import opened ArenaSafety

  /** The calls of a program; at is where malloc or realloc puts a block, or NULL. */
  datatype Call = Malloc(size: nat, at: Ptr) | Free(p: Ptr) | Resize(p: Ptr, size: nat, at: Ptr) | Keep(p: Ptr)

  /** A program only gives back what it holds, and malloc and realloc give out free memory. */
  ghost predicate Allowed(a: Arena, c: Call) {
    match c
    case Malloc(size, at) => MallocFits(a, size, at)
    case Free(p) => Holds(a, p)
    case Resize(p, size, at) => if p == NULL then MallocFits(a, size, at) else Holds(a, p) && Fits(a, at, RealSize(size), p)
    case Keep(p) => Holds(a, p)
  }

  /** The arena after a call, and the address it returns. */
  function Step(a: Arena, c: Call): (Arena, Ptr) {
    match c
    case Malloc(size, at) => Emalloc(a, size, at)
    case Free(p) => if p in a.blocks then (Efree(a, p), NULL) else (a, NULL)
    case Resize(p, size, at) =>
      if p == NULL then Emalloc(a, size, at) else if p in a.blocks then Erealloc(a, p, size, at) else (a, NULL)
    case Keep(p) => if p in a.blocks then (Persist(a, p), NULL) else (a, NULL)
  }

  ghost predicate Good(a: Arena) { Inv(a) && Sized(a) && Accounted(a) }

  /** The request of a call fits into the size field. */
  predicate InField(c: Call) { (c.Malloc? || c.Resize?) ==> c.size < SIZE_FIELD }

  // The meaning aimed at: blocks of the sizes asked for, none overlapping

  /** What the program holds after a call that returned r. */
  function HeldAfter(h: map<Ptr, nat>, c: Call, r: Ptr): map<Ptr, nat> {
    match c
    case Malloc(size, _) => if r == NULL then h else h[r := size]
    case Free(p) => h - {p}
    case Resize(p, size, _) => if r == NULL then h else (h - {p})[r := size]
    case Keep(_) => h
  }

  /** No two blocks have a byte in common, their headers included. */
  ghost predicate NoOverlap(h: map<Ptr, nat>) { forall p, q :: p in h && q in h && p != q ==> Apart(p, h[p], q, h[q]) }

  /** The bytes of r were nobody's before the call, except that realloc may use those of the block it is given. */
  ghost predicate Fresh(h: map<Ptr, nat>, c: Call, r: Ptr) {
    r != NULL && (c.Malloc? || c.Resize?) ==>
      forall q :: q in h && !(c.Resize? && q == c.p) ==> q != r && Apart(r, c.size, q, h[q])
  }

  lemma GoodNoOverlap(a: Arena)
    requires Good(a)
    ensures NoOverlap(Held(a))
  {
    forall p, q | p in Held(a) && q in Held(a) && p != q
      ensures Apart(p, Held(a)[p], q, Held(a)[q])
    {
      HeldWithin(a, p);
      HeldWithin(a, q);
    }
  }

  /** A block lies within what malloc gave out for it. */
  lemma HeldWithin(a: Arena, p: Ptr)
    requires Good(a) && p in Held(a)
    ensures p in a.extent && Held(a)[p] <= a.extent[p]
  {
    RealSizeCovers(a.blocks[p].size);
  }

  /** Every call keeps the invariant and the account, and does to what the program holds what it is meant to. */
  lemma StepServes(a: Arena, c: Call)
    requires Good(a) && Allowed(a, c) && InField(c)
    ensures var (b, r) := Step(a, c); Good(b) && Held(b) == HeldAfter(Held(a), c, r) && Fresh(Held(a), c, r)
  {
    hide Inv, Sized, Accounted, Emalloc, Efree, Erealloc, Persist, Fits, MallocFits, RealSize, Hit, Held;
    match c
    case Malloc(size, at) => MallocServes(a, size, at);
    case Free(p) => EfreeServes(a, p);
    case Resize(p, size, at) =>
      if p == NULL {
        MallocServes(a, size, at);
        NullNotHeld(a);
      } else {
        ResizeServes(a, p, size, at);
      }
    case Keep(p) => PersistServes(a, p);
  }

  lemma NullNotHeld(a: Arena)
    requires Inv(a)
    ensures NULL !in Held(a) && Held(a) - {NULL} == Held(a)
  {
    hide CacheOk, DisjointOk;
  }

  lemma MallocServes(a: Arena, size: nat, at: Ptr)
    requires Good(a) && MallocFits(a, size, at) && size < SIZE_FIELD
    ensures var (b, r) := Emalloc(a, size, at);
      Good(b) && Held(b) == HeldAfter(Held(a), Malloc(size, at), r) && Fresh(Held(a), Malloc(size, at), r)
  {
    hide Inv, Sized, Accounted, Emalloc, RealSize, Hit, MallocFits, Held;
    EmallocServes(a, size, at);
    EmallocKeeps(a, size, at);
    if Hit(a, size) || at != NULL {
      EmallocAccounts(a, size, at);
    }
    var r := Emalloc(a, size, at).1;
    forall q | r != NULL && q in Held(a)
      ensures q != r && Apart(r, size, q, Held(a)[q])
    {
      HeldWithin(a, q);
    }
  }

  lemma ResizeServes(a: Arena, p: Ptr, size: nat, at: Ptr)
    requires Good(a) && Holds(a, p) && Fits(a, at, RealSize(size), p) && size < SIZE_FIELD && p != NULL
    ensures var (b, r) := Erealloc(a, p, size, at);
      Good(b) && Held(b) == HeldAfter(Held(a), Resize(p, size, at), r) && Fresh(Held(a), Resize(p, size, at), r)
  {
    hide Inv, Sized, Accounted, Erealloc, RealSize, Fits, Held;
    EreallocServes(a, p, size, at);
    EreallocKeeps(a, p, size, at);
    EreallocAccounts(a, p, size, at);
    var r := Erealloc(a, p, size, at).1;
    forall q | r != NULL && q in Held(a) && q != p
      ensures q != r && Apart(r, size, q, Held(a)[q])
    {
      HeldWithin(a, q);
      assert q in Held(a) - {p};
    }
  }

  // Runs

  ghost predicate AllAllowed(a: Arena, cs: seq<Call>)
    decreases cs
  {
    cs != [] ==> Allowed(a, cs[0]) && AllAllowed(Step(a, cs[0]).0, cs[1..])
  }

  function Run(a: Arena, cs: seq<Call>): (Arena, seq<Ptr>)
    decreases cs
  {
    if cs == [] then (a, []) else
    var (b, r) := Step(a, cs[0]);
    var (z, rs) := Run(b, cs[1..]);
    (z, [r] + rs)
  }

  /** The addresses returned are good answers, starting from h and ending in z. */
  ghost predicate Answers(h: map<Ptr, nat>, cs: seq<Call>, rs: seq<Ptr>, z: map<Ptr, nat>)
    decreases cs
  {
    NoOverlap(h) &&
    if cs == [] then rs == [] && z == h
    else rs != [] && Fresh(h, cs[0], rs[0]) && Answers(HeldAfter(h, cs[0], rs[0]), cs[1..], rs[1..], z)
  }

  /**
   Whatever a program asks for, in sizes that fit into the size field, every block it gets is one that nobody has,
   what it holds is at every moment what a plain account of its calls says, no two blocks overlap at any moment, and
   the invariant, the sizes and the account hold at the end.
   */
  lemma {:induction false} RunServes(a: Arena, cs: seq<Call>)
    requires Good(a) && AllAllowed(a, cs) && forall i :: 0 <= i < |cs| ==> InField(cs[i])
    ensures var (z, rs) := Run(a, cs); Good(z) && Answers(Held(a), cs, rs, Held(z))
    decreases cs
  {
    hide Good, Held, NoOverlap, Allowed, Step, HeldAfter, Fresh, InField;
    GoodNoOverlap(a);
    if cs != [] {
      StepServes(a, cs[0]);
      RunServes(Step(a, cs[0]).0, cs[1..]);
      assert Run(a, cs).1[1..] == Run(Step(a, cs[0]).0, cs[1..]).1;
    }
  }

  lemma StartGood()
    ensures Good(Start) && Held(Start) == map[]
  {
  }

  /** Without any bound on the sizes asked for, the lists, the cache and the memory blocks stay in order all the same. */
  lemma {:induction false} RunKeeps(a: Arena, cs: seq<Call>)
    requires Inv(a) && AllAllowed(a, cs)
    ensures Inv(Run(a, cs).0)
    decreases cs
  {
    hide Inv, Emalloc, Efree, Erealloc, Persist, Fits, MallocFits, RealSize;
    if cs != [] {
      match cs[0] {
        case Malloc(size, at) => EmallocKeeps(a, size, at);
        case Free(p) => EfreeKeeps(a, p);
        case Resize(p, size, at) => if p == NULL { EmallocKeeps(a, size, at); } else { EreallocKeeps(a, p, size, at); }
        case Keep(p) => PersistServes(a, p);
      }
      RunKeeps(Step(a, cs[0]).0, cs[1..]);
    }
  }

  /** The account of a whole run: allocated_memory is what the program holds, rounded, and the cache by its counters. */
  lemma RunCosts(cs: seq<Call>)
    requires AllAllowed(Start, cs) && forall i :: 0 <= i < |cs| ==> InField(cs[i])
    ensures var z := Run(Start, cs).0;
      && (forall p :: p in z.list || p in z.plist ==> p in z.blocks)
      && z.used == (TotalOf(z.blocks, z.list, false) + Total(z.blocks, z.plist) + CacheBytes(z.rows)) % UINT
      && CacheBytes(z.rows) <= 112640
  {
    hide Sized, AllAllowed, CacheOk, DisjointOk, Run, Answers, Total, TotalOf, CacheBytes, InField, Start, Distinct, Held;
    StartGood();
    RunServes(Start, cs);
    CacheCosts(Run(Start, cs).0);
  }

  /** The peak is the most that allocated_memory has been, as long as the sizes do not exceed an unsigned int. */
  lemma StepPeak(a: Arena, c: Call)
    requires Good(a) && Allowed(a, c) && a.used <= a.peak && Total(a.blocks, a.list) + Total(a.blocks, a.plist) < UINT
    ensures Step(a, c).0.peak == Max(a.peak, Step(a, c).0.used)
  {
    hide CacheOk, DisjointOk, Sized, Fits, MallocFits, RealSize, Distinct, Total;
    match c
    case Malloc(size, at) => EmallocPeak(a, size, at);
    case Free(p) => EfreePeak(a, p);
    case Resize(p, size, at) =>
      if p == NULL {
        EmallocPeak(a, size, at);
      } else {
        EreallocPeak(a, p, size, at);
      }
    case Keep(p) => PersistPeak(a, p);
  }

  lemma EmallocPeak(a: Arena, size: nat, at: Ptr)
    requires a.used <= a.peak
    ensures var b := Emalloc(a, size, at).0; b.peak == Max(a.peak, b.used)
  {
  }

  lemma EreallocPeak(a: Arena, p: Ptr, size: nat, at: Ptr)
    requires a.used <= a.peak && p in a.blocks
    ensures var b := Erealloc(a, p, size, at).0; b.peak == Max(a.peak, b.used)
  {
    hide RealSize, Less;
  }

  lemma PersistPeak(a: Arena, p: Ptr)
    requires a.used <= a.peak && p in a.blocks
    ensures var b := Persist(a, p); b.peak == Max(a.peak, b.used)
  {
    hide Less;
  }

  /** Freeing a block takes from the account no more than it holds. */
  lemma EfreePeak(a: Arena, p: Ptr)
    requires ListsOk(a) && Accounted(a) && p in a.blocks && a.used <= a.peak
    requires Total(a.blocks, a.list) + Total(a.blocks, a.plist) < UINT
    ensures var b := Efree(a, p); b.peak == Max(a.peak, b.used)
  {
    hide RealSize, Less, Distinct, Total;
    RemovedIs(a, p);
    TakenFrom(Total(a.blocks, a.list) + Total(a.blocks, a.plist), RealSize(a.blocks[p].size));
  }

  lemma TakenFrom(t: nat, n: nat)
    requires n <= t < UINT
    ensures (t % UINT - n) % UINT == t - n && t % UINT == t
  {
  }

  /** Memory handed in beyond the size field: one request after which the account is wrong, by a whole gigabyte. */
  lemma AccountWrong()
    ensures var a := Emalloc(Start, SIZE_FIELD, 1).0;
      Inv(a) && !Accounted(a) && a.used == SIZE_FIELD && Total(a.blocks, a.list) + Total(a.blocks, a.plist) == 0
  {
    hide CacheOk;
    StartGood();
    EmallocKeeps(Start, SIZE_FIELD, 1);
    var a := Emalloc(Start, SIZE_FIELD, 1).0;
    assert a.list == [1] && a.plist == [];
    assert a.blocks[1].size == 0;
  }
}
