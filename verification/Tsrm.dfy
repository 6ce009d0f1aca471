/**
 The thread-safe resource manager (TSRM.c) under every interleaving of its threads: allocation of resource ids,
 lookup with its fast path through thread-local storage, and thread exit. A step is what one thread does between
 two points at which another may run.
 */
module Tsrm {

  type Thread = nat

  /** tsrm_tls_entry; its resources are the pairs of addr and a resource id below count. */
  datatype Entry = Entry(addr: nat, thread: Thread, count: nat)

  /** Where a thread is. */
  datatype Pc =
    | Idle
    | AllocWait                                // ts_allocate_id, before the lock
    | AllocGrow(i: nat, k: nat)                // holding it, about to enlarge entry k of chain i
    | LookWait(id: nat, again: bool)           // ts_resource_ex off the fast path, before the lock
    | LookWalk(id: nat, again: bool, k: nat)   // holding it, looking at entry k of the thread's chain
    | Build(id: nat, j: nat)                   // allocate_new_resource, about to construct resource j
    | Found(id: nat, addr: nat)                // past the lock, about to read the storage
    | ExitWait                                 // ts_free_thread, before the lock
    | ExitWalk(k: nat)                         // holding it, looking at entry k of the thread's chain
  {
    predicate Holds() { AllocGrow? || LookWalk? || Build? || ExitWalk? }
  }

  /** built and destroyed record the constructor and destructor calls, by entry and resource id. */
  datatype State = State(mutex: map<(), Thread>, idCount: nat, chains: seq<seq<Entry>>, tls: map<Thread, nat>,
                         pcs: map<Thread, Pc>, nextAddr: nat, built: seq<(nat, nat)>, destroyed: seq<(nat, nat)>)
  {
    function Pc(t: Thread): Pc { if t in pcs then pcs[t] else Idle }

    function At(t: Thread, pc: Pc): State { this.(pcs := pcs[t := pc]) }

    predicate Free() { () !in mutex }

    predicate HeldBy(t: Thread) { () in mutex && mutex[()] == t }

    function Lock(t: Thread): State { this.(mutex := map[() := t]) }

    function Unlock(): State { this.(mutex := map[]) }

    /** THREAD_HASH_OF */
    function Slot(t: Thread): (n: nat)
      requires |chains| > 0
      ensures n < |chains|
    {
      t % |chains|
    }

    function Chain(t: Thread): seq<Entry>
      requires |chains| > 0
    {
      chains[Slot(t)]
    }

    function WithChain(t: Thread, c: seq<Entry>): State
      requires |chains| > 0
    {
      this.(chains := chains[Slot(t) := c])
    }
  }

  /** tsrm_startup */
  function Startup(expectedThreads: nat): State {
    State(map[], 0, seq(expectedThreads, _ => []), map[], map[], 0, [], [])
  }

  function Pairs(addr: nat, n: nat): (ps: seq<(nat, nat)>)
    ensures |ps| == n && forall i :: 0 <= i < n ==> ps[i] == (addr, i)
  {
    seq(n, i => (addr, i))
  }

  // The steps

  datatype Call = AllocateId | Resource(id: nat) | FreeThread

  /** A thread that does nothing makes a call. Off the fast path the lookup turns to the lock. */
  function Enter(s: State, t: Thread, c: Call): State {
    match c
    case AllocateId => s.At(t, AllocWait)
    case Resource(id) => if t in s.tls then s.At(t, Found(id, s.tls[t])) else s.At(t, LookWait(id, false))
    case FreeThread => s.At(t, ExitWait)
  }

  /** tsrm_mutex_lock; ts_allocate_id takes its id at once. */
  function Acquire(s: State, t: Thread): State {
    var l := s.Lock(t);
    match s.Pc(t)
    case AllocWait => l.(idCount := s.idCount + 1).At(t, AllocGrow(0, 0))
    case LookWait(id, again) => l.At(t, LookWalk(id, again, 0))
    case ExitWait => l.At(t, ExitWalk(0))
    case _ => s
  }

  /** ts_allocate_id: the arrays of the active threads are enlarged, entry by entry. */
  function Grow(s: State, t: Thread, i: nat, k: nat): State {
    if i >= |s.chains| then s.Unlock().At(t, Idle)
    else if k >= |s.chains[i]| then s.At(t, AllocGrow(i + 1, 0))
    else
      var e := s.chains[i][k];
      if e.count < s.idCount then
        s.(chains := s.chains[i := s.chains[i][k := e.(count := s.idCount)]],
           built := s.built + Pairs(e.addr, s.idCount)[e.count..]).At(t, AllocGrow(i, k + 1))
      else s.At(t, AllocGrow(i, k + 1))
  }

  /** The search of ts_resource_ex; at the end of the chain allocate_new_resource links an entry in and sets the TLS. */
  function Walk(s: State, t: Thread, id: nat, again: bool, k: nat): State
    requires |s.chains| > 0
  {
    var c := s.Chain(t);
    if k >= |c| then
      s.WithChain(t, c + [Entry(s.nextAddr, t, s.idCount)]).(tls := s.tls[t := s.nextAddr], nextAddr := s.nextAddr + 1).At(t, Build(id, 0))
    else if c[k].thread == t then s.Unlock().At(t, Found(id, c[k].addr))
    else s.At(t, LookWalk(id, again, k + 1))
  }

  /** allocate_new_resource: one resource after the other; then the lock is released and the lookup starts over. */
  function Construct(s: State, t: Thread, id: nat, j: nat): State {
    if t in s.tls && j < s.idCount then s.(built := s.built + [(s.tls[t], j)]).At(t, Build(id, j + 1))
    else s.Unlock().At(t, LookWait(id, true))
  }

  /** ts_free_thread */
  function Exit(s: State, t: Thread, k: nat): State
    requires |s.chains| > 0
  {
    var c := s.Chain(t);
    if k >= |c| then s.Unlock().At(t, Idle)
    else if c[k].thread == t then
      s.WithChain(t, c[..k] + c[k + 1..]).(tls := s.tls - {t}, destroyed := s.destroyed + Pairs(c[k].addr, c[k].count)).Unlock().At(t, Idle)
    else s.At(t, ExitWalk(k + 1))
  }

  /** What a thread does next, holding the lock or not needing it. */
  function Proceed(s: State, t: Thread): State
    requires |s.chains| > 0
  {
    match s.Pc(t)
    case AllocGrow(i, k) => Grow(s, t, i, k)
    case LookWalk(id, again, k) => Walk(s, t, id, again, k)
    case Build(id, j) => Construct(s, t, id, j)
    case ExitWalk(k) => Exit(s, t, k)
    case Found(_, _) => s.At(t, Idle)
    case _ => s
  }

  datatype Step = Calls(t: Thread, c: Call) | Locks(t: Thread) | Goes(t: Thread)

  /** Whether a step can be taken: a lock only while the mutex is free. */
  predicate Enabled(s: State, x: Step) {
    match x
    case Calls(t, _) => s.Pc(t).Idle?
    case Locks(t) => s.Free() && (s.Pc(t).AllocWait? || s.Pc(t).LookWait? || s.Pc(t).ExitWait?)
    case Goes(t) => s.Pc(t).Holds() || s.Pc(t).Found?
  }

  function Next(s: State, x: Step): State
    requires |s.chains| > 0
  {
    match x
    case Calls(t, c) => Enter(s, t, c)
    case Locks(t) => Acquire(s, t)
    case Goes(t) => Proceed(s, t)
  }

  // What holds after every step

  /** Entries are in the chain of their thread, one for each thread; the TLS of a thread leads to its entry, or is unset. */
  ghost predicate TableOk(chains: seq<seq<Entry>>, tls: map<Thread, nat>, nextAddr: nat) {
    && |chains| > 0
    && (forall n, k :: 0 <= n < |chains| && 0 <= k < |chains[n]| ==> EntryOk(chains, tls, n, chains[n][k]))
    && (forall n :: 0 <= n < |chains| ==> OneEach(chains[n]))
    && (forall t :: t in tls ==> HasEntry(chains[t % |chains|], t) && tls[t] < nextAddr)
    && (forall t, u :: t in tls && u in tls && t != u ==> tls[t] != tls[u])
  }

  ghost predicate EntryOk(chains: seq<seq<Entry>>, tls: map<Thread, nat>, n: nat, e: Entry)
    requires |chains| > 0
  {
    e.thread % |chains| == n && e.thread in tls && tls[e.thread] == e.addr
  }

  ghost predicate OneEach(c: seq<Entry>) { forall k, l :: 0 <= k < l < |c| ==> c[k].thread != c[l].thread }

  ghost predicate HasEntry(c: seq<Entry>, t: Thread) { exists k :: 0 <= k < |c| && c[k].thread == t }

  /** Exactly the thread inside a critical section holds the mutex. */
  ghost predicate LockOk(s: State) { forall t :: s.Pc(t).Holds() <==> s.HeldBy(t) }

  datatype Work = Resting | Growing(i: nat, k: nat) | Building(t: Thread, j: nat)

  /** What the holder of the mutex is in the middle of. */
  function WorkOf(s: State): Work {
    if s.Free() then Resting
    else match s.Pc(s.mutex[()])
      case AllocGrow(i, k) => Growing(i, k)
      case Build(_, j) => Building(s.mutex[()], j)
      case _ => Resting
  }

  /** How many resources entry k of chain n has not got yet. */
  function Missing(w: Work, n: nat, k: nat): nat {
    if w.Growing? && !(n < w.i || (n == w.i && k < w.k)) then 1 else 0
  }

  /** The storage of an entry covers every id, but for the entries an id allocation has still to come to. */
  ghost predicate CountOk(chains: seq<seq<Entry>>, idCount: nat, w: Work) {
    forall n, k :: 0 <= n < |chains| && 0 <= k < |chains[n]| ==> chains[n][k].count + Missing(w, n, k) == idCount
  }

  /** How many resources of an entry have been constructed: all it has room for, unless it is being built. */
  function Constructed(w: Work, e: Entry): nat { if w.Building? && w.t == e.thread then w.j else e.count }

  ghost predicate NoDup(ps: seq<(nat, nat)>) { forall i, j :: 0 <= i < j < |ps| ==> ps[i] != ps[j] }

  /** Constructor calls: each resource once, and exactly those that entries are recorded to have. */
  ghost predicate BuiltOk(chains: seq<seq<Entry>>, built: seq<(nat, nat)>, nextAddr: nat, w: Work) {
    && NoDup(built) && (forall p :: p in built ==> p.0 < nextAddr)
    && (forall n, k :: 0 <= n < |chains| && 0 <= k < |chains[n]| ==> EntryBuilt(built, chains[n][k], w))
  }

  ghost predicate EntryBuilt(built: seq<(nat, nat)>, e: Entry, w: Work) {
    forall i: nat :: (e.addr, i) in built <==> i < Constructed(w, e)
  }

  /** Destructor calls: each resource at most once, only if constructed, and not while its entry is live. */
  ghost predicate DestroyedOk(destroyed: seq<(nat, nat)>, built: seq<(nat, nat)>, tls: map<Thread, nat>) {
    NoDup(destroyed) && forall p :: p in destroyed ==> p in built && p.0 !in tls.Values
  }

  /** None of the first k entries of the chain is the thread's own. */
  ghost predicate Passed(c: seq<Entry>, t: Thread, k: nat) { k <= |c| && forall j :: 0 <= j < k ==> c[j].thread != t }

  /** What a thread knows where it is. */
  ghost predicate PcOk(pc: Pc, t: Thread, c: seq<Entry>, tls: map<Thread, nat>, idCount: nat) {
    match pc
    case AllocGrow(_, _) => idCount >= 1
    case LookWait(_, again) => again <==> t in tls
    case LookWalk(_, again, k) => (again <==> t in tls) && Passed(c, t, k)
    case Build(_, j) => t in tls && j <= idCount
    case Found(_, addr) => t in tls && tls[t] == addr
    case ExitWalk(k) => Passed(c, t, k)
    case _ => true
  }

  ghost predicate ThreadOk(s: State, t: Thread)
    requires |s.chains| > 0
  {
    PcOk(s.Pc(t), t, s.Chain(t), s.tls, s.idCount)
  }

  ghost predicate Inv(s: State) {
    && TableOk(s.chains, s.tls, s.nextAddr) && LockOk(s) && CountOk(s.chains, s.idCount, WorkOf(s))
    && BuiltOk(s.chains, s.built, s.nextAddr, WorkOf(s)) && DestroyedOk(s.destroyed, s.built, s.tls)
    && forall t :: ThreadOk(s, t)
  }

  lemma StartupInv(expectedThreads: nat)
    requires expectedThreads > 0
    ensures Inv(Startup(expectedThreads))
  {
  }

  /** Two states between which only the program counter of one thread and the mutex have changed. */
  ghost predicate OnlyMoved(s: State, r: State, t: Thread) {
    && r == s.(mutex := r.mutex, pcs := r.pcs) && (forall u :: u != t ==> r.Pc(u) == s.Pc(u))
  }

  /** A move keeps everything if it respects the lock and leaves no work half done. */
  lemma MoveKeeps(s: State, r: State, t: Thread)
    requires Inv(s) && OnlyMoved(s, r, t) && LockOk(r) && WorkOf(r) == WorkOf(s) && ThreadOk(r, t)
    ensures Inv(r)
  {
    hide TableOk, LockOk, CountOk, BuiltOk, DestroyedOk, WorkOf, PcOk;
    SomeChain(s);
    forall u
      ensures ThreadOk(r, u)
    {
      assert ThreadOk(s, u);
    }
  }

  lemma SomeChain(s: State)
    requires Inv(s)
    ensures |s.chains| > 0
  {
  }

  lemma EnterInv(s: State, t: Thread, c: Call)
    requires Inv(s) && s.Pc(t).Idle?
    ensures Inv(Enter(s, t, c))
  {
    hide TableOk, CountOk, BuiltOk, DestroyedOk, Inv;
    SomeChain(s);
    LockIs(s);
    var r := Enter(s, t, c);
    MoveKeeps(s, r, t);
  }

  lemma LockIs(s: State)
    requires Inv(s)
    ensures LockOk(s) && forall t :: ThreadOk(s, t)
  {
  }

  lemma FoundInv(s: State, t: Thread)
    requires Inv(s) && s.Pc(t).Found?
    ensures Inv(s.At(t, Idle))
  {
    hide TableOk, CountOk, BuiltOk, DestroyedOk, Inv;
    SomeChain(s);
    LockIs(s);
    MoveKeeps(s, s.At(t, Idle), t);
  }

  /** A thread that takes the mutex, or has it, is the only one that looks at chains; the others keep what they know. */
  lemma OthersOk(s: State, r: State, t: Thread)
    requires Inv(s) && |r.chains| > 0 && (forall u :: u != t ==> r.Pc(u) == s.Pc(u) && !s.Pc(u).Holds())
    requires s.idCount <= r.idCount && forall u :: u != t ==> (u in r.tls <==> u in s.tls) && (u in s.tls ==> r.tls[u] == s.tls[u])
    requires ThreadOk(r, t)
    ensures forall u :: ThreadOk(r, u)
  {
    hide TableOk, LockOk, CountOk, BuiltOk, DestroyedOk, WorkOf;
    SomeChain(s);
    forall u
      ensures ThreadOk(r, u)
    {
      if u != t {
        assert ThreadOk(s, u);
      }
    }
  }

  /** The holder moves on, with its work. */
  lemma WorkMoves(s: State, r: State, t: Thread)
    requires Inv(s) && OnlyMoved(s, r, t) && LockOk(r) && CountOk(r.chains, r.idCount, WorkOf(r))
    requires BuiltOk(r.chains, r.built, r.nextAddr, WorkOf(r)) && ThreadOk(r, t)
    ensures Inv(r)
  {
    hide TableOk, LockOk, CountOk, BuiltOk, DestroyedOk, WorkOf, PcOk;
    SomeChain(s);
    forall u
      ensures ThreadOk(r, u)
    {
      assert ThreadOk(s, u);
    }
  }

  lemma Alone(s: State, t: Thread)
    requires Inv(s) && (s.Free() || s.HeldBy(t))
    ensures forall u :: u != t ==> !s.Pc(u).Holds()
  {
    LockIs(s);
    assert forall u :: u != t ==> !s.HeldBy(u);
  }

  lemma Parts(s: State)
    requires Inv(s)
    ensures TableOk(s.chains, s.tls, s.nextAddr) && LockOk(s) && CountOk(s.chains, s.idCount, WorkOf(s)) && |s.chains| > 0
    ensures BuiltOk(s.chains, s.built, s.nextAddr, WorkOf(s)) && DestroyedOk(s.destroyed, s.built, s.tls)
  {
  }

  lemma LockTaken(s: State, r: State, t: Thread)
    requires LockOk(s) && s.Free() && r.mutex == map[() := t] && r.Pc(t).Holds() && forall u :: u != t ==> r.Pc(u) == s.Pc(u)
    ensures LockOk(r) && r.HeldBy(t) && !s.Pc(t).Holds()
  {
    assert !s.HeldBy(t);
    forall u
      ensures r.Pc(u).Holds() <==> r.HeldBy(u)
    {
      assert s.Pc(u).Holds() <==> s.HeldBy(u);
    }
  }

  lemma AcquireInv(s: State, t: Thread)
    requires Inv(s) && s.Free() && (s.Pc(t).AllocWait? || s.Pc(t).LookWait? || s.Pc(t).ExitWait?)
    ensures Inv(Acquire(s, t))
  {
    hide TableOk, CountOk, BuiltOk, DestroyedOk, Inv, LockOk;
    Parts(s);
    LockIs(s);
    var r := Acquire(s, t);
    assert forall u :: u != t ==> r.Pc(u) == s.Pc(u);
    LockTaken(s, r, t);
    assert ThreadOk(s, t) && ThreadOk(r, t);
    if s.Pc(t).AllocWait? {
      Alone(s, t);
      OneMore(s.chains, s.idCount, s.built, s.nextAddr);
      OthersOk(s, r, t);
      Assemble(r);
    } else {
      MoveKeeps(s, r, t);
    }
  }

  lemma Assemble(r: State)
    requires TableOk(r.chains, r.tls, r.nextAddr) && LockOk(r) && CountOk(r.chains, r.idCount, WorkOf(r))
    requires BuiltOk(r.chains, r.built, r.nextAddr, WorkOf(r)) && DestroyedOk(r.destroyed, r.built, r.tls)
    requires |r.chains| > 0 && forall u :: ThreadOk(r, u)
    ensures Inv(r)
  {
  }

  /** A new id: every entry is one resource short. */
  lemma OneMore(chains: seq<seq<Entry>>, idCount: nat, built: seq<(nat, nat)>, nextAddr: nat)
    requires CountOk(chains, idCount, Resting) && BuiltOk(chains, built, nextAddr, Resting)
    ensures CountOk(chains, idCount + 1, Growing(0, 0)) && BuiltOk(chains, built, nextAddr, Growing(0, 0))
  {
    SameBuilt(chains, built, nextAddr, Resting, Growing(0, 0));
  }

  lemma SameBuilt(chains: seq<seq<Entry>>, built: seq<(nat, nat)>, nextAddr: nat, w: Work, v: Work)
    requires BuiltOk(chains, built, nextAddr, w) && !w.Building? && !v.Building?
    ensures BuiltOk(chains, built, nextAddr, v)
  {
    forall n, k | 0 <= n < |chains| && 0 <= k < |chains[n]|
      ensures EntryBuilt(built, chains[n][k], v)
    {
      assert EntryBuilt(built, chains[n][k], w);
    }
  }

  lemma GrowInv(s: State, t: Thread)
    requires Inv(s) && s.Pc(t).AllocGrow?
    ensures Inv(Grow(s, t, s.Pc(t).i, s.Pc(t).k))
  {
    hide TableOk, CountOk, BuiltOk, DestroyedOk, Inv, EntryBuilt;
    Parts(s);
    LockIs(s);
    Alone(s, t);
    var i, k := s.Pc(t).i, s.Pc(t).k;
    var r := Grow(s, t, i, k);
    assert ThreadOk(s, t);
    assert WorkOf(s) == Growing(i, k);
    assert forall u :: u != t ==> r.Pc(u) == s.Pc(u);
    if i >= |s.chains| {
      GrowthMoves(s.chains, s.idCount, i, k, Resting);
      SameBuilt(s.chains, s.built, s.nextAddr, Growing(i, k), Resting);
      WorkMoves(s, r, t);
    } else if k >= |s.chains[i]| {
      GrowthMoves(s.chains, s.idCount, i, k, Growing(i + 1, 0));
      SameBuilt(s.chains, s.built, s.nextAddr, Growing(i, k), Growing(i + 1, 0));
      WorkMoves(s, r, t);
    } else {
      var e := s.chains[i][k];
      Short(s.chains, s.idCount, i, k);
      assert Pairs(e.addr, s.idCount)[e.count..] == [(e.addr, e.count)];
      Enlarged(s, i, k);
      OthersOk(s, r, t);
      Assemble(r);
    }
  }

  lemma Short(chains: seq<seq<Entry>>, idCount: nat, i: nat, k: nat)
    requires CountOk(chains, idCount, Growing(i, k)) && i < |chains| && k < |chains[i]|
    ensures chains[i][k].count + 1 == idCount
  {
  }

  /** Beyond the end of a chain, or of the table, nothing is missing. */
  lemma GrowthMoves(chains: seq<seq<Entry>>, idCount: nat, i: nat, k: nat, w: Work)
    requires CountOk(chains, idCount, Growing(i, k))
    requires w == (if i >= |chains| then Resting else Growing(i + 1, 0)) && (i < |chains| ==> k >= |chains[i]|)
    ensures CountOk(chains, idCount, w)
  {
  }

  /** Entry k of chain i gets its missing resource. */
  lemma Enlarged(s: State, i: nat, k: nat)
    requires Inv(s) && i < |s.chains| && k < |s.chains[i]| && WorkOf(s) == Growing(i, k) && s.chains[i][k].count + 1 == s.idCount
    ensures var e := s.chains[i][k]; var f := e.(count := s.idCount);
      var chains := s.chains[i := s.chains[i][k := f]]; var built := s.built + [(e.addr, e.count)];
      TableOk(chains, s.tls, s.nextAddr) && CountOk(chains, s.idCount, Growing(i, k + 1)) &&
      BuiltOk(chains, built, s.nextAddr, Growing(i, k + 1)) && DestroyedOk(s.destroyed, built, s.tls)
  {
    Parts(s);
    var e := s.chains[i][k];
    var f := e.(count := s.idCount);
    var chains := s.chains[i := s.chains[i][k := f]];
    var built := s.built + [(e.addr, e.count)];
    TableCounts(s.chains, s.tls, s.nextAddr, i, k, f);
    CountsNext(s.chains, s.idCount, i, k);
    BuiltNext(s.chains, s.tls, s.built, s.nextAddr, i, k);
    assert DestroyedOk(s.destroyed, built, s.tls) by {
      hide TableOk, CountOk, BuiltOk;
    }
  }

  /** Counts are no part of the table's shape. */
  lemma TableCounts(chains: seq<seq<Entry>>, tls: map<Thread, nat>, nextAddr: nat, i: nat, k: nat, f: Entry)
    requires TableOk(chains, tls, nextAddr) && i < |chains| && k < |chains[i]| && f == chains[i][k].(count := f.count)
    ensures TableOk(chains[i := chains[i][k := f]], tls, nextAddr)
  {
    var cs := chains[i := chains[i][k := f]];
    forall t | t in tls
      ensures HasEntry(cs[t % |cs|], t)
    {
      assert HasEntry(chains[t % |chains|], t);
      var l :| 0 <= l < |chains[t % |chains|]| && chains[t % |chains|][l].thread == t;
      assert cs[t % |cs|][l].thread == t;
    }
    forall n, l | 0 <= n < |cs| && 0 <= l < |cs[n]|
      ensures EntryOk(cs, tls, n, cs[n][l])
    {
      assert EntryOk(chains, tls, n, chains[n][l]);
    }
    assert OneEach(chains[i]);
  }

  lemma CountsNext(chains: seq<seq<Entry>>, idCount: nat, i: nat, k: nat)
    requires CountOk(chains, idCount, Growing(i, k)) && i < |chains| && k < |chains[i]|
    ensures CountOk(chains[i := chains[i][k := chains[i][k].(count := idCount)]], idCount, Growing(i, k + 1))
  {
  }

  /** Entries of different places have different addresses. */
  lemma DifferentAddr(chains: seq<seq<Entry>>, tls: map<Thread, nat>, nextAddr: nat, n: nat, k: nat, m: nat, l: nat)
    requires TableOk(chains, tls, nextAddr) && n < |chains| && k < |chains[n]| && m < |chains| && l < |chains[m]| && (n != m || k != l)
    ensures chains[n][k].addr != chains[m][l].addr && chains[n][k].thread != chains[m][l].thread
  {
    var e, f := chains[n][k], chains[m][l];
    assert EntryOk(chains, tls, n, e) && EntryOk(chains, tls, m, f);
    assert OneEach(chains[n]);
  }

  lemma BuiltNext(chains: seq<seq<Entry>>, tls: map<Thread, nat>, built: seq<(nat, nat)>, nextAddr: nat, i: nat, k: nat)
    requires TableOk(chains, tls, nextAddr) && BuiltOk(chains, built, nextAddr, Growing(i, k)) && i < |chains| && k < |chains[i]|
    ensures var e := chains[i][k];
      BuiltOk(chains[i := chains[i][k := e.(count := e.count + 1)]], built + [(e.addr, e.count)], nextAddr, Growing(i, k + 1))
  {
    var e := chains[i][k];
    var cs := chains[i := chains[i][k := e.(count := e.count + 1)]];
    assert EntryBuilt(built, e, Growing(i, k));
    assert EntryOk(chains, tls, i, e);
    assert (e.addr, e.count) !in built;
    forall n, l | 0 <= n < |cs| && 0 <= l < |cs[n]|
      ensures EntryBuilt(built + [(e.addr, e.count)], cs[n][l], Growing(i, k + 1))
    {
      assert EntryBuilt(built, chains[n][l], Growing(i, k));
      if n != i || l != k {
        DifferentAddr(chains, tls, nextAddr, n, l, i, k);
      }
    }
  }

  // Lookup

  lemma LockLeft(s: State, r: State, t: Thread)
    requires LockOk(s) && s.HeldBy(t) && r.mutex == map[] && !r.Pc(t).Holds() && forall u :: u != t ==> r.Pc(u) == s.Pc(u)
    ensures LockOk(r) && r.Free()
  {
    forall u
      ensures r.Pc(u).Holds() <==> r.HeldBy(u)
    {
      assert s.Pc(u).Holds() <==> s.HeldBy(u);
    }
  }

  lemma LockKept(s: State, r: State, t: Thread)
    requires LockOk(s) && s.HeldBy(t) && r.mutex == s.mutex && r.Pc(t).Holds() && forall u :: u != t ==> r.Pc(u) == s.Pc(u)
    ensures LockOk(r) && r.HeldBy(t)
  {
    forall u
      ensures r.Pc(u).Holds() <==> r.HeldBy(u)
    {
      assert s.Pc(u).Holds() <==> s.HeldBy(u);
    }
  }

  /** A thread that passed every entry of its chain has none. */
  lemma NotThere(chains: seq<seq<Entry>>, tls: map<Thread, nat>, nextAddr: nat, t: Thread)
    requires TableOk(chains, tls, nextAddr) && Passed(chains[t % |chains|], t, |chains[t % |chains|]|)
    ensures t !in tls
  {
    assert t in tls ==> HasEntry(chains[t % |chains|], t);
  }

  lemma TableAppend(chains: seq<seq<Entry>>, tls: map<Thread, nat>, nextAddr: nat, t: Thread, count: nat)
    requires TableOk(chains, tls, nextAddr) && t !in tls
    ensures var n := t % |chains|;
      TableOk(chains[n := chains[n] + [Entry(nextAddr, t, count)]], tls[t := nextAddr], nextAddr + 1)
  {
    var n := t % |chains|;
    var e := Entry(nextAddr, t, count);
    var cs, ts := chains[n := chains[n] + [e]], tls[t := nextAddr];
    forall m, k | 0 <= m < |cs| && 0 <= k < |cs[m]|
      ensures EntryOk(cs, ts, m, cs[m][k])
    {
      assert m != n || k < |chains[n]| ==> EntryOk(chains, tls, m, chains[m][k]);
    }
    assert OneEach(cs[n]) by {
      assert OneEach(chains[n]);
      assert forall k :: 0 <= k < |chains[n]| ==> EntryOk(chains, tls, n, chains[n][k]);
    }
    forall u | u in ts
      ensures HasEntry(cs[u % |cs|], u) && ts[u] < nextAddr + 1
    {
      if u == t {
        assert cs[n][|chains[n]|].thread == t;
      } else {
        assert HasEntry(chains[u % |chains|], u);
        var k :| 0 <= k < |chains[u % |chains|]| && chains[u % |chains|][k].thread == u;
        assert cs[u % |cs|][k].thread == u;
      }
    }
  }

  lemma BuiltAppend(chains: seq<seq<Entry>>, tls: map<Thread, nat>, built: seq<(nat, nat)>, nextAddr: nat, t: Thread, count: nat)
    requires TableOk(chains, tls, nextAddr) && BuiltOk(chains, built, nextAddr, Resting) && t !in tls
    ensures var n := t % |chains|;
      BuiltOk(chains[n := chains[n] + [Entry(nextAddr, t, count)]], built, nextAddr + 1, Building(t, 0))
  {
    var n := t % |chains|;
    var cs := chains[n := chains[n] + [Entry(nextAddr, t, count)]];
    forall m, k | 0 <= m < |cs| && 0 <= k < |cs[m]|
      ensures EntryBuilt(built, cs[m][k], Building(t, 0))
    {
      if m != n || k < |chains[n]| {
        assert EntryOk(chains, tls, m, chains[m][k]);
        assert EntryBuilt(built, chains[m][k], Resting);
      }
    }
  }

  lemma WalkInv(s: State, t: Thread)
    requires Inv(s) && s.Pc(t).LookWalk?
    ensures |s.chains| > 0 && Inv(Walk(s, t, s.Pc(t).id, s.Pc(t).again, s.Pc(t).k))
  {
    hide TableOk, CountOk, BuiltOk, DestroyedOk, Inv, LockOk;
    Parts(s);
    LockIs(s);
    Holder(s, t);
    assert ThreadOk(s, t);
    var k := s.Pc(t).k;
    var r := Walk(s, t, s.Pc(t).id, s.Pc(t).again, k);
    assert forall u :: u != t ==> r.Pc(u) == s.Pc(u);
    if k >= |s.Chain(t)| {
      NotThere(s.chains, s.tls, s.nextAddr, t);
      Alone(s, t);
      LockKept(s, r, t);
      TableAppend(s.chains, s.tls, s.nextAddr, t, s.idCount);
      BuiltAppend(s.chains, s.tls, s.built, s.nextAddr, t, s.idCount);
      CountAppend(s.chains, s.idCount, t % |s.chains|, Entry(s.nextAddr, t, s.idCount));
      DestroyedFresh(s.destroyed, s.built, s.tls, s.nextAddr, t, s.chains);
      OthersOk(s, r, t);
      Assemble(r);
    } else if s.Chain(t)[k].thread == t {
      LockLeft(s, r, t);
      EntryAt(s.chains, s.tls, s.nextAddr, t % |s.chains|, k);
      MoveKeeps(s, r, t);
    } else {
      LockKept(s, r, t);
      MoveKeeps(s, r, t);
    }
  }

  lemma EntryAt(chains: seq<seq<Entry>>, tls: map<Thread, nat>, nextAddr: nat, n: nat, k: nat)
    requires TableOk(chains, tls, nextAddr) && n < |chains| && k < |chains[n]|
    ensures EntryOk(chains, tls, n, chains[n][k])
  {
  }

  lemma Holder(s: State, t: Thread)
    requires Inv(s) && s.Pc(t).Holds()
    ensures s.HeldBy(t)
    ensures WorkOf(s) == if s.Pc(t).AllocGrow? then Growing(s.Pc(t).i, s.Pc(t).k) else if s.Pc(t).Build? then Building(t, s.Pc(t).j) else Resting
  {
    LockIs(s);
  }

  lemma CountAppend(chains: seq<seq<Entry>>, idCount: nat, n: nat, e: Entry)
    requires CountOk(chains, idCount, Resting) && n < |chains| && e.count == idCount
    ensures CountOk(chains[n := chains[n] + [e]], idCount, Building(e.thread, 0))
  {
  }

  lemma DestroyedFresh(destroyed: seq<(nat, nat)>, built: seq<(nat, nat)>, tls: map<Thread, nat>, nextAddr: nat, t: Thread,
                       chains: seq<seq<Entry>>)
    requires DestroyedOk(destroyed, built, tls) && BuiltOk(chains, built, nextAddr, Resting) && t !in tls
    ensures DestroyedOk(destroyed, built, tls[t := nextAddr])
  {
    forall p | p in destroyed
      ensures p.0 !in tls[t := nextAddr].Values
    {
      assert p in built;
    }
  }

  lemma ConstructInv(s: State, t: Thread)
    requires Inv(s) && s.Pc(t).Build?
    ensures Inv(Construct(s, t, s.Pc(t).id, s.Pc(t).j))
  {
    hide TableOk, CountOk, BuiltOk, DestroyedOk, Inv, LockOk;
    Parts(s);
    LockIs(s);
    Holder(s, t);
    assert ThreadOk(s, t);
    var j := s.Pc(t).j;
    var r := Construct(s, t, s.Pc(t).id, j);
    assert forall u :: u != t ==> r.Pc(u) == s.Pc(u);
    if j < s.idCount {
      LockKept(s, r, t);
      Alone(s, t);
      BuiltOne(s.chains, s.tls, s.built, s.nextAddr, t, j);
      CountStays(s.chains, s.idCount, Building(t, j), Building(t, j + 1));
      DestroyedStays(s.destroyed, s.built, s.tls, (s.tls[t], j));
      OthersOk(s, r, t);
      Assemble(r);
    } else {
      LockLeft(s, r, t);
      CountStays(s.chains, s.idCount, Building(t, j), Resting);
      BuiltDone(s.chains, s.built, s.nextAddr, t, s.idCount);
      WorkMoves(s, r, t);
    }
  }

  lemma CountStays(chains: seq<seq<Entry>>, idCount: nat, w: Work, v: Work)
    requires CountOk(chains, idCount, w) && !w.Growing? && !v.Growing?
    ensures CountOk(chains, idCount, v)
  {
    forall n, k | 0 <= n < |chains| && 0 <= k < |chains[n]|
      ensures chains[n][k].count + Missing(v, n, k) == idCount
    {
      assert chains[n][k].count + Missing(w, n, k) == idCount;
    }
  }

  lemma DestroyedStays(destroyed: seq<(nat, nat)>, built: seq<(nat, nat)>, tls: map<Thread, nat>, p: (nat, nat))
    requires DestroyedOk(destroyed, built, tls)
    ensures DestroyedOk(destroyed, built + [p], tls)
  {
  }

  lemma BuiltOne(chains: seq<seq<Entry>>, tls: map<Thread, nat>, built: seq<(nat, nat)>, nextAddr: nat, t: Thread, j: nat)
    requires TableOk(chains, tls, nextAddr) && BuiltOk(chains, built, nextAddr, Building(t, j)) && t in tls
    ensures BuiltOk(chains, built + [(tls[t], j)], nextAddr, Building(t, j + 1))
  {
    var n := t % |chains|;
    assert HasEntry(chains[n], t);
    var l :| 0 <= l < |chains[n]| && chains[n][l].thread == t;
    assert EntryOk(chains, tls, n, chains[n][l]);
    assert EntryBuilt(built, chains[n][l], Building(t, j));
    assert (tls[t], j) !in built;
    forall m, k | 0 <= m < |chains| && 0 <= k < |chains[m]|
      ensures EntryBuilt(built + [(tls[t], j)], chains[m][k], Building(t, j + 1))
    {
      assert EntryBuilt(built, chains[m][k], Building(t, j));
      if m != n || k != l {
        DifferentAddr(chains, tls, nextAddr, m, k, n, l);
      }
    }
  }

  /** A built entry has all it has room for. */
  lemma BuiltDone(chains: seq<seq<Entry>>, built: seq<(nat, nat)>, nextAddr: nat, t: Thread, idCount: nat)
    requires BuiltOk(chains, built, nextAddr, Building(t, idCount)) && CountOk(chains, idCount, Resting)
    ensures BuiltOk(chains, built, nextAddr, Resting)
  {
    forall n, k | 0 <= n < |chains| && 0 <= k < |chains[n]|
      ensures EntryBuilt(built, chains[n][k], Resting)
    {
      assert EntryBuilt(built, chains[n][k], Building(t, idCount));
      assert chains[n][k].count + Missing(Resting, n, k) == idCount;
    }
  }

  // Exit

  lemma ExitInv(s: State, t: Thread)
    requires Inv(s) && s.Pc(t).ExitWalk?
    ensures |s.chains| > 0 && Inv(Exit(s, t, s.Pc(t).k))
  {
    hide TableOk, CountOk, BuiltOk, DestroyedOk, Inv, LockOk;
    Parts(s);
    LockIs(s);
    Holder(s, t);
    assert ThreadOk(s, t);
    var k := s.Pc(t).k;
    var r := Exit(s, t, k);
    assert forall u :: u != t ==> r.Pc(u) == s.Pc(u);
    if k >= |s.Chain(t)| {
      LockLeft(s, r, t);
      MoveKeeps(s, r, t);
    } else if s.Chain(t)[k].thread == t {
      LockLeft(s, r, t);
      Alone(s, t);
      var n := t % |s.chains|;
      TableRemove(s.chains, s.tls, s.nextAddr, t, k);
      BuiltRemove(s.chains, s.built, s.nextAddr, n, k);
      CountRemove(s.chains, s.idCount, n, k);
      DestroyedMore(s.chains, s.destroyed, s.built, s.tls, s.nextAddr, t, k);
      OthersOk(s, r, t);
      Assemble(r);
    } else {
      LockKept(s, r, t);
      MoveKeeps(s, r, t);
    }
  }

  lemma TableRemove(chains: seq<seq<Entry>>, tls: map<Thread, nat>, nextAddr: nat, t: Thread, k: nat)
    requires TableOk(chains, tls, nextAddr) && k < |chains[t % |chains|]| && chains[t % |chains|][k].thread == t
    ensures var n := t % |chains|; TableOk(chains[n := chains[n][..k] + chains[n][k + 1..]], tls - {t}, nextAddr)
  {
    var n := t % |chains|;
    var c := chains[n][..k] + chains[n][k + 1..];
    var cs, ts := chains[n := c], tls - {t};
    assert OneEach(chains[n]);
    assert forall l :: 0 <= l < |c| ==> c[l] == chains[n][if l < k then l else l + 1];
    forall m, l | 0 <= m < |cs| && 0 <= l < |cs[m]|
      ensures EntryOk(cs, ts, m, cs[m][l])
    {
      assert EntryOk(chains, tls, m, if m == n then chains[m][if l < k then l else l + 1] else chains[m][l]);
    }
    forall u | u in ts
      ensures HasEntry(cs[u % |cs|], u)
    {
      assert HasEntry(chains[u % |chains|], u);
      var l :| 0 <= l < |chains[u % |chains|]| && chains[u % |chains|][l].thread == u;
      if u % |chains| == n {
        assert c[if l < k then l else l - 1].thread == u;
      }
    }
  }

  lemma BuiltRemove(chains: seq<seq<Entry>>, built: seq<(nat, nat)>, nextAddr: nat, n: nat, k: nat)
    requires BuiltOk(chains, built, nextAddr, Resting) && n < |chains| && k < |chains[n]|
    ensures BuiltOk(chains[n := chains[n][..k] + chains[n][k + 1..]], built, nextAddr, Resting)
  {
    var c := chains[n][..k] + chains[n][k + 1..];
    var cs := chains[n := c];
    forall m, l | 0 <= m < |cs| && 0 <= l < |cs[m]|
      ensures EntryBuilt(built, cs[m][l], Resting)
    {
      assert EntryBuilt(built, if m == n then chains[m][if l < k then l else l + 1] else chains[m][l], Resting);
    }
  }

  lemma CountRemove(chains: seq<seq<Entry>>, idCount: nat, n: nat, k: nat)
    requires CountOk(chains, idCount, Resting) && n < |chains| && k < |chains[n]|
    ensures CountOk(chains[n := chains[n][..k] + chains[n][k + 1..]], idCount, Resting)
  {
    var cs: seq<seq<Entry>> := chains[n := chains[n][..k] + chains[n][k + 1..]];
    forall m, l | 0 <= m < |cs| && 0 <= l < |cs[m]|
      ensures cs[m][l].count + Missing(Resting, m, l) == idCount
    {
      var l1 := if m == n && l >= k then l + 1 else l;
      assert chains[m][l1].count + Missing(Resting, m, l1) == idCount;
    }
  }

  lemma DestroyedMore(chains: seq<seq<Entry>>, destroyed: seq<(nat, nat)>, built: seq<(nat, nat)>, tls: map<Thread, nat>,
                      nextAddr: nat, t: Thread, k: nat)
    requires TableOk(chains, tls, nextAddr) && BuiltOk(chains, built, nextAddr, Resting) && DestroyedOk(destroyed, built, tls)
    requires k < |chains[t % |chains|]| && chains[t % |chains|][k].thread == t
    ensures var e := chains[t % |chains|][k]; DestroyedOk(destroyed + Pairs(e.addr, e.count), built, tls - {t})
  {
    var e := chains[t % |chains|][k];
    assert EntryOk(chains, tls, t % |chains|, e);
    assert EntryBuilt(built, e, Resting);
    var ps := Pairs(e.addr, e.count);
    var ts := tls - {t};
    forall p | p in ps
      ensures p !in destroyed && p in built && p.0 !in ts.Values
    {
      assert tls[t] in tls.Values;
    }
    forall p | p in destroyed
      ensures p.0 !in ts.Values
    {
    }
  }

  // Every interleaving

  /** Every step that can be taken keeps the invariant. */
  lemma StepInv(s: State, x: Step)
    requires Inv(s) && Enabled(s, x)
    ensures |s.chains| > 0 && Inv(Next(s, x)) && |Next(s, x).chains| == |s.chains|
  {
    hide Inv, Enter, Acquire, Grow, Walk, Construct, Exit;
    SomeChain(s);
    SizeKept(s, x);
    match x {
      case Calls(t, c) => EnterInv(s, t, c);
      case Locks(t) => AcquireInv(s, t);
      case Goes(t) =>
        match s.Pc(t) {
          case AllocGrow(_, _) => GrowInv(s, t);
          case LookWalk(_, _, _) => WalkInv(s, t);
          case Build(_, _) => ConstructInv(s, t);
          case ExitWalk(_) => ExitInv(s, t);
          case _ => FoundInv(s, t);
        }
    }
  }

  lemma SizeKept(s: State, x: Step)
    requires |s.chains| > 0
    ensures |Next(s, x).chains| == |s.chains|
  {
  }

  /** A run: steps taken one after the other, each when it can be. */
  ghost predicate Run(states: seq<State>, steps: seq<Step>) {
    && |states| == |steps| + 1 && |states[0].chains| > 0
    && forall i :: 0 <= i < |steps| ==> Takes(states[i], steps[i], states[i + 1])
  }

  ghost predicate Takes(s: State, x: Step, r: State) { |s.chains| > 0 && Enabled(s, x) && r == Next(s, x) }

  lemma {:induction false} RunInv(states: seq<State>, steps: seq<Step>, n: nat)
    requires Run(states, steps) && Inv(states[0]) && n < |states|
    ensures Inv(states[n])
    decreases n
  {
    hide Inv, Enabled, Next;
    if n > 0 {
      RunInv(states, steps, n - 1);
      assert Takes(states[n - 1], steps[n - 1], states[n]);
      StepInv(states[n - 1], steps[n - 1]);
    }
  }

  // What becomes of resources when their thread exits

  /** Whatever has been constructed for an entry that no thread has any more has been destructed. */
  ghost predicate Departed(built: seq<(nat, nat)>, destroyed: seq<(nat, nat)>, tls: map<Thread, nat>) {
    forall p :: p in built && p.0 !in tls.Values ==> p in destroyed
  }

  lemma DepartedStep(s: State, x: Step)
    requires Inv(s) && Enabled(s, x) && Departed(s.built, s.destroyed, s.tls)
    ensures |s.chains| > 0
    ensures var r := Next(s, x); Departed(r.built, r.destroyed, r.tls)
  {
    hide Inv, CountOk, BuiltOk, DestroyedOk, LockOk, TableOk;
    Parts(s);
    LockIs(s);
    var t := x.t;
    assert ThreadOk(s, t);
    if x.Goes? && s.Pc(t).AllocGrow? {
      DepartedGrow(s, t, s.Pc(t).i, s.Pc(t).k);
    } else if x.Goes? && s.Pc(t).LookWalk? {
      DepartedWalk(s, t, s.Pc(t).id, s.Pc(t).again, s.Pc(t).k);
    } else if x.Goes? && s.Pc(t).Build? {
      assert t in s.tls ==> s.tls[t] in s.tls.Values;
    } else if x.Goes? && s.Pc(t).ExitWalk? {
      DepartedExit(s, t, s.Pc(t).k);
    }
  }

  lemma DepartedGrow(s: State, t: Thread, i: nat, k: nat)
    requires TableOk(s.chains, s.tls, s.nextAddr) && Departed(s.built, s.destroyed, s.tls)
    ensures var r := Grow(s, t, i, k); Departed(r.built, r.destroyed, r.tls)
  {
    if i < |s.chains| && k < |s.chains[i]| {
      var e := s.chains[i][k];
      EntryAt(s.chains, s.tls, s.nextAddr, i, k);
      assert e.addr in s.tls.Values;
      hide TableOk;
      var more := Pairs(e.addr, s.idCount);
      assert forall p :: p in more ==> p.0 == e.addr;
      if e.count < s.idCount {
        assert forall p :: p in more[e.count..] ==> p in more;
      }
    }
  }

  lemma DepartedWalk(s: State, t: Thread, id: nat, again: bool, k: nat)
    requires TableOk(s.chains, s.tls, s.nextAddr) && Departed(s.built, s.destroyed, s.tls)
    requires Passed(s.chains[t % |s.chains|], t, k)
    ensures var r := Walk(s, t, id, again, k); Departed(r.built, r.destroyed, r.tls)
  {
    if k >= |s.Chain(t)| {
      NotThere(s.chains, s.tls, s.nextAddr, t);
      hide TableOk;
      var ts := s.tls[t := s.nextAddr];
      forall p | p in s.built && p.0 !in ts.Values
        ensures p.0 !in s.tls.Values
      {
        StillThere(s.tls, t, s.nextAddr, p.0);
      }
    }
  }

  lemma StillThere(tls: map<Thread, nat>, t: Thread, a: nat, b: nat)
    requires t !in tls && b !in tls[t := a].Values
    ensures b !in tls.Values
  {
    var ts := tls[t := a];
    forall u | u in tls
      ensures tls[u] != b
    {
      assert ts[u] in ts.Values;
    }
  }

  lemma DepartedExit(s: State, t: Thread, k: nat)
    requires Inv(s) && s.Pc(t).ExitWalk? && Departed(s.built, s.destroyed, s.tls)
    ensures |s.chains| > 0
    ensures var r := Exit(s, t, k); Departed(r.built, r.destroyed, r.tls)
  {
    hide Inv, CountOk, DestroyedOk, LockOk;
    Parts(s);
    Holder(s, t);
    var n := t % |s.chains|;
    if k < |s.Chain(t)| && s.Chain(t)[k].thread == t {
      var e := s.chains[n][k];
      EntryAt(s.chains, s.tls, s.nextAddr, n, k);
      assert EntryBuilt(s.built, e, Resting);
      hide TableOk, BuiltOk;
      var more := Pairs(e.addr, e.count);
      forall p | p in s.built && p.0 !in (s.tls - {t}).Values
        ensures p in s.destroyed + more
      {
        if p.0 == e.addr {
          assert (e.addr, p.1) in s.built;
          assert more[p.1] == p;
        } else {
          LostOne(s.tls, t, p.0);
        }
      }
    }
  }

  lemma LostOne(tls: map<Thread, nat>, t: Thread, b: nat)
    requires t in tls && tls[t] != b && b !in (tls - {t}).Values
    ensures b !in tls.Values
  {
    var ts := tls - {t};
    forall u | u in tls
      ensures tls[u] != b
    {
      assert u != t ==> ts[u] in ts.Values;
    }
  }

  lemma {:induction false} DepartedRun(states: seq<State>, steps: seq<Step>, n: nat)
    requires Run(states, steps) && Inv(states[0]) && n < |states| && Departed(states[0].built, states[0].destroyed, states[0].tls)
    ensures Departed(states[n].built, states[n].destroyed, states[n].tls)
    decreases n
  {
    hide Inv, Enabled, Next, Departed;
    if n > 0 {
      RunInv(states, steps, n - 1);
      DepartedRun(states, steps, n - 1);
      assert Takes(states[n - 1], steps[n - 1], states[n]);
      DepartedStep(states[n - 1], steps[n - 1]);
    }
  }

  /**
   In any run from startup every resource that has been constructed, which is once, has been destructed exactly once if
   the thread it was for has exited, and not at all if that thread still has it; nothing else has been destructed.
   */
  lemma DestroyedOnce(expectedThreads: nat, states: seq<State>, steps: seq<Step>, i: nat, p: (nat, nat))
    requires expectedThreads > 0 && Run(states, steps) && states[0] == Startup(expectedThreads) && i < |states|
    ensures var s := states[i];
      && Times(s.built, p) <= 1
      && Times(s.destroyed, p) == (if p in s.built && p.0 !in s.tls.Values then 1 else 0)
  {
    hide Inv, TableOk, CountOk;
    StartupInv(expectedThreads);
    RunInv(states, steps, i);
    DepartedRun(states, steps, i);
    var s := states[i];
    Parts(s);
    OnceAtMost(s.built, p);
    OnceAtMost(s.destroyed, p);
  }

  /** A call gets its thread into the critical section as soon as it has the lock, or at once to its result. */
  lemma CallLeads(s: State, t: Thread, c: Call)
    requires Inv(s) && Enabled(s, Calls(t, c))
    ensures |s.chains| > 0 && |Next(s, Calls(t, c)).chains| > 0
    ensures var w := Next(s, Calls(t, c)); var r := Next(w, Locks(t));
      match c
      case AllocateId => Enabled(w, Locks(t)) <==> s.Free()
      case FreeThread => Enabled(w, Locks(t)) <==> s.Free()
      case Resource(id) => if t in s.tls then w.Pc(t) == Found(id, s.tls[t]) else Enabled(w, Locks(t)) <==> s.Free()
    ensures var r := Next(Next(s, Calls(t, c)), Locks(t));
      match c
      case AllocateId => r.Pc(t).AllocGrow? && r.idCount == s.idCount + 1
      case FreeThread => r.Pc(t).ExitWalk?
      case Resource(id) => t !in s.tls ==> r.Pc(t).LookWalk? && r.Pc(t).id == id
  {
  }

  /** The steps an id allocation has at most still to take over the chains from the i-th on. */
  function ToGrow(chains: seq<seq<Entry>>, i: nat): nat
    decreases |chains| - i
  {
    if i >= |chains| then 0 else |chains[i]| + 1 + ToGrow(chains, i + 1)
  }

  function ToDo(s: State, t: Thread): nat
    requires |s.chains| > 0
  {
    match s.Pc(t)
    case AllocGrow(i, k) =>
      1 + ToGrow(s.chains, i) - if i >= |s.chains| then 0 else if k <= |s.chains[i]| then k else |s.chains[i]|
    case ExitWalk(k) => if k <= |s.Chain(t)| then |s.Chain(t)| - k + 1 else 0
    case _ => 0
  }

  lemma {:induction false} ToGrowSame(a: seq<seq<Entry>>, b: seq<seq<Entry>>, i: nat)
    requires |a| == |b| && forall n :: 0 <= n < |a| ==> |a[n]| == |b[n]|
    ensures ToGrow(a, i) == ToGrow(b, i)
    decreases |a| - i
  {
    if i < |a| {
      ToGrowSame(a, b, i + 1);
    }
  }

  /**
   An id allocation and an exit end, with the lock released, whatever the other threads do; and a thread that has exited
   has no entry and no TLS any more.
   */
  lemma SectionEnds(s: State, x: Step, t: Thread)
    requires Inv(s) && Enabled(s, x) && (s.Pc(t).AllocGrow? || s.Pc(t).ExitWalk?)
    ensures |s.chains| > 0 && |Next(s, x).chains| > 0
    ensures var r := Next(s, x);
      if x.t != t then r.Pc(t) == s.Pc(t) && ToDo(r, t) == ToDo(s, t)
      else if r.Pc(t).Idle? then r.Free() && (s.Pc(t).ExitWalk? ==> t !in r.tls && Search(r.Chain(t), t) == map[])
      else (r.Pc(t).AllocGrow? <==> s.Pc(t).AllocGrow?) && (r.Pc(t).ExitWalk? <==> s.Pc(t).ExitWalk?) && ToDo(r, t) < ToDo(s, t)
  {
    hide Inv, CountOk, BuiltOk, DestroyedOk, LockOk, TableOk, ToGrow, Search;
    StepInv(s, x);
    Parts(s);
    LockIs(s);
    Holder(s, t);
    assert ThreadOk(s, t);
    if x.t != t {
      Alone(s, t);
      SectionWaits(s, x, t);
    } else if s.Pc(t).AllocGrow? {
      GrowShrinks(s, t, s.Pc(t).i, s.Pc(t).k);
    } else {
      ExitShrinks(s, t, s.Pc(t).k);
      if Next(s, x).Pc(t).Idle? {
        FastPath(Next(s, x), t);
      }
    }
  }

  /** While a thread holds the lock no other changes the chains. */
  lemma SectionWaits(s: State, x: Step, t: Thread)
    requires |s.chains| > 0 && Enabled(s, x) && x.t != t && s.HeldBy(t) && !s.Pc(x.t).Holds()
    ensures Next(s, x).chains == s.chains && Next(s, x).Pc(t) == s.Pc(t)
  {
  }

  lemma GrowShrinks(s: State, t: Thread, i: nat, k: nat)
    requires |s.chains| > 0 && s.Pc(t) == AllocGrow(i, k)
    ensures var r := Grow(s, t, i, k);
      |r.chains| > 0 && if r.Pc(t).Idle? then r.Free() else r.Pc(t).AllocGrow? && ToDo(r, t) < ToDo(s, t)
  {
    var r := Grow(s, t, i, k);
    ToGrowSame(s.chains, r.chains, i);
    assert ToGrow(s.chains, i) == if i >= |s.chains| then 0 else |s.chains[i]| + 1 + ToGrow(s.chains, i + 1);
  }

  lemma ExitShrinks(s: State, t: Thread, k: nat)
    requires Inv(s) && |s.chains| > 0 && s.Pc(t) == ExitWalk(k)
    ensures var r := Exit(s, t, k);
      |r.chains| > 0 && if r.Pc(t).Idle? then r.Free() && t !in r.tls else r.Pc(t).ExitWalk? && ToDo(r, t) < ToDo(s, t)
  {
    hide Inv, CountOk, BuiltOk, DestroyedOk, LockOk, TableOk;
    Parts(s);
    LockIs(s);
    assert ThreadOk(s, t);
    if k >= |s.Chain(t)| {
      NotThere(s.chains, s.tls, s.nextAddr, t);
    }
  }

  /** How many ids ts_allocate_id has given out in the first n steps. */
  function Allocations(states: seq<State>, steps: seq<Step>, n: nat): nat
    requires n <= |steps| < |states|
  {
    if n == 0 then 0
    else Allocations(states, steps, n - 1) + if steps[n - 1].Locks? && states[n - 1].Pc(steps[n - 1].t).AllocWait? then 1 else 0
  }

  /** Ids are given out one by one: the counter is the number of allocations that have got the lock. */
  lemma {:induction false} IdsCounted(states: seq<State>, steps: seq<Step>, n: nat)
    requires Run(states, steps) && n <= |steps|
    ensures states[n].idCount == states[0].idCount + Allocations(states, steps, n)
    decreases n
  {
    hide Enabled, Next;
    if n > 0 {
      IdsCounted(states, steps, n - 1);
      assert Takes(states[n - 1], steps[n - 1], states[n]);
      IdStep(states[n - 1], steps[n - 1]);
    }
  }

  lemma IdStep(s: State, x: Step)
    requires |s.chains| > 0 && Enabled(s, x)
    ensures Next(s, x).idCount == s.idCount + if x.Locks? && s.Pc(x.t).AllocWait? then 1 else 0
  {
  }

  /** How often a constructor has been called. */
  function Times(ps: seq<(nat, nat)>, p: (nat, nat)): nat { multiset(ps)[p] }

  lemma {:induction false} OnceAtMost(ps: seq<(nat, nat)>, p: (nat, nat))
    requires NoDup(ps)
    ensures Times(ps, p) == if p in ps then 1 else 0
  {
    if ps != [] {
      var init, last := ps[..|ps| - 1], ps[|ps| - 1];
      assert ps == init + [last];
      OnceAtMost(init, p);
      assert last !in init;
    }
  }

  /**
   Whenever the mutex is free, in any run from startup: every thread with an entry has it in its own chain and has no
   other, the entry covers every id allocated so far, and each of its resources has been constructed exactly once and
   not destroyed.
   */
  lemma AtRelease(expectedThreads: nat, states: seq<State>, steps: seq<Step>, i: nat, n: nat, k: nat, id: nat)
    requires expectedThreads > 0 && Run(states, steps) && states[0] == Startup(expectedThreads) && i < |states|
    requires states[i].Free() && n < |states[i].chains| && k < |states[i].chains[n]|
    ensures var s := states[i]; var e := s.chains[n][k];
      && e.thread % |s.chains| == n && e.count == s.idCount
      && (forall m, l :: 0 <= m < |s.chains| && 0 <= l < |s.chains[m]| && (m != n || l != k) ==> s.chains[m][l].thread != e.thread)
      && Times(s.built, (e.addr, id)) == (if id < s.idCount then 1 else 0)
      && (e.addr, id) !in s.destroyed
  {
    hide Inv, TableOk, DestroyedOk, CountOk, BuiltOk;
    StartupInv(expectedThreads);
    RunInv(states, steps, i);
    var s := states[i];
    Parts(s);
    var e := s.chains[n][k];
    EntryAt(s.chains, s.tls, s.nextAddr, n, k);
    EntryComplete(s.chains, s.idCount, s.built, s.nextAddr, n, k);
    OnceAtMost(s.built, (e.addr, id));
    LiveKept(s.destroyed, s.built, s.tls, e.thread, id);
    forall m, l | 0 <= m < |s.chains| && 0 <= l < |s.chains[m]| && (m != n || l != k)
      ensures s.chains[m][l].thread != e.thread
    {
      DifferentAddr(s.chains, s.tls, s.nextAddr, n, k, m, l);
    }
  }

  lemma EntryComplete(chains: seq<seq<Entry>>, idCount: nat, built: seq<(nat, nat)>, nextAddr: nat, n: nat, k: nat)
    requires CountOk(chains, idCount, Resting) && BuiltOk(chains, built, nextAddr, Resting) && n < |chains| && k < |chains[n]|
    ensures chains[n][k].count == idCount && NoDup(built)
    ensures forall i: nat :: (chains[n][k].addr, i) in built <==> i < idCount
  {
    assert chains[n][k].count + Missing(Resting, n, k) == idCount;
    assert EntryBuilt(built, chains[n][k], Resting);
  }

  lemma LiveKept(destroyed: seq<(nat, nat)>, built: seq<(nat, nat)>, tls: map<Thread, nat>, t: Thread, id: nat)
    requires DestroyedOk(destroyed, built, tls) && t in tls
    ensures (tls[t], id) !in destroyed
  {
    assert tls[t] in tls.Values;
  }

  /** What the search along the chain yields. */
  function Search(c: seq<Entry>, t: Thread): (r: map<(), nat>) {
    if c == [] then map[] else if c[0].thread == t then map[() := c[0].addr] else Search(c[1..], t)
  }

  lemma {:induction false} SearchFinds(c: seq<Entry>, t: Thread, k: nat)
    requires OneEach(c) && k < |c| && c[k].thread == t
    ensures Search(c, t) == map[() := c[k].addr]
    decreases |c|
  {
    if k > 0 {
      assert c[0].thread != c[k].thread;
      assert OneEach(c[1..]);
      SearchFinds(c[1..], t, k - 1);
    }
  }

  lemma {:induction false} SearchFails(c: seq<Entry>, t: Thread)
    requires !HasEntry(c, t)
    ensures Search(c, t) == map[]
    decreases |c|
  {
    if c != [] {
      assert c[0].thread != t;
      assert forall k :: 0 <= k < |c[1..]| ==> c[1..][k] == c[k + 1];
      SearchFails(c[1..], t);
    }
  }

  /** In every reachable state the fast path through the TLS yields exactly what the search along the chain would. */
  lemma FastPath(s: State, t: Thread)
    requires Inv(s)
    ensures |s.chains| > 0 && Search(s.Chain(t), t) == if t in s.tls then map[() := s.tls[t]] else map[]
    ensures s.Pc(t).Found? ==> Search(s.Chain(t), t) == map[() := s.Pc(t).addr]
  {
    var n := t % |s.chains|;
    var c := s.chains[n];
    assert OneEach(c);
    assert ThreadOk(s, t);
    if t in s.tls {
      assert HasEntry(c, t);
      var k :| 0 <= k < |c| && c[k].thread == t;
      assert EntryOk(s.chains, s.tls, n, c[k]);
      SearchFinds(c, t, k);
    } else {
      assert forall k :: 0 <= k < |c| ==> EntryOk(s.chains, s.tls, n, c[k]);
      SearchFails(c, t);
    }
  }

  /** How far a lookup is from its result: first the phases it has to go through, then the steps within one. */
  function Phase(pc: Pc): nat {
    match pc
    case LookWait(_, again) => if again then 2 else 5
    case LookWalk(_, again, _) => if again then 1 else 4
    case Build(_, _) => 3
    case _ => 0
  }

  function StepsLeft(s: State, t: Thread): nat
    requires |s.chains| > 0
  {
    match s.Pc(t)
    case LookWalk(_, _, k) => if k <= |s.Chain(t)| then |s.Chain(t)| - k + 1 else 0
    case Build(_, j) => if j <= s.idCount then s.idCount - j + 1 else 0
    case _ => 0
  }

  predicate LooksUp(pc: Pc) { pc.LookWait? || pc.LookWalk? || pc.Build? }

  /**
   The recursion of a lookup ends, with the lock released: each step of the thread itself brings it closer to a result,
   what other threads do in between does not take it further away, and at the result it does not hold the lock.
   */
  lemma LookupEnds(s: State, x: Step, t: Thread)
    requires Inv(s) && Enabled(s, x) && LooksUp(s.Pc(t))
    ensures |s.chains| > 0 && |Next(s, x).chains| > 0
    ensures var r := Next(s, x);
      if x.t == t then
        if LooksUp(r.Pc(t)) then
          Phase(r.Pc(t)) < Phase(s.Pc(t)) || (Phase(r.Pc(t)) == Phase(s.Pc(t)) && StepsLeft(r, t) < StepsLeft(s, t))
        else r.Pc(t).Found? && r.Free()
      else r.Pc(t) == s.Pc(t) && StepsLeft(r, t) == StepsLeft(s, t)
  {
    SomeChain(s);
    SizeKept(s, x);
    LockIs(s);
    assert ThreadOk(s, t);
    if x.t == t {
      OwnStep(s, x, t);
    } else {
      OtherStep(s, x, t);
    }
  }

  lemma OwnStep(s: State, x: Step, t: Thread)
    requires Inv(s) && Enabled(s, x) && LooksUp(s.Pc(t)) && x.t == t && |s.chains| > 0
    ensures |Next(s, x).chains| > 0
    ensures var r := Next(s, x);
      if LooksUp(r.Pc(t)) then
        Phase(r.Pc(t)) < Phase(s.Pc(t)) || (Phase(r.Pc(t)) == Phase(s.Pc(t)) && StepsLeft(r, t) < StepsLeft(s, t))
      else r.Pc(t).Found? && r.Free()
  {
    hide CountOk, BuiltOk, DestroyedOk, Inv, LockOk;
    Parts(s);
    LockIs(s);
    assert ThreadOk(s, t);
    if s.Pc(t).LookWalk? && s.Pc(t).k >= |s.Chain(t)| {
      NotThere(s.chains, s.tls, s.nextAddr, t);
    }
  }

  lemma OtherStep(s: State, x: Step, t: Thread)
    requires Inv(s) && Enabled(s, x) && LooksUp(s.Pc(t)) && x.t != t && |s.chains| > 0
    ensures |Next(s, x).chains| > 0 && Next(s, x).Pc(t) == s.Pc(t) && StepsLeft(Next(s, x), t) == StepsLeft(s, t)
  {
    hide TableOk, CountOk, BuiltOk, DestroyedOk, Inv, LockOk;
    SizeKept(s, x);
    LockIs(s);
    if s.Pc(t).Holds() {
      Holder(s, t);
      Alone(s, t);
    }
  }

  // A lookup from beginning to end

  /** How many of the steps are the thread's own. */
  function OwnSteps(steps: seq<Step>, t: Thread): nat {
    if steps == [] then 0 else OwnSteps(steps[..|steps| - 1], t) + if steps[|steps| - 1].t == t then 1 else 0
  }

  /** How often the lookup starts over. */
  function Restarts(states: seq<State>, t: Thread): nat {
    if |states| < 2 then 0
    else
      var n := |states| - 1;
      Restarts(states[..n], t) + if states[n - 1].Pc(t).Build? && states[n].Pc(t).LookWait? then 1 else 0
  }

  /** The way to the result, if neither the chain nor the number of ids exceeds n. */
  function Distance(s: State, t: Thread, n: nat): nat
    requires |s.chains| > 0
  {
    Phase(s.Pc(t)) * (n + 2) + StepsLeft(s, t)
  }

  /** From state a to state b the thread is looking up all the time, the chain and the ids staying within n. */
  ghost predicate Looking(states: seq<State>, a: nat, b: nat, t: Thread, n: nat) {
    a <= b < |states| && forall i :: a <= i <= b ==> Bounded(states[i], t, n) && LooksUp(states[i].Pc(t))
  }

  ghost predicate Bounded(s: State, t: Thread, n: nat) { |s.chains| > 0 && |s.Chain(t)| <= n && s.idCount <= n }

  lemma DistanceFalls(s: State, x: Step, t: Thread, n: nat)
    requires Inv(s) && Enabled(s, x) && LooksUp(s.Pc(t)) && Bounded(s, t, n) && Bounded(Next(s, x), t, n) && LooksUp(Next(s, x).Pc(t))
    ensures Distance(Next(s, x), t, n) + (if x.t == t then 1 else 0) <= Distance(s, t, n)
    ensures Phase(Next(s, x).Pc(t)) <= Phase(s.Pc(t))
  {
    hide Inv, Enabled, Next;
    LookupEnds(s, x, t);
    var r := Next(s, x);
    if Phase(r.Pc(t)) < Phase(s.Pc(t)) {
      Lower(Phase(r.Pc(t)), Phase(s.Pc(t)), n + 2);
    }
  }

  lemma {:induction false} Lower(a: nat, b: nat, n: nat)
    requires a < b
    ensures a * n + n <= b * n
  {
    assert b * n == (b - 1) * n + n;
    if a + 1 < b {
      Lower(a, b - 1, n);
    }
  }

  /** While it is looking up, a thread can take only so many steps, and starts over at most once. */
  lemma {:induction false} LookupBounded(states: seq<State>, steps: seq<Step>, a: nat, b: nat, t: Thread, n: nat)
    requires Run(states, steps) && Inv(states[0]) && Looking(states, a, b, t, n)
    ensures OwnSteps(steps[a..b], t) + Distance(states[b], t, n) <= Distance(states[a], t, n)
    ensures Phase(states[b].Pc(t)) <= Phase(states[a].Pc(t))
    ensures Restarts(states[a..b + 1], t) + (if Phase(states[b].Pc(t)) >= 3 then 1 else 0) <= 1
    decreases b
  {
    hide Inv, Enabled, Next, Distance;
    if a < b {
      LookupBounded(states, steps, a, b - 1, t, n);
      RunInv(states, steps, b - 1);
      assert Takes(states[b - 1], steps[b - 1], states[b]);
      DistanceFalls(states[b - 1], steps[b - 1], t, n);
      assert steps[a..b][..b - 1 - a] == steps[a..b - 1];
      assert states[a..b + 1][..b - a] == states[a..b];
    }
  }

  /**
   A lookup that is given enough steps of its own returns: at the latest after 6 * (n + 2) of them it has been at its
   result, not holding the mutex, and has started over at most once - whatever the other threads do in between.
   */
  lemma LookupReturns(states: seq<State>, steps: seq<Step>, a: nat, b: nat, t: Thread, n: nat)
    requires Run(states, steps) && Inv(states[0]) && a <= b < |states| && LooksUp(states[a].Pc(t))
    requires (forall i :: a <= i <= b ==> Bounded(states[i], t, n)) && OwnSteps(steps[a..b], t) > 6 * (n + 2)
    ensures exists c :: a < c <= b && Returned(states, a, c, t)
  {
    hide Inv, Enabled, Next, Restarts;
    if forall i :: a <= i <= b ==> LooksUp(states[i].Pc(t)) {
      LookupBounded(states, steps, a, b, t, n);
      FarAtMost(states[a], t, n);
    }
    var c := FirstNot(states, a, b, t);
    LookupBounded(states, steps, a, c - 1, t, n);
    RunInv(states, steps, c - 1);
    assert Takes(states[c - 1], steps[c - 1], states[c]);
    LookupEnds(states[c - 1], steps[c - 1], t);
    assert Returned(states, a, c, t);
  }

  lemma FarAtMost(s: State, t: Thread, n: nat)
    requires Bounded(s, t, n)
    ensures Distance(s, t, n) <= 6 * (n + 2)
  {
    assert Phase(s.Pc(t)) * (n + 2) <= 5 * (n + 2);
  }

  /** From state a the lookup has gone on to its result in state c, where it does not hold the mutex. */
  ghost predicate Returned(states: seq<State>, a: nat, c: nat, t: Thread) {
    && a < c < |states| && (forall i :: a <= i < c ==> LooksUp(states[i].Pc(t)))
    && states[c].Pc(t).Found? && states[c].Free() && Restarts(states[a..c], t) <= 1
  }

  lemma FirstNot(states: seq<State>, a: nat, b: nat, t: Thread) returns (c: nat)
    requires a <= b < |states| && LooksUp(states[a].Pc(t)) && exists i :: a <= i <= b && !LooksUp(states[i].Pc(t))
    ensures a < c <= b && !LooksUp(states[c].Pc(t)) && forall i :: a <= i < c ==> LooksUp(states[i].Pc(t))
  {
    c := a + 1;
    while LooksUp(states[c].Pc(t))
      invariant a < c <= b && forall i :: a <= i < c ==> LooksUp(states[i].Pc(t))
      decreases b - c
    {
      c := c + 1;
    }
  }
}
