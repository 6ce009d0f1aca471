/** What each operation of the request allocator keeps, and what every run of them means to the program. */
module ArenaSafety {
  import opened Buckets
  import opened Arenas

  // Sizes

  /** The size field and the rounded size agree on the request. */
  predicate Plain(size: nat) { size % UINT < SIZE_FIELD }

  lemma RealSizeOfField(size: nat)
    ensures RealSize(size % SIZE_FIELD) == RealSize(size) <==> Plain(size)
    ensures Plain(size) && size < UINT ==> size % SIZE_FIELD == size
  {
    var k, r := size / SIZE_FIELD, size % SIZE_FIELD;
    var q, j := k / 4, k % 4;
    assert size == q * UINT + (j * SIZE_FIELD + r);
    RoundsUp(q * (UINT / 8) + j * (SIZE_FIELD / 8), r);
    var up := (r + 7) / 8 * 8;
    assert (size + 7) / 8 * 8 == q * UINT + (j * SIZE_FIELD + up);
    ModOf(q, j * SIZE_FIELD + r);
    ModOf(q, j * SIZE_FIELD + up);
    assert r <= up <= SIZE_FIELD;
    assert RealSize(r) == up && RealSize(size) == (j * SIZE_FIELD + up) % UINT && size % UINT == j * SIZE_FIELD + r;
  }

  /** Multiples of eight stay out of the rounding. */
  lemma RoundsUp(m: nat, r: nat)
    ensures (8 * m + r + 7) / 8 * 8 == 8 * m + (r + 7) / 8 * 8
  {
  }

  lemma ModOf(k: nat, n: nat)
    ensures (k * UINT + n) % UINT == n % UINT
  {
  }

  /** The rounding that decides how long a block is covers the request exactly when it does not wrap around. */
  lemma RealSizeCovers(size: nat)
    ensures size <= RealSize(size) <==> size <= UINT - 8
    ensures RealSize(size) % 8 == 0 && RealSize(size) < UINT
    ensures size <= UINT - 8 ==> RealSize(size) < size + 8
  {
  }

  // Lists and their totals

  lemma {:induction false} LessHas(s: seq<Ptr>, p: Ptr)
    requires Distinct(s)
    ensures Distinct(Less(s, p)) && p !in Less(s, p)
    ensures forall q :: q in Less(s, p) <==> q in s && q != p
  {
    if s != [] {
      var rest := s[1..];
      assert s == [s[0]] + rest && s[0] !in rest && Distinct(rest);
      if s[0] != p {
        LessHas(rest, p);
      }
    }
  }

  lemma {:induction false} TotalFrame(m: Blocks, r: Blocks, s: seq<Ptr>)
    requires forall p :: p in s ==> p in m && p in r && RealSize(r[p].size) == RealSize(m[p].size)
    ensures Total(r, s) == Total(m, s)
  {
    if s != [] {
      TotalFrame(m, r, s[1..]);
    }
  }

  lemma {:induction false} TotalLess(m: Blocks, s: seq<Ptr>, p: Ptr)
    requires p in s && forall q :: q in s ==> q in m
    ensures forall q :: q in Less(s, p) ==> q in s
    ensures Total(m, s) == RealSize(m[p].size) + Total(m, Less(s, p))
  {
    if s[0] != p {
      TotalLess(m, s[1..], p);
      assert Less(s, p)[1..] == Less(s[1..], p);
    }
  }

  /** Changing one block of a list. */
  lemma TotalSet(m: Blocks, s: seq<Ptr>, p: Ptr, info: Info)
    requires Distinct(s) && p in s && forall q :: q in s ==> q in m
    ensures Total(m[p := info], s) - RealSize(info.size) == Total(m, s) - RealSize(m[p].size)
  {
    hide RealSize, Less, Distinct;
    LessHas(s, p);
    TotalLess(m, s, p);
    TotalLess(m[p := info], s, p);
    TotalFrame(m, m[p := info], Less(s, p));
  }

  lemma TotalFront(m: Blocks, s: seq<Ptr>, p: Ptr)
    requires p in m && forall q :: q in s ==> q in m
    ensures forall q :: q in [p] + s ==> q in m
    ensures Total(m, [p] + s) == RealSize(m[p].size) + Total(m, s)
  {
    assert ([p] + s)[1..] == s;
  }

  /** The account when given bytes leave it and others enter, while the lists gain what the size field says. */
  lemma NewAccount(a: Arena, b: Arena, out: nat, into: nat, field: nat)
    requires ListsOk(a) && ListsOk(b) && Accounted(a) && into < UINT && field < UINT
    requires b.used == (a.used + into - out) % UINT
    requires Total(b.blocks, b.list) + Total(b.blocks, b.plist) == Total(a.blocks, a.list) + Total(a.blocks, a.plist) - out + field
    ensures Accounted(b) <==> into == field
  {
    hide Total, RealSize, Distinct;
    var t := Total(a.blocks, a.list) + Total(a.blocks, a.plist) - out;
    Exchanged(t, out, into, field);
  }

  lemma Exchanged(t: int, n: nat, m: nat, k: nat)
    requires t + n >= 0 && t + k >= 0 && m < UINT && k < UINT
    ensures ((t + n) % UINT + m - n) % UINT == (t + k) % UINT <==> m == k
  {
  }

  lemma UsedIs(a: Arena)
    requires ListsOk(a) && Accounted(a)
    ensures a.used % UINT == a.used
  {
  }

  // _emalloc

  /** What malloc is asked for, if it is asked at all. */
  ghost predicate MallocFits(a: Arena, size: nat, at: Ptr) { !Hit(a, size) ==> Fits(a, at, RealSize(size), NULL) }

  lemma HitIs(a: Arena, size: nat)
    requires Inv(a) && Hit(a, size)
    ensures var i := CacheIndex(size); var row := a.rows[i]; var p := row[|row| - 1];
      InClass(a.blocks, i, p) && p in a.list && p !in a.plist && p !in row[..|row| - 1] && p != NULL
  {
    var i := CacheIndex(size);
    var row := a.rows[i];
    assert InClass(a.blocks, i, row[|row| - 1]);
  }

  lemma EmallocHitKeeps(a: Arena, size: nat, at: Ptr)
    requires Inv(a) && Hit(a, size)
    ensures Inv(Emalloc(a, size, at).0)
  {
    hide RealSize, CacheOk, ListsOk, DisjointOk;
    HitIs(a, size);
    var b := Emalloc(a, size, at).0;
    HitCache(a, size);
    DisjointFrame(a, b);
    HitLists(a, size, at);
  }

  lemma HitLists(a: Arena, size: nat, at: Ptr)
    requires Inv(a) && Hit(a, size)
    ensures ListsOk(Emalloc(a, size, at).0)
  {
    hide RealSize, CacheOk, ListsOk, DisjointOk;
    HitIs(a, size);
    ListsFrame(a, Emalloc(a, size, at).0);
  }

  /** Without its last element, a row holds the cached blocks of its class but one. */
  lemma HitCache(a: Arena, size: nat)
    requires Inv(a) && Hit(a, size)
    ensures var b := Emalloc(a, size, NULL).0; CacheOk(b.blocks, b.rows)
  {
    hide RealSize, DisjointOk, ListsOk;
    HitIs(a, size);
    var i := CacheIndex(size);
    var row := a.rows[i];
    var p := row[|row| - 1];
    var b := Emalloc(a, size, NULL).0;
    forall k, q | 0 <= k < |b.rows| && q in b.rows[k]
      ensures InClass(b.blocks, k, q)
    {
      assert q in a.rows[k] && InClass(a.blocks, k, q);
      assert q != p;
    }
    forall q | q in b.blocks && b.blocks[q].cached
      ensures InRow(b.blocks, b.rows, q)
    {
      assert InRow(a.blocks, a.rows, q);
      if q in row {
        InRowPopped(row, q);
      }
    }
    forall k | 0 <= k < |b.rows|
      ensures |b.rows[k]| <= MAX_CACHED_ENTRIES && Distinct(b.rows[k])
    {
      assert |a.rows[k]| <= MAX_CACHED_ENTRIES && Distinct(a.rows[k]);
    }
  }

  lemma InRowPopped(row: seq<Ptr>, q: Ptr)
    requires row != [] && q in row && q != row[|row| - 1]
    ensures q in row[..|row| - 1]
  {
  }

  lemma EmallocNewKeeps(a: Arena, size: nat, at: Ptr)
    requires Inv(a) && !Hit(a, size) && at != NULL && Fits(a, at, RealSize(size), NULL)
    ensures at !in a.blocks && at !in a.list && at !in a.plist
    ensures Inv(Emalloc(a, size, at).0)
  {
    hide RealSize, CacheOk, DisjointOk;
    NewDisjoint(a, size, at);
    assert at !in a.blocks;
    CacheFrame(a.blocks, Emalloc(a, size, at).0.blocks, a.rows);
  }

  lemma NewDisjoint(a: Arena, size: nat, at: Ptr)
    requires Inv(a) && !Hit(a, size) && at != NULL && Fits(a, at, RealSize(size), NULL)
    ensures at !in a.blocks
    ensures var b := Emalloc(a, size, at).0; DisjointOk(b.blocks, b.extent)
  {
    hide RealSize, CacheOk, Distinct;
    assert at !in a.extent;
  }

  /** The lists depend on no more than the flags. */
  lemma ListsFrame(a: Arena, b: Arena)
    requires ListsOk(a) && b.list == a.list && b.plist == a.plist && b.blocks.Keys == a.blocks.Keys
    requires forall p :: p in a.blocks ==> b.blocks[p].persistent == a.blocks[p].persistent
    ensures ListsOk(b)
  {
  }

  lemma DisjointFrame(a: Arena, b: Arena)
    requires DisjointOk(a.blocks, a.extent) && b.extent == a.extent && b.blocks.Keys == a.blocks.Keys
    ensures DisjointOk(b.blocks, b.extent)
  {
  }

  /** The cache does not depend on blocks that are not cached. */
  lemma CacheFrame(m: Blocks, r: Blocks, rows: seq<seq<Ptr>>)
    requires CacheOk(m, rows)
    requires forall p :: p in m && m[p].cached ==> p in r && r[p] == m[p]
    requires forall p :: p in r && r[p].cached ==> p in m && r[p] == m[p]
    ensures CacheOk(r, rows)
  {
    forall k, q | 0 <= k < |rows| && q in rows[k]
      ensures InClass(r, k, q)
    {
      assert InClass(m, k, q);
    }
    forall q | q in r && r[q].cached
      ensures InRow(r, rows, q)
    {
      assert InRow(m, rows, q);
    }
  }

  lemma EmallocKeeps(a: Arena, size: nat, at: Ptr)
    requires Inv(a) && MallocFits(a, size, at)
    ensures Inv(Emalloc(a, size, at).0)
  {
    if Hit(a, size) {
      EmallocHitKeeps(a, size, at);
    } else if at != NULL {
      EmallocNewKeeps(a, size, at);
    }
  }

  /**
   The block handed out is none that the program holds, and has no byte in common with any of them. It is as long as
   was asked for unless the rounding wrapped around.
   */
  lemma EmallocServes(a: Arena, size: nat, at: Ptr)
    requires Inv(a) && Sized(a) && MallocFits(a, size, at)
    ensures var (b, p) := Emalloc(a, size, at);
      (p == NULL <==> !Hit(a, size) && at == NULL) &&
      (p == NULL ==> b == a) &&
      (p != NULL ==>
        && p in b.extent && p !in Held(a) && Held(b) == Held(a)[p := size % SIZE_FIELD]
        && (size <= b.extent[p] <==> size <= UINT - 8)
        && forall q :: q in Held(a) ==> q in a.extent && Apart(p, b.extent[p], q, a.extent[q]))
  {
    hide RealSize, CacheOk, ListsOk, Emalloc;
    RealSizeCovers(size);
    if Hit(a, size) || at != NULL {
      EmallocIs(a, size, at);
      HeldSet(a, Emalloc(a, size, at).0, Emalloc(a, size, at).1, size % SIZE_FIELD);
    } else {
      EmallocNone(a, size);
    }
  }

  lemma HeldSet(a: Arena, b: Arena, p: Ptr, size: nat)
    requires b.blocks == a.blocks[p := Info(size, false, false)]
    ensures Held(b) == Held(a)[p := size]
  {
    assert forall q :: q != p ==> (q in Held(b) <==> q in Held(a)) && (q in Held(a) ==> Held(b)[q] == Held(a)[q]);
  }

  lemma EmallocNone(a: Arena, size: nat)
    requires !Hit(a, size)
    ensures Emalloc(a, size, NULL) == (a, NULL)
  {
  }

  lemma EmallocIs(a: Arena, size: nat, at: Ptr)
    requires Inv(a) && Sized(a) && MallocFits(a, size, at)
    requires Hit(a, size) || at != NULL
    ensures var (b, p) := Emalloc(a, size, at);
      && p != NULL && (p !in a.blocks || a.blocks[p].cached)
      && b.blocks == a.blocks[p := Info(size % SIZE_FIELD, false, false)] && b.extent == a.extent[p := RealSize(size)]
      && forall q :: q in a.extent && q != p ==> Apart(p, RealSize(size), q, a.extent[q])
  {
    hide RealSize, CacheOk;
    var p := Emalloc(a, size, at).1;
    if Hit(a, size) {
      HitIs(a, size);
      SameClass(a.blocks[p].size, size);
      assert a.extent == a.extent[p := RealSize(size)];
    } else {
      assert at !in a.extent && at != NULL;
    }
  }

  /** Sizes and the account stay right exactly when the request fits into the size field. */
  lemma EmallocAccounts(a: Arena, size: nat, at: Ptr)
    requires Inv(a) && Sized(a) && Accounted(a) && MallocFits(a, size, at)
    requires Hit(a, size) || at != NULL
    ensures ListsOk(Emalloc(a, size, at).0)
    ensures Sized(Emalloc(a, size, at).0) <==> Plain(size)
    ensures Accounted(Emalloc(a, size, at).0) <==> Plain(size)
  {
    hide CacheOk, DisjointOk, Sized, Accounted, Total, RealSize, Plain, ListsOk, MallocFits, Emalloc, Hit;
    EmallocUsed(a, size, at);
    RealSizeOfField(size);
    EmallocTotals(a, size, at);
    EmallocSized(a, size, at);
    RealSizeCovers(size);
    RealSizeCovers(size % SIZE_FIELD);
    UsedIs(a);
    NewAccount(a, Emalloc(a, size, at).0, if Hit(a, size) then RealSize(size) else 0, RealSize(size), RealSize(size % SIZE_FIELD));
  }

  lemma EmallocUsed(a: Arena, size: nat, at: Ptr)
    requires Hit(a, size) || at != NULL
    ensures Emalloc(a, size, at).0.used == if Hit(a, size) then a.used else (a.used + RealSize(size)) % UINT
  {
  }

  lemma EmallocSized(a: Arena, size: nat, at: Ptr)
    requires Inv(a) && Sized(a) && MallocFits(a, size, at)
    requires Hit(a, size) || at != NULL
    ensures Sized(Emalloc(a, size, at).0) <==> RealSize(size % SIZE_FIELD) == RealSize(size)
  {
    hide RealSize, CacheOk, ListsOk, Emalloc;
    EmallocIs(a, size, at);
    ResizedIs(a, Emalloc(a, size, at).0, Emalloc(a, size, at).1, size);
  }

  /** One block is made, or made anew, for a request of this size. */
  lemma ResizedIs(a: Arena, b: Arena, p: Ptr, size: nat)
    requires Sized(a) && p in b.blocks && b.blocks[p].size == size % SIZE_FIELD && p in b.extent && b.extent[p] == RealSize(size)
    requires forall q :: q in b.blocks && q != p ==> q in a.blocks && b.blocks[q] == a.blocks[q]
                                                     && q in a.extent && q in b.extent && b.extent[q] == a.extent[q]
    ensures Sized(b) <==> RealSize(size % SIZE_FIELD) == RealSize(size)
  {
  }

  /** A size class holds one rounded size. */
  lemma SameClass(n: nat, m: nat)
    requires CacheIndex(n) == CacheIndex(m)
    ensures RealSize(n) == RealSize(m)
  {
    RealSizeCovers(n);
    RealSizeCovers(m);
  }

  lemma EmallocTotals(a: Arena, size: nat, at: Ptr)
    requires Inv(a) && MallocFits(a, size, at)
    requires Hit(a, size) || at != NULL
    ensures ListsOk(Emalloc(a, size, at).0)
    ensures var b := Emalloc(a, size, at).0; var was := Total(a.blocks, a.list) + Total(a.blocks, a.plist);
      Total(b.blocks, b.list) + Total(b.blocks, b.plist) ==
      (if Hit(a, size) then was - RealSize(size) else was) + RealSize(size % SIZE_FIELD)
  {
    hide RealSize, CacheOk;
    EmallocKeeps(a, size, at);
    var (b, p) := Emalloc(a, size, at);
    if Hit(a, size) {
      HitIs(a, size);
      SameClass(a.blocks[p].size, size);
      TotalSet(a.blocks, a.list, p, b.blocks[p]);
      TotalFrame(a.blocks, b.blocks, a.plist);
    } else {
      EmallocNewKeeps(a, size, at);
      TotalFrame(a.blocks, b.blocks, a.list);
      TotalFrame(a.blocks, b.blocks, a.plist);
      TotalFront(b.blocks, a.list, at);
    }
  }

  // _efree

  lemma EfreeCachesKeeps(a: Arena, p: Ptr)
    requires Inv(a) && Holds(a, p) && Caches(a, p)
    ensures Inv(Efree(a, p))
  {
    hide RealSize, CacheOk, ListsOk, DisjointOk;
    var b := Efree(a, p);
    EfreeCache(a, p);
    DisjointFrame(a, b);
    ListsFrame(a, b);
  }

  lemma EfreeCache(a: Arena, p: Ptr)
    requires Inv(a) && Holds(a, p) && Caches(a, p)
    ensures CacheOk(Efree(a, p).blocks, Efree(a, p).rows)
  {
    hide RealSize, DisjointOk, ListsOk;
    var i := CacheIndex(a.blocks[p].size);
    var b := Efree(a, p);
    forall k | 0 <= k < |a.rows|
      ensures p !in a.rows[k]
    {
      assert p in a.rows[k] ==> InClass(a.blocks, k, p);
    }
    forall k, q | 0 <= k < |b.rows| && q in b.rows[k]
      ensures InClass(b.blocks, k, q)
    {
      if q != p {
        assert q in a.rows[k] && InClass(a.blocks, k, q);
      }
    }
    forall q | q in b.blocks && b.blocks[q].cached
      ensures InRow(b.blocks, b.rows, q)
    {
      if q != p {
        assert InRow(a.blocks, a.rows, q);
      } else {
        assert b.rows[i][|b.rows[i]| - 1] == p;
      }
    }
  }

  /** A block that is not cached leaves its list. */
  lemma RemovedIs(a: Arena, p: Ptr)
    requires ListsOk(a) && p in a.blocks
    ensures var b := Removed(a, p);
      && Distinct(b.list) && Distinct(b.plist)
      && (forall q :: q in b.list <==> q in a.list && q != p)
      && (forall q :: q in b.plist <==> q in a.plist && q != p)
      && Total(a.blocks, a.list) + Total(a.blocks, a.plist)
         == RealSize(a.blocks[p].size) + Total(a.blocks, b.list) + Total(a.blocks, b.plist)
  {
    hide RealSize, Total, Less;
    LessHas(a.list, p);
    LessHas(a.plist, p);
    if a.blocks[p].persistent {
      TotalLess(a.blocks, a.plist, p);
    } else {
      TotalLess(a.blocks, a.list, p);
    }
  }

  lemma EfreeFreesKeeps(a: Arena, p: Ptr)
    requires Inv(a) && Holds(a, p) && !Caches(a, p)
    ensures Inv(Efree(a, p))
  {
    RemovedIs(a, p);
    var b := Efree(a, p);
    CacheFrame(a.blocks, b.blocks, a.rows);
    assert ListsOk(b);
    assert DisjointOk(b.blocks, b.extent);
  }

  lemma EfreeKeeps(a: Arena, p: Ptr)
    requires Inv(a) && Holds(a, p)
    ensures Inv(Efree(a, p))
  {
    if Caches(a, p) {
      EfreeCachesKeeps(a, p);
    } else {
      EfreeFreesKeeps(a, p);
    }
  }

  /** The program no longer holds the block, and all else it holds stays as it is; the account stays right. */
  lemma EfreeServes(a: Arena, p: Ptr)
    requires Inv(a) && Sized(a) && Accounted(a) && Holds(a, p)
    ensures var b := Efree(a, p);
      Inv(b) && Sized(b) && Accounted(b) && Held(b) == Held(a) - {p} && forall q :: q in Held(b) ==> b.extent[q] == a.extent[q]
  {
    hide RealSize, Total, CacheOk, DisjointOk, ListsOk, Accounted, Efree, Caches;
    EfreeKeeps(a, p);
    EfreeTotals(a, p);
    EfreeIs(a, p);
    var b := Efree(a, p);
    UsedIs(a);
    NewAccount(a, b, if Caches(a, p) then 0 else RealSize(a.blocks[p].size), 0, 0);
  }

  /** All but the lists and the cache. */
  lemma EfreeIs(a: Arena, p: Ptr)
    requires p in a.blocks
    ensures var b := Efree(a, p);
      && b.blocks == (if Caches(a, p) then a.blocks[p := a.blocks[p].(cached := true)] else a.blocks - {p})
      && b.extent == (if Caches(a, p) then a.extent else a.extent - {p})
      && b.used == (if Caches(a, p) then a.used else (a.used - RealSize(a.blocks[p].size)) % UINT)
  {
  }

  lemma EfreeTotals(a: Arena, p: Ptr)
    requires Inv(a) && Holds(a, p)
    ensures ListsOk(Efree(a, p))
    ensures var b := Efree(a, p);
      Total(b.blocks, b.list) + Total(b.blocks, b.plist) + (if Caches(a, p) then 0 else RealSize(a.blocks[p].size))
      == Total(a.blocks, a.list) + Total(a.blocks, a.plist)
  {
    hide RealSize, Total, CacheOk;
    EfreeKeeps(a, p);
    RemovedIs(a, p);
    var b := Efree(a, p);
    TotalFrame(a.blocks, b.blocks, b.list);
    TotalFrame(a.blocks, b.blocks, b.plist);
  }

  /** A block is cached exactly if it is not persistent, of 80 bytes at most, and fewer than 256 of its size are cached. */
  lemma CachedExactly(a: Arena, p: Ptr)
    requires Inv(a) && Holds(a, p)
    ensures Caches(a, p) <==>
      !a.blocks[p].persistent && RealSize(a.blocks[p].size) <= 80 && |a.rows[RealSize(a.blocks[p].size) / 8]| < 256
    ensures Caches(a, p) <==> p in Efree(a, p).blocks
  {
    hide ListsOk, DisjointOk;
    RealSizeCovers(a.blocks[p].size);
  }

  /** A request is served from the cache exactly if it is of 80 bytes at most and a block of its size is cached. */
  lemma ServedFromCache(a: Arena, size: nat)
    requires Inv(a)
    ensures Hit(a, size) <==> RealSize(size) <= 80 && a.rows[RealSize(size) / 8] != []
    ensures Hit(a, size) ==> Emalloc(a, size, NULL).1 != NULL && Emalloc(a, size, NULL).0.extent == a.extent
  {
    RealSizeCovers(size);
    if Hit(a, size) {
      HitIs(a, size);
    }
  }

  /** A block that was cached is the next one of its size class to be handed out, and everything is as it was. */
  lemma FreedThenAllocated(a: Arena, p: Ptr, size: nat, at: Ptr)
    requires Inv(a) && Holds(a, p) && Caches(a, p) && CacheIndex(size) == CacheIndex(a.blocks[p].size)
    ensures Emalloc(Efree(a, p), size, at) == (a.(blocks := a.blocks[p := Info(size % SIZE_FIELD, false, false)]), p)
  {
    var i := CacheIndex(size);
    var row := a.rows[i] + [p];
    assert row[..|row| - 1] == a.rows[i];
    var b := Emalloc(Efree(a, p), size, at).0;
    assert b.rows == a.rows;
    assert b.blocks == a.blocks[p := Info(size % SIZE_FIELD, false, false)];
  }

  // _erealloc

  lemma AddedIs(a: Arena, p: Ptr)
    requires Distinct(a.list) && Distinct(a.plist) && p in a.blocks && p !in a.list && p !in a.plist
    requires forall q :: q in a.list || q in a.plist ==> q in a.blocks
    ensures var b := Added(a, p);
      && Distinct(b.list) && Distinct(b.plist)
      && (forall q :: q in b.list <==> q in a.list || (q == p && !a.blocks[p].persistent))
      && (forall q :: q in b.plist <==> q in a.plist || (q == p && a.blocks[p].persistent))
      && Total(a.blocks, b.list) + Total(a.blocks, b.plist)
         == RealSize(a.blocks[p].size) + Total(a.blocks, a.list) + Total(a.blocks, a.plist)
  {
    hide RealSize, Total;
    if a.blocks[p].persistent {
      TotalFront(a.blocks, a.plist, p);
    } else {
      TotalFront(a.blocks, a.list, p);
    }
  }

  /** All but the lists. */
  lemma EreallocIs(a: Arena, p: Ptr, size: nat, at: Ptr)
    requires p in a.blocks
    ensures var (b, r) := Erealloc(a, p, size, at);
      && r == at && b.rows == a.rows
      && b.blocks == (if at == NULL then a.blocks else (a.blocks - {p})[at := a.blocks[p].(size := size % SIZE_FIELD)])
      && b.extent == (if at == NULL then a.extent else (a.extent - {p})[at := RealSize(size)])
      && b.used == (if at == NULL then a.used else (a.used + RealSize(size) - RealSize(a.blocks[p].size)) % UINT)
  {
    hide RealSize, Less;
  }

  /** What the steps of _erealloc do to the lists. */
  lemma EreallocLists(a: Arena, p: Ptr, size: nat, at: Ptr)
    requires Inv(a) && Holds(a, p) && Fits(a, at, RealSize(size), p)
    ensures ListsOk(Erealloc(a, p, size, at).0)
    ensures var b := Erealloc(a, p, size, at).0; var r := if at == NULL then p else at;
      r in b.blocks &&
      Total(b.blocks, b.list) + Total(b.blocks, b.plist) - RealSize(b.blocks[r].size)
      == Total(a.blocks, a.list) + Total(a.blocks, a.plist) - RealSize(a.blocks[p].size)
  {
    hide RealSize, CacheOk, DisjointOk, Total, Distinct, Removed, Added, Erealloc, Fits;
    RemovedIs(a, p);
    var c := Removed(a, p);
    EreallocIs(a, p, size, at);
    EreallocAdds(a, p, size, at);
    if at == NULL {
      RemovedKeeps(a, p);
      AddedIs(c, p);
    } else {
      var d := c.(blocks := Erealloc(a, p, size, at).0.blocks);
      MovedOff(a, p, size, at);
      TotalFrame(a.blocks, d.blocks, c.list);
      TotalFrame(a.blocks, d.blocks, c.plist);
      AddedIs(d, at);
    }
  }

  lemma RemovedKeeps(a: Arena, p: Ptr)
    requires p in a.blocks
    ensures Removed(a, p).blocks == a.blocks
  {
    hide Less;
  }

  /** The new address is on neither list. */
  lemma MovedOff(a: Arena, p: Ptr, size: nat, at: Ptr)
    requires Inv(a) && Holds(a, p) && Fits(a, at, RealSize(size), p) && at != NULL
    ensures at !in Removed(a, p).list && at !in Removed(a, p).plist && (at != p ==> at !in a.blocks)
  {
    hide RealSize, CacheOk;
    RemovedIs(a, p);
    assert at != p ==> at !in a.extent;
  }

  lemma EreallocAdds(a: Arena, p: Ptr, size: nat, at: Ptr)
    requires p in a.blocks
    ensures p in Removed(a, p).blocks
    ensures var b := Erealloc(a, p, size, at).0;
      (at == NULL ==> b == Added(Removed(a, p), p)) &&
      (at != NULL ==>
        var d := Removed(a, p).(blocks := b.blocks); at in d.blocks && b.list == Added(d, at).list && b.plist == Added(d, at).plist)
  {
    hide RealSize, Less;
  }

  lemma EreallocKeeps(a: Arena, p: Ptr, size: nat, at: Ptr)
    requires Inv(a) && Holds(a, p) && Fits(a, at, RealSize(size), p)
    ensures Inv(Erealloc(a, p, size, at).0)
  {
    hide RealSize, ListsOk, CacheOk, Erealloc;
    EreallocIs(a, p, size, at);
    EreallocLists(a, p, size, at);
    var b := Erealloc(a, p, size, at).0;
    assert at != NULL && at != p ==> at !in a.extent;
    CacheFrame(a.blocks, b.blocks, a.rows);
    assert DisjointOk(b.blocks, b.extent);
  }

  /**
   The program holds the block handed back instead of the one given, in the same way, and it overlaps with no other
   block that the program holds. If there is no memory it still holds the one given.
   */
  lemma EreallocServes(a: Arena, p: Ptr, size: nat, at: Ptr)
    requires Inv(a) && Sized(a) && Holds(a, p) && Fits(a, at, RealSize(size), p)
    ensures var (b, r) := Erealloc(a, p, size, at);
      (r == NULL <==> at == NULL) &&
      (r == NULL ==> b.blocks == a.blocks && b.extent == a.extent && b.used == a.used && Held(b) == Held(a)) &&
      (r != NULL ==>
        && r in b.extent && r !in Held(a) - {p} && Held(b) == (Held(a) - {p})[r := size % SIZE_FIELD]
        && b.blocks[r].persistent == a.blocks[p].persistent
        && (size <= b.extent[r] <==> size <= UINT - 8)
        && forall q :: q in Held(a) && q != p ==> q in a.extent && Apart(r, b.extent[r], q, a.extent[q]))
  {
    hide RealSize, CacheOk, Erealloc, ListsOk;
    EreallocIs(a, p, size, at);
    RealSizeCovers(size);
    if at != NULL {
      assert at != p ==> at !in a.extent;
      HeldMoved(a, Erealloc(a, p, size, at).0, p, at, size % SIZE_FIELD);
    }
  }

  lemma HeldMoved(a: Arena, b: Arena, p: Ptr, at: Ptr, size: nat)
    requires Holds(a, p) && b.blocks == (a.blocks - {p})[at := a.blocks[p].(size := size)]
    ensures Held(b) == (Held(a) - {p})[at := size]
  {
    assert forall q :: q != at && q != p ==> (q in Held(b) <==> q in Held(a)) && (q in Held(a) ==> Held(b)[q] == Held(a)[q]);
  }

  lemma EreallocAccounts(a: Arena, p: Ptr, size: nat, at: Ptr)
    requires Inv(a) && Sized(a) && Accounted(a) && Holds(a, p) && Fits(a, at, RealSize(size), p)
    ensures ListsOk(Erealloc(a, p, size, at).0)
    ensures Sized(Erealloc(a, p, size, at).0) <==> at == NULL || Plain(size)
    ensures Accounted(Erealloc(a, p, size, at).0) <==> at == NULL || Plain(size)
  {
    hide CacheOk, DisjointOk, Sized, Accounted, ListsOk, Total, RealSize, Plain, Erealloc, Fits;
    EreallocIs(a, p, size, at);
    EreallocLists(a, p, size, at);
    RealSizeOfField(size);
    EreallocSized(a, p, size, at);
    RealSizeCovers(size);
    RealSizeCovers(size % SIZE_FIELD);
    UsedIs(a);
    var b := Erealloc(a, p, size, at).0;
    if at != NULL {
      assert b.blocks[at].size == size % SIZE_FIELD;
      NewAccount(a, b, RealSize(a.blocks[p].size), RealSize(size), RealSize(size % SIZE_FIELD));
    } else {
      NewAccount(a, b, 0, 0, 0);
    }
  }

  lemma EreallocSized(a: Arena, p: Ptr, size: nat, at: Ptr)
    requires Inv(a) && Sized(a) && Holds(a, p) && Fits(a, at, RealSize(size), p)
    ensures Sized(Erealloc(a, p, size, at).0) <==> at == NULL || RealSize(size % SIZE_FIELD) == RealSize(size)
  {
    hide RealSize, CacheOk, ListsOk, Erealloc;
    EreallocIs(a, p, size, at);
    if at != NULL {
      ResizedIs(a, Erealloc(a, p, size, at).0, at, size);
    }
  }

  // _persist_alloc

  /** The block changes lists, and nothing that the program or the account can tell has changed. */
  lemma PersistServes(a: Arena, p: Ptr)
    requires Inv(a) && Holds(a, p)
    ensures var b := Persist(a, p);
      && Inv(b) && (Sized(a) ==> Sized(b)) && (Accounted(a) ==> Accounted(b))
      && p in b.plist && p !in b.list && (forall q :: q != p ==> (q in b.plist <==> q in a.plist) && (q in b.list <==> q in a.list))
      && Held(b) == Held(a) && b.extent == a.extent
  {
    hide RealSize, CacheOk, Total, Distinct, DisjointOk, Removed, Persist;
    var b := Persist(a, p);
    PersistIs(a, p);
    var d := Removed(a, p).(blocks := b.blocks);
    RemovedIs(a, p);
    TotalFrame(a.blocks, d.blocks, d.list);
    TotalFrame(a.blocks, d.blocks, d.plist);
    AddedIs(d, p);
    CacheFrame(a.blocks, b.blocks, a.rows);
    DisjointFrame(a, b);
  }

  lemma PersistIs(a: Arena, p: Ptr)
    requires p in a.blocks
    ensures var b := Persist(a, p);
      var d := Removed(a, p).(blocks := a.blocks[p := a.blocks[p].(persistent := true)]);
      b == Added(d, p) && b.blocks == d.blocks && b.rows == a.rows && b.used == a.used && b.extent == a.extent
  {
    hide Less;
  }

  // What the cache costs

  /** The bytes in the cache, by the numbers of blocks in its rows. */
  function CacheBytes(rows: seq<seq<Ptr>>): nat {
    if rows == [] then 0 else CacheBytes(rows[..|rows| - 1]) + (|rows| - 1) * 8 * |rows[|rows| - 1]|
  }

  /** The rounded sizes of the blocks of s that are cached, or are not. */
  ghost function TotalOf(blocks: Blocks, s: seq<Ptr>, cached: bool): nat
    requires forall p :: p in s ==> p in blocks
  {
    if s == [] then 0
    else (if blocks[s[0]].cached == cached then RealSize(blocks[s[0]].size) else 0) + TotalOf(blocks, s[1..], cached)
  }

  lemma {:induction false} TotalSplits(m: Blocks, s: seq<Ptr>)
    requires forall p :: p in s ==> p in m
    ensures Total(m, s) == TotalOf(m, s, true) + TotalOf(m, s, false)
  {
    hide RealSize;
    if s != [] {
      TotalSplits(m, s[1..]);
    }
  }

  /** One block fewer in row i. */
  lemma {:induction false} CacheBytesLess(rows: seq<seq<Ptr>>, i: nat, row: seq<Ptr>)
    requires i < |rows| && |row| == |rows[i]| - 1
    ensures CacheBytes(rows) == CacheBytes(rows[i := row]) + 8 * i
  {
    var n := |rows| - 1;
    var r := rows[i := row];
    if i < n {
      CacheBytesLess(rows[..n], i, row);
      assert r[..n] == rows[..n][i := row];
    } else {
      assert r[..n] == rows[..n];
      var k := |row|;
      assert n * 8 * (k + 1) == n * 8 * k + n * 8;
    }
  }

  lemma {:induction false} CacheBytesNone(rows: seq<seq<Ptr>>)
    requires forall i :: 0 <= i < |rows| ==> rows[i] == []
    ensures CacheBytes(rows) == 0
  {
    if rows != [] {
      CacheBytesNone(rows[..|rows| - 1]);
    }
  }

  lemma {:induction false} CacheBytesAtMost(rows: seq<seq<Ptr>>)
    requires forall i :: 0 <= i < |rows| ==> |rows[i]| <= MAX_CACHED_ENTRIES
    ensures CacheBytes(rows) <= 4 * MAX_CACHED_ENTRIES * (|rows| * (|rows| - 1))
  {
    if rows != [] {
      var n := |rows| - 1;
      CacheBytesAtMost(rows[..n]);
      var k := |rows[n]|;
      assert n * 8 * k <= n * 8 * MAX_CACHED_ENTRIES by {
        MulLe(n * 8, k, MAX_CACHED_ENTRIES);
      }
      assert (n + 1) * n == n * (n - 1) + 2 * n;
    }
  }

  lemma MulLe(a: nat, b: nat, c: nat)
    requires b <= c
    ensures a * b <= a * c
  {
  }

  /** The rows hold exactly the cached blocks of s. */
  ghost predicate RowsOf(m: Blocks, s: seq<Ptr>, rows: seq<seq<Ptr>>) {
    && Distinct(s) && (forall p :: p in s ==> p in m)
    && (forall i :: 0 <= i < |rows| ==> Distinct(rows[i]))
    && (forall i, p :: 0 <= i < |rows| && p in rows[i] ==> InClass(m, i, p) && p in s)
    && (forall p :: p in s && m[p].cached ==> InRow(m, rows, p))
  }

  lemma WithoutElements(s: seq<Ptr>)
    ensures s == [] || exists p :: p in s
  {
    assert s == [] || s[0] in s;
  }

  /** Counting the cache by its blocks and counting it by its rows gives the same. */
  lemma {:induction false} CacheCounts(m: Blocks, s: seq<Ptr>, rows: seq<seq<Ptr>>)
    requires RowsOf(m, s, rows)
    ensures TotalOf(m, s, true) == CacheBytes(rows)
    decreases s
  {
    hide RealSize;
    if s == [] {
      forall i | 0 <= i < |rows|
        ensures rows[i] == []
      {
        WithoutElements(rows[i]);
        assert forall p :: p in rows[i] ==> p in s;
      }
      CacheBytesNone(rows);
    } else if m[s[0]].cached {
      var p, i := s[0], CacheIndex(m[s[0]].size);
      assert InRow(m, rows, p);
      RealSizeCovers(m[p].size);
      RowsWithout(m, s, rows, i);
      CacheBytesLess(rows, i, Less(rows[i], p));
      CacheCounts(m, s[1..], rows[i := Less(rows[i], p)]);
    } else {
      RowsTail(m, s, rows);
      CacheCounts(m, s[1..], rows);
    }
  }

  lemma RowsTail(m: Blocks, s: seq<Ptr>, rows: seq<seq<Ptr>>)
    requires RowsOf(m, s, rows) && s != [] && !m[s[0]].cached
    ensures RowsOf(m, s[1..], rows)
  {
    hide RealSize;
    assert s == [s[0]] + s[1..];
    forall i, p | 0 <= i < |rows| && p in rows[i]
      ensures p in s[1..]
    {
      assert InClass(m, i, p);
    }
  }

  lemma RowsWithout(m: Blocks, s: seq<Ptr>, rows: seq<seq<Ptr>>, i: nat)
    requires RowsOf(m, s, rows) && s != [] && m[s[0]].cached && i == CacheIndex(m[s[0]].size)
    ensures i < |rows| && |Less(rows[i], s[0])| == |rows[i]| - 1
    ensures RowsOf(m, s[1..], rows[i := Less(rows[i], s[0])])
  {
    hide RealSize, Less;
    var p := s[0];
    assert s == [p] + s[1..];
    assert InRow(m, rows, p);
    LessHas(rows[i], p);
    LessLength(rows[i], p);
    var r := rows[i := Less(rows[i], p)];
    forall k, q | 0 <= k < |r| && q in r[k]
      ensures InClass(m, k, q) && q in s[1..]
    {
      assert q in rows[k] && InClass(m, k, q);
    }
    forall q | q in s[1..] && m[q].cached
      ensures InRow(m, r, q)
    {
      assert InRow(m, rows, q);
    }
  }

  lemma {:induction false} LessLength(s: seq<Ptr>, p: Ptr)
    requires p in s
    ensures |Less(s, p)| == |s| - 1
  {
    if s[0] != p {
      LessLength(s[1..], p);
    }
  }

  /**
   allocated_memory is what the program holds, rounded, and the cache as its counters give it; and the cache never
   takes more than 112640 bytes.
   */
  lemma CacheCosts(a: Arena)
    requires Inv(a) && Accounted(a)
    ensures a.used == (TotalOf(a.blocks, a.list, false) + Total(a.blocks, a.plist) + CacheBytes(a.rows)) % UINT
    ensures CacheBytes(a.rows) <= 112640
  {
    hide RealSize, Distinct, Total, TotalOf, CacheBytes, DisjointOk;
    CacheBytesAtMost(a.rows);
    TotalSplits(a.blocks, a.list);
    RowsOfList(a);
    CacheCounts(a.blocks, a.list, a.rows);
  }

  lemma RowsOfList(a: Arena)
    requires Inv(a)
    ensures RowsOf(a.blocks, a.list, a.rows)
  {
    hide RealSize, DisjointOk;
    forall i, p | 0 <= i < |a.rows| && p in a.rows[i]
      ensures p in a.list
    {
      assert InClass(a.blocks, i, p);
    }
  }
}
