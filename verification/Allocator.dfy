/** The request allocator itself: headers linked by address, and the cache as the array and counters it is. */
module Allocators {
  import opened Buckets
  import opened Arenas
  import opened ArenaSafety

  /** The links of a header. */
  datatype Links = Links(pNext: Ptr, pLast: Ptr)

  type Headers = map<Ptr, Links>

  /** The headers of s are linked in both directions, starting from first. */
  ghost predicate Threaded(m: Headers, first: Ptr, s: seq<Ptr>) {
    && Distinct(s) && NULL !in s && first == At(s, 0)
    && forall i :: 0 <= i < |s| ==> s[i] in m && m[s[i]] == Links(At(s, i + 1), At(s, i - 1))
  }

  ghost predicate BothThreaded(m: Headers, head: Ptr, list: seq<Ptr>, phead: Ptr, plist: seq<Ptr>) {
    Threaded(m, head, list) && Threaded(m, phead, plist) && forall p :: p in list ==> p !in plist
  }

  /** The neighbours of p are linked to each other; first is the head of its list. */
  function Unlinked(m: Headers, first: Ptr, p: Ptr): Headers
    requires p in m && (p == first || m[p].pLast in m) && (m[p].pNext != NULL ==> m[p].pNext in m)
  {
    var m1 := if p == first then m else m[m[p].pLast := m[m[p].pLast].(pNext := m[p].pNext)];
    if m1[p].pNext != NULL && m1[p].pNext in m1 then m1[m1[p].pNext := m1[m1[p].pNext].(pLast := m1[p].pLast)] else m1
  }

  /** p is put before first. */
  function Pushed(m: Headers, first: Ptr, p: Ptr): Headers
    requires p in m && (first != NULL ==> first in m)
  {
    var m1 := m[p := m[p].(pNext := first)];
    var m2 := if first != NULL then m1[first := m1[first].(pLast := p)] else m1;
    m2[p := m2[p].(pLast := NULL)]
  }

  lemma ThreadedAt(m: Headers, first: Ptr, s: seq<Ptr>, k: nat)
    requires Threaded(m, first, s) && k < |s|
    ensures s[k] in m && m[s[k]] == Links(At(s, k + 1), At(s, k - 1)) && (s[k] == first <==> k == 0)
    ensures (k > 0 ==> At(s, k - 1) in m && At(s, k - 1) != NULL) && (At(s, k + 1) != NULL ==> At(s, k + 1) in m)
  {
    assert k > 0 ==> s[k - 1] in m && s[k - 1] in s;
  }

  lemma UnlinkedThreaded(m: Headers, first: Ptr, s: seq<Ptr>, k: nat)
    requires Threaded(m, first, s) && k < |s|
    ensures s[k] in m && (s[k] == first || m[s[k]].pLast in m) && (m[s[k]].pNext != NULL ==> m[s[k]].pNext in m)
    ensures Threaded(Unlinked(m, first, s[k]), if s[k] == first then m[s[k]].pNext else first, Without(s, k))
  {
    hide Unlinked, Distinct;
    ThreadedAt(m, first, s, k);
    var t := Without(s, k);
    var r := Unlinked(m, first, s[k]);
    WithoutIs(s, k);
    forall i | 0 <= i < |t|
      ensures t[i] in r && r[t[i]] == Links(At(t, i + 1), At(t, i - 1))
    {
      UnlinkedAt(m, first, s, k, i);
    }
  }

  lemma UnlinkedAt(m: Headers, first: Ptr, s: seq<Ptr>, k: nat, i: nat)
    requires Threaded(m, first, s) && k < |s| && i < |s| - 1
    requires s[k] in m && (s[k] == first || m[s[k]].pLast in m) && (m[s[k]].pNext != NULL ==> m[s[k]].pNext in m)
    ensures var r := Unlinked(m, first, s[k]); var t := Without(s, k);
      t[i] in r && r[t[i]] == Links(At(t, i + 1), At(t, i - 1))
  {
    hide Threaded;
    var j := if i < k then i else i + 1;
    ThreadedAt(m, first, s, k);
    ThreadedAt(m, first, s, j);
    OthersApart(m, first, s, k, j);
    CutAt(s, k, i);
    hide Without;
  }

  /** A header has one place on its list. */
  lemma OthersApart(m: Headers, first: Ptr, s: seq<Ptr>, k: nat, j: nat)
    requires Threaded(m, first, s) && k < |s| && j < |s| && j != k
    ensures s[j] != s[k] && s[j] != NULL
    ensures (At(s, k + 1) == s[j] <==> j == k + 1) && (At(s, k - 1) == s[j] <==> j == k - 1)
    ensures At(s, k + 1) != NULL ==> At(s, k + 1) != s[k] && At(s, k + 1) != At(s, k - 1)
  {
    assert forall i :: 0 <= i < |s| ==> s[i] in s;
  }

  lemma WithoutIs(s: seq<Ptr>, k: nat)
    requires Distinct(s) && k < |s|
    ensures Distinct(Without(s, k)) && Without(s, k) == Less(s, s[k])
    ensures forall p :: p in Without(s, k) <==> p in s && p != s[k]
  {
    LessIsWithout(s, k);
    LessHas(s, s[k]);
  }

  lemma {:induction false} LessIsWithout(s: seq<Ptr>, k: nat)
    requires Distinct(s) && k < |s|
    ensures Less(s, s[k]) == Without(s, k)
  {
    if k > 0 {
      var rest := s[1..];
      assert Distinct(rest) && s[0] != s[k] && s[k] == rest[k - 1];
      hide Distinct;
      LessIsWithout(rest, k - 1);
      assert Without(s, k) == [s[0]] + Without(rest, k - 1);
    }
  }

  lemma PushedThreaded(m: Headers, first: Ptr, s: seq<Ptr>, p: Ptr)
    requires Threaded(m, first, s) && p in m && p != NULL && p !in s
    ensures first != NULL ==> first in m && first in s
    ensures Threaded(Pushed(m, first, p), p, [p] + s)
  {
    var t := [p] + s;
    var r := Pushed(m, first, p);
    forall i | 0 <= i < |t|
      ensures t[i] in r && r[t[i]] == Links(At(t, i + 1), At(t, i - 1))
    {
      if i > 0 {
        assert t[i] == s[i - 1];
      }
    }
  }

  /** Nothing on a list depends on other headers. */
  lemma ThreadedFrame(m: Headers, r: Headers, first: Ptr, s: seq<Ptr>)
    requires Threaded(m, first, s) && forall p :: p in s ==> p in m && p in r && r[p] == m[p]
    ensures Threaded(r, first, s)
  {
  }

  lemma ThreadedIn(m: Headers, first: Ptr, s: seq<Ptr>)
    requires Threaded(m, first, s)
    ensures forall p :: p in s ==> p in m && p != NULL
  {
  }

  /** Taking an element off one list leaves the other as it is. */
  lemma UnlinkedElsewhere(m: Headers, first: Ptr, s: seq<Ptr>, k: nat, head: Ptr, other: seq<Ptr>)
    requires Threaded(m, first, s) && k < |s| && Threaded(m, head, other) && forall p :: p in s ==> p !in other
    requires s[k] in m && (s[k] == first || m[s[k]].pLast in m) && (m[s[k]].pNext != NULL ==> m[s[k]].pNext in m)
    ensures Threaded(Unlinked(m, first, s[k]), head, other) && Unlinked(m, first, s[k]).Keys == m.Keys
  {
    ThreadedAt(m, first, s, k);
    AtIn(s, k + 1);
    AtIn(s, k - 1);
    ThreadedIn(m, head, other);
    ThreadedFrame(m, Unlinked(m, first, s[k]), head, other);
  }

  lemma Swapped(m: Headers, head: Ptr, list: seq<Ptr>, phead: Ptr, plist: seq<Ptr>)
    requires BothThreaded(m, head, list, phead, plist)
    ensures BothThreaded(m, phead, plist, head, list)
  {
    hide Threaded;
  }

  /** Taking p off its list, with the other list beside it. */
  lemma Unthreaded(m: Headers, first: Ptr, s: seq<Ptr>, head: Ptr, other: seq<Ptr>, p: Ptr)
    requires BothThreaded(m, first, s, head, other) && p in s
    ensures p in m && (p == first || m[p].pLast in m) && (m[p].pNext != NULL ==> m[p].pNext in m) && p != NULL
    ensures m[p].pNext != p && (p != first ==> m[p].pLast != p)
    ensures var r := Unlinked(m, first, p); var f := if p == first then m[p].pNext else first;
      r.Keys == m.Keys && BothThreaded(r, f, Less(s, p), head, other) && BothThreaded(r, head, other, f, Less(s, p))
    ensures p !in Less(s, p) && p !in other
  {
    hide Unlinked, Less, Distinct;
    var k :| 0 <= k < |s| && s[k] == p;
    ThreadedAt(m, first, s, k);
    UnlinkedThreaded(m, first, s, k);
    UnlinkedElsewhere(m, first, s, k, head, other);
    WithoutOf(m, first, s, k);
  }

  lemma WithoutOf(m: Headers, first: Ptr, s: seq<Ptr>, k: nat)
    requires Threaded(m, first, s) && k < |s|
    ensures Without(s, k) == Less(s, s[k]) && s[k] !in Less(s, s[k]) && forall p :: p in Less(s, s[k]) ==> p in s
    ensures At(s, k + 1) != s[k] && At(s, k - 1) != s[k]
  {
    WithoutIs(s, k);
  }

  /** Putting p at the front of one list, with the other list beside it. */
  lemma ThreadedOn(m: Headers, first: Ptr, s: seq<Ptr>, head: Ptr, other: seq<Ptr>, p: Ptr)
    requires BothThreaded(m, first, s, head, other) && p in m && p != NULL && p !in s && p !in other
    ensures first != NULL ==> first in m && first != p
    ensures var r := Pushed(m, first, p);
      r.Keys == m.Keys && BothThreaded(r, p, [p] + s, head, other) && BothThreaded(r, head, other, p, [p] + s)
  {
    hide Distinct;
    PushedThreaded(m, first, s, p);
    ThreadedIn(m, head, other);
    PushedElsewhere(m, first, s, p);
    ThreadedFrame(m, Pushed(m, first, p), head, other);
  }

  lemma PushedElsewhere(m: Headers, first: Ptr, s: seq<Ptr>, p: Ptr)
    requires p in m && (first != NULL ==> first in m && first in s)
    ensures Pushed(m, first, p).Keys == m.Keys
    ensures forall q :: q in m && q != p && q !in s ==> Pushed(m, first, p)[q] == m[q]
  {
  }

  lemma OnItsList(a: Arena, p: Ptr)
    requires Inv(a) && p in a.blocks
    ensures p != NULL && if a.blocks[p].persistent then p in a.plist else p in a.list
  {
    hide CacheOk, DisjointOk, RealSize;
  }

  class Allocator {
    /** The headers in memory: their links, and their bit-fields. */
    var links: Headers
    var blocks: Blocks
    var head: Ptr
    var phead: Ptr
    const cache: array2<Ptr>
    const cache_count: array<nat>
    var allocated_memory: nat
    var allocated_memory_peak: nat

    ghost var extent: map<Ptr, nat>
    ghost var list: seq<Ptr>
    ghost var plist: seq<Ptr>
    ghost var rows: seq<seq<Ptr>>

    ghost function Now(): Arena
      reads this
    {
      Arena(blocks, extent, list, plist, rows, allocated_memory, allocated_memory_peak)
    }

    /** The lists are linked as they should be, but need not hold all blocks. */
    ghost predicate Woven()
      reads this
    {
      BothThreaded(links, head, list, phead, plist) && links.Keys == blocks.Keys
    }

    /** The used part of the cache. */
    ghost predicate CacheHolds()
      reads this, cache, cache_count
    {
      && cache.Length0 == MAX_CACHED_MEMORY && cache.Length1 == MAX_CACHED_ENTRIES && cache_count.Length == MAX_CACHED_MEMORY
      && |rows| == MAX_CACHED_MEMORY
      && (forall i :: 0 <= i < MAX_CACHED_MEMORY ==> cache_count[i] == |rows[i]| <= MAX_CACHED_ENTRIES)
      && (forall i, j :: 0 <= i < MAX_CACHED_MEMORY && 0 <= j < |rows[i]| ==> cache[i, j] == rows[i][j])
    }

    ghost predicate Valid()
      reads this, cache, cache_count
    {
      Inv(Now()) && Woven() && CacheHolds()
    }

    /** start_memory_manager */
    constructor ()
      ensures Valid() && Now() == Start && fresh(cache) && fresh(cache_count)
    {
      links, blocks, head, phead := map[], map[], NULL, NULL;
      cache := new Ptr[MAX_CACHED_MEMORY, MAX_CACHED_ENTRIES];
      cache_count := new nat[MAX_CACHED_MEMORY](i => 0);
      allocated_memory, allocated_memory_peak := 0, 0;
      extent, list, plist, rows := map[], [], [], seq(MAX_CACHED_MEMORY, i => []);
    }

    /** REMOVE_POINTER_FROM_LIST */
    method RemoveFromList(p: Ptr)
      requires Woven() && p in blocks && (if blocks[p].persistent then p in plist else p in list)
      modifies this`links, this`head, this`phead, this`list, this`plist
      ensures Woven() && Now() == Removed(old(Now()), p) && p !in list && p !in plist && p in links
    {
      hide BothThreaded, Less;
      if blocks[p].persistent {
        Swapped(links, head, list, phead, plist);
        Unthreaded(links, phead, plist, head, list, p);
        plist := Less(plist, p);
      } else {
        Unthreaded(links, head, list, phead, plist, p);
        list := Less(list, p);
      }
      ghost var after := Unlinked(links, if blocks[p].persistent then phead else head, p);
      if !blocks[p].persistent && p == head {
        head := links[p].pNext;
      } else if blocks[p].persistent && p == phead {
        phead := links[p].pNext;
      } else {
        links := links[links[p].pLast := links[links[p].pLast].(pNext := links[p].pNext)];
      }
      if links[p].pNext != NULL {
        links := links[links[p].pNext := links[links[p].pNext].(pLast := links[p].pLast)];
      }
      assert links == after;
    }

    /** ADD_POINTER_TO_LIST */
    method AddToList(p: Ptr)
      requires Woven() && p in blocks && p != NULL && p !in list && p !in plist
      modifies this`links, this`head, this`phead, this`list, this`plist
      ensures Woven() && Now() == Added(old(Now()), p)
    {
      hide BothThreaded;
      if blocks[p].persistent {
        Swapped(links, head, list, phead, plist);
        ThreadedOn(links, phead, plist, head, list, p);
      } else {
        ThreadedOn(links, head, list, phead, plist, p);
      }
      ghost var after := Pushed(links, if blocks[p].persistent then phead else head, p);
      if blocks[p].persistent {
        links := links[p := links[p].(pNext := phead)];
        if phead != NULL {
          links := links[phead := links[phead].(pLast := p)];
        }
        phead := p;
        plist := [p] + plist;
      } else {
        links := links[p := links[p].(pNext := head)];
        if head != NULL {
          links := links[head := links[head].(pLast := p)];
        }
        head := p;
        list := [p] + list;
      }
      links := links[p := links[p].(pLast := NULL)];
      assert links == after;
    }

    method Emalloc(size: nat, at: Ptr) returns (r: Ptr)
      requires Valid() && MallocFits(Now(), size, at)
      modifies this, cache_count
      ensures Valid() && (Now(), r) == Arenas.Emalloc(old(Now()), size, at)
    {
      hide RealSize, Inv, Fits, BothThreaded;
      EmallocKeeps(Now(), size, at);
      var real_size := RealSize(size);
      var cache_index := real_size / 8;
      if cache_index < MAX_CACHED_MEMORY && cache_count[cache_index] > 0 {
        CachedIn(size);
        r := PopCached(cache_index);
        SetInfo(r, Info(size % SIZE_FIELD, false, false));
        return;
      }
      if at == NULL {
        return NULL;
      }
      EmallocNewKeeps(Now(), size, at);
      r := at;
      AddNew(r, size, real_size);
      NotePeak();
    }

    lemma CachedIn(size: nat)
      requires Valid() && Hit(Now(), size)
      ensures var row := rows[CacheIndex(size)]; row[|row| - 1] in blocks
    {
      HitIs(Now(), size);
    }

    method SetInfo(p: Ptr, info: Info)
      requires Woven() && p in blocks
      modifies this`blocks
      ensures Woven() && blocks == old(blocks)[p := info]
    {
      blocks := blocks[p := info];
    }

    /** A new block goes to the front of the list. */
    method AddNew(r: Ptr, size: nat, real_size: nat)
      requires Woven() && r != NULL && r !in blocks && r !in list && r !in plist
      modifies this`links, this`blocks, this`head, this`phead, this`list, this`plist, this`extent, this`allocated_memory
      ensures Woven()
      ensures Now() == old(Now()).(blocks := old(blocks)[r := Info(size % SIZE_FIELD, false, false)],
                                   extent := old(extent)[r := real_size], list := [r] + old(list),
                                   used := (old(allocated_memory) + real_size) % UINT)
    {
      NewHeader(r, Links(NULL, NULL), Info(0, false, false), real_size);
      AddToList(r);
      SetInfo(r, blocks[r].(size := size % SIZE_FIELD));
      allocated_memory := (allocated_memory + real_size) % UINT;
    }

    /** What malloc returns is not linked yet. */
    method NewHeader(r: Ptr, l: Links, info: Info, n: nat)
      requires Woven() && r !in list && r !in plist
      modifies this`links, this`blocks, this`extent
      ensures Woven() && links == old(links)[r := l] && blocks == old(blocks)[r := info] && extent == old(extent)[r := n]
    {
      ThreadedIn(links, head, list);
      ThreadedIn(links, phead, plist);
      ThreadedFrame(links, links[r := l], head, list);
      ThreadedFrame(links, links[r := l], phead, plist);
      links, blocks, extent := links[r := l], blocks[r := info], extent[r := n];
    }

    /** free */
    method DropHeader(p: Ptr)
      requires Woven() && p !in list && p !in plist
      modifies this`links, this`blocks, this`extent
      ensures Woven() && links == old(links) - {p} && blocks == old(blocks) - {p} && extent == old(extent) - {p}
    {
      ThreadedIn(links, head, list);
      ThreadedIn(links, phead, plist);
      ThreadedFrame(links, links - {p}, head, list);
      ThreadedFrame(links, links - {p}, phead, plist);
      links, blocks, extent := links - {p}, blocks - {p}, extent - {p};
    }

    method NotePeak()
      modifies this`allocated_memory_peak
      ensures allocated_memory_peak == Max(old(allocated_memory_peak), allocated_memory)
    {
      if allocated_memory > allocated_memory_peak {
        allocated_memory_peak := allocated_memory;
      }
    }

    method PopCached(i: nat) returns (p: Ptr)
      requires CacheHolds() && i < MAX_CACHED_MEMORY && rows[i] != []
      modifies this`rows, cache_count
      ensures CacheHolds() && p == old(rows[i][|rows[i]| - 1]) && rows == old(rows[i := rows[i][..|rows[i]| - 1]])
    {
      rows := rows[i := rows[i][..|rows[i]| - 1]];
      cache_count[i] := cache_count[i] - 1;
      p := cache[i, cache_count[i]];
    }

    method PushCached(i: nat, p: Ptr)
      requires CacheHolds() && i < MAX_CACHED_MEMORY && |rows[i]| < MAX_CACHED_ENTRIES
      modifies this`rows, cache, cache_count
      ensures CacheHolds() && rows == old(rows[i := rows[i] + [p]])
    {
      rows := rows[i := rows[i] + [p]];
      cache[i, cache_count[i]] := p;
      cache_count[i] := cache_count[i] + 1;
    }

    method Efree(p: Ptr)
      requires Valid() && Holds(Now(), p)
      modifies this, cache, cache_count
      ensures Valid() && Now() == Arenas.Efree(old(Now()), p)
    {
      hide RealSize, Inv, BothThreaded, Less;
      EfreeKeeps(Now(), p);
      OnItsList(Now(), p);
      var real_size := RealSize(blocks[p].size);
      var cache_index := real_size / 8;
      if !blocks[p].persistent && cache_index < MAX_CACHED_MEMORY && cache_count[cache_index] < MAX_CACHED_ENTRIES {
        PushCached(cache_index, p);
        SetInfo(p, blocks[p].(cached := true));
        return;
      }
      RemoveFromList(p);
      allocated_memory := (allocated_memory - real_size) % UINT;
      DropHeader(p);
    }

    method Erealloc(p: Ptr, size: nat, at: Ptr) returns (r: Ptr)
      requires Valid() && if p == NULL then MallocFits(Now(), size, at) else Holds(Now(), p) && Fits(Now(), at, RealSize(size), p)
      modifies this, cache_count
      ensures Valid() && (Now(), r) == if p == NULL then Arenas.Emalloc(old(Now()), size, at) else Arenas.Erealloc(old(Now()), p, size, at)
    {
      hide RealSize, Inv, BothThreaded, Less, Fits, Arenas.Emalloc, MallocFits, Removed, Added;
      if p == NULL {
        r := Emalloc(size, at);
        return;
      }
      EreallocKeeps(Now(), p, size, at);
      OnItsList(Now(), p);
      if at != NULL {
        MovedOff(Now(), p, size, at);
      }
      RemovedKeeps(Now(), p);
      RemoveFromList(p);
      if at == NULL {
        AddToList(p);
        return NULL;
      }
      r := at;
      MoveTo(p, r, size, RealSize(size));
      NotePeak();
    }

    /** realloc moves a block, and it goes to the front of its list again. */
    method MoveTo(p: Ptr, r: Ptr, size: nat, real_size: nat)
      requires Woven() && r != NULL && p in blocks && p !in list && p !in plist && r !in list && r !in plist
      modifies this`links, this`blocks, this`head, this`phead, this`list, this`plist, this`extent, this`allocated_memory
      ensures Woven()
      ensures var b := Added(Moved(old(Now()), p, r, real_size), r);
        Now() == b.(blocks := b.blocks[r := old(blocks)[p].(size := size % SIZE_FIELD)],
                    used := (old(allocated_memory) + real_size - RealSize(old(blocks)[p].size)) % UINT)
    {
      hide RealSize, BothThreaded;
      var l, info := links[p], blocks[p];
      DropHeader(p);
      NewHeader(r, l, info, real_size);
      AddToList(r);
      allocated_memory := (allocated_memory + real_size - RealSize(blocks[r].size)) % UINT;
      SetInfo(r, blocks[r].(size := size % SIZE_FIELD));
    }

    method PersistAlloc(p: Ptr) returns (n: nat)
      requires Valid() && Holds(Now(), p)
      modifies this
      ensures Valid() && Now() == Persist(old(Now()), p) && n == RealSize(blocks[p].size) + HEADER
    {
      hide RealSize, Inv, BothThreaded, Less;
      PersistServes(Now(), p);
      OnItsList(Now(), p);
      RemoveFromList(p);
      blocks := blocks[p := blocks[p].(persistent := true)];
      AddToList(p);
      n := RealSize(blocks[p].size) + HEADER;
    }
  }

  lemma {:induction false} LessSame(s: seq<Ptr>, p: Ptr)
    requires p !in s
    ensures Less(s, p) == s
  {
    if s != [] {
      LessSame(s[1..], p);
    }
  }
}
