/**
 What the request allocator keeps track of, with its linked lists as sequences and the used part of its cache as one
 stack of blocks for each size class; what the four operations do to it; and what every run of them keeps.
 Sizes are those of a machine with 64-bit pointers and 32-bit ints. Where malloc and realloc put a block is given to
 the operations as an address, NULL when there is no memory left.
 */
module Arenas {
  import opened Buckets

  const MAX_CACHED_MEMORY: nat := 11
  const MAX_CACHED_ENTRIES: nat := 256
  const UINT: nat := 0x1_0000_0000

  /** The size field of a header has 30 bits. */
  const SIZE_FIELD: nat := 0x4000_0000

  /** sizeof(zend_mem_header) + MEM_HEADER_PADDING */
  const HEADER: nat := 24

  /** REAL_SIZE, kept in an unsigned int. */
  function RealSize(size: nat): nat { (size + 7) / 8 * 8 % UINT }

  function CacheIndex(size: nat): nat { RealSize(size) / 8 }

  /** The bit-fields of a header. */
  datatype Info = Info(size: nat, persistent: bool, cached: bool)

  type Blocks = map<Ptr, Info>

  /** extent says how many bytes malloc has put behind the header at an address. */
  datatype Arena = Arena(blocks: Blocks, extent: map<Ptr, nat>, list: seq<Ptr>, plist: seq<Ptr>, rows: seq<seq<Ptr>>,
                         used: nat, peak: nat)

  function Max(a: nat, b: nat): nat { if a > b then a else b }

  const Start: Arena := Arena(map[], map[], [], [], seq(MAX_CACHED_MEMORY, i => []), 0, 0)

  // What holds of an arena

  /** Every block is on exactly one of the two lists, once, as its flag says. */
  ghost predicate ListsOk(a: Arena) {
    && Distinct(a.list) && Distinct(a.plist) && NULL !in a.blocks
    && (forall p :: p in a.list ==> p in a.blocks && !a.blocks[p].persistent)
    && (forall p :: p in a.plist ==> p in a.blocks && a.blocks[p].persistent)
    && (forall p :: p in a.blocks ==> if a.blocks[p].persistent then p in a.plist else p in a.list)
  }

  /** The rows hold the cached blocks, each once, in the row of its size class. */
  ghost predicate CacheOk(blocks: Blocks, rows: seq<seq<Ptr>>) {
    && |rows| == MAX_CACHED_MEMORY
    && (forall i :: 0 <= i < |rows| ==> |rows[i]| <= MAX_CACHED_ENTRIES && Distinct(rows[i]))
    && (forall i, p :: 0 <= i < |rows| && p in rows[i] ==> InClass(blocks, i, p))
    && (forall p :: p in blocks && blocks[p].cached ==> InRow(blocks, rows, p))
  }

  /** A cached block of size class i. */
  ghost predicate InClass(blocks: Blocks, i: nat, p: Ptr) {
    p in blocks && blocks[p].cached && !blocks[p].persistent && CacheIndex(blocks[p].size) == i
  }

  ghost predicate InRow(blocks: Blocks, rows: seq<seq<Ptr>>, p: Ptr)
    requires p in blocks
  {
    var i := CacheIndex(blocks[p].size);
    i < |rows| && p in rows[i]
  }

  /** The n bytes behind the header at p and that header share no byte with those of q. */
  predicate Apart(p: Ptr, n: nat, q: Ptr, m: nat) { p + HEADER + n <= q || q + HEADER + m <= p }

  ghost predicate DisjointOk(blocks: Blocks, extent: map<Ptr, nat>) {
    && extent.Keys == blocks.Keys
    && (forall p, q :: p in extent && q in extent && p != q ==> Apart(p, extent[p], q, extent[q]))
  }

  ghost predicate Inv(a: Arena) {
    && ListsOk(a) && CacheOk(a.blocks, a.rows) && DisjointOk(a.blocks, a.extent)
    && (forall p :: p in a.blocks ==> a.blocks[p].size < SIZE_FIELD)
  }

  /** Every block is as long as its size field, rounded, says. */
  ghost predicate Sized(a: Arena) { forall p :: p in a.blocks ==> p in a.extent && a.extent[p] == RealSize(a.blocks[p].size) }

  /** The rounded sizes of the blocks of s. */
  ghost function Total(blocks: Blocks, s: seq<Ptr>): nat
    requires forall p :: p in s ==> p in blocks
  {
    if s == [] then 0 else RealSize(blocks[s[0]].size) + Total(blocks, s[1..])
  }

  /** allocated_memory is the sum of the rounded sizes over both lists. */
  ghost predicate Accounted(a: Arena)
    requires ListsOk(a)
  {
    a.used == (Total(a.blocks, a.list) + Total(a.blocks, a.plist)) % UINT
  }

  /** The blocks that the program holds, with the sizes it asked for. */
  ghost function Held(a: Arena): map<Ptr, nat> { map p | p in a.blocks && !a.blocks[p].cached :: a.blocks[p].size }

  // The operations

  predicate Hit(a: Arena, size: nat) {
    var i := CacheIndex(size);
    i < MAX_CACHED_MEMORY && i < |a.rows| && a.rows[i] != []
  }

  /** _emalloc */
  function Emalloc(a: Arena, size: nat, at: Ptr): (Arena, Ptr) {
    var i := CacheIndex(size);
    if Hit(a, size) then
      var row := a.rows[i];
      var p := row[|row| - 1];
      (a.(blocks := a.blocks[p := Info(size % SIZE_FIELD, false, false)], rows := a.rows[i := row[..|row| - 1]]), p)
    else if at == NULL then
      (a, NULL)
    else
      var used := (a.used + RealSize(size)) % UINT;
      (a.(blocks := a.blocks[at := Info(size % SIZE_FIELD, false, false)], extent := a.extent[at := RealSize(size)],
          list := [at] + a.list, used := used, peak := Max(a.peak, used)), at)
  }

  /** s without the element p. */
  function Less(s: seq<Ptr>, p: Ptr): seq<Ptr> {
    if s == [] then [] else if s[0] == p then s[1..] else [s[0]] + Less(s[1..], p)
  }

  predicate Caches(a: Arena, p: Ptr)
    requires p in a.blocks
  {
    var i := CacheIndex(a.blocks[p].size);
    !a.blocks[p].persistent && i < MAX_CACHED_MEMORY && i < |a.rows| && |a.rows[i]| < MAX_CACHED_ENTRIES
  }

  /** REMOVE_POINTER_FROM_LIST */
  function Removed(a: Arena, p: Ptr): Arena
    requires p in a.blocks
  {
    if a.blocks[p].persistent then a.(plist := Less(a.plist, p)) else a.(list := Less(a.list, p))
  }

  /** ADD_POINTER_TO_LIST */
  function Added(a: Arena, p: Ptr): Arena
    requires p in a.blocks
  {
    if a.blocks[p].persistent then a.(plist := [p] + a.plist) else a.(list := [p] + a.list)
  }

  /** _efree */
  function Efree(a: Arena, p: Ptr): Arena
    requires p in a.blocks
  {
    var i := CacheIndex(a.blocks[p].size);
    if Caches(a, p) then
      a.(blocks := a.blocks[p := a.blocks[p].(cached := true)], rows := a.rows[i := a.rows[i] + [p]])
    else
      var b := Removed(a, p);
      b.(blocks := a.blocks - {p}, extent := a.extent - {p}, used := (a.used - RealSize(a.blocks[p].size)) % UINT)
  }

  /** realloc takes the block at p to the address at. */
  function Moved(a: Arena, p: Ptr, at: Ptr, n: nat): Arena
    requires p in a.blocks
  {
    a.(blocks := (a.blocks - {p})[at := a.blocks[p]], extent := (a.extent - {p})[at := n])
  }

  /** _erealloc of a block that the program holds. */
  function Erealloc(a: Arena, p: Ptr, size: nat, at: Ptr): (Arena, Ptr)
    requires p in a.blocks
  {
    if at == NULL then
      (Added(Removed(a, p), p), NULL)
    else
      var info := a.blocks[p];
      var b := Added(Moved(Removed(a, p), p, at, RealSize(size)), at);
      var used := (a.used + RealSize(size) - RealSize(info.size)) % UINT;
      (b.(blocks := b.blocks[at := info.(size := size % SIZE_FIELD)], used := used, peak := Max(a.peak, used)), at)
  }

  /** _persist_alloc */
  function Persist(a: Arena, p: Ptr): Arena
    requires p in a.blocks
  {
    var b := Removed(a, p);
    Added(b.(blocks := a.blocks[p := a.blocks[p].(persistent := true)]), p)
  }

  // What malloc and realloc promise, and what the program has to keep to

  /** The n bytes behind a header at this address are free, but for the block given, which realloc gives up. */
  ghost predicate Fits(a: Arena, at: Ptr, n: nat, given: Ptr) {
    at != NULL ==> forall q :: q in a.extent && q != given ==> q != at && Apart(at, n, q, a.extent[q])
  }

  predicate Holds(a: Arena, p: Ptr) { p in a.blocks && !a.blocks[p].cached }
}
