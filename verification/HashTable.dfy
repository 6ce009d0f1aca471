/** zend_hash.c: the ordered hash table itself. */
module HashTables {
  import opened Buckets
  import opened Common
  import opened OrderedMap
  import opened HashLayout
  import opened TableSizes
  import opened NumericKeys

  datatype Mode = Update | Add | NextInsert

  class HashTable<V> {
    const hash: string -> nat
    var nTableSize: nat
    var nTableMask: nat
    var nNumOfElements: nat
    var nNextFreeElement: nat
    var pInternalPointer: Ptr
    var pListHead: Ptr
    var pListTail: Ptr
    var arBuckets: array<Ptr>
    /** The memory the nodes live in. */
    var nodes: Nodes<V>
    /** The data pDestructor has been called on, in that order. */
    var released: seq<V>

    ghost var order: seq<Ptr>
    ghost var chains: seq<seq<Ptr>>
    ghost var entries: seq<Entry<V>>
    /** The integer key ULONG_MAX has been used since the next free key last started from scratch. */
    ghost var topped: bool
    /** The position of the internal pointer, the number of elements if it is NULL. */
    ghost var pos: nat

    ghost predicate Valid()
      reads this, arBuckets
    {
      Core() && pInternalPointer == At(order, pos) && pos <= |order|
    }

    /** Everything but the internal pointer. */
    ghost predicate Core()
      reads `nTableSize, `nTableMask, `arBuckets, arBuckets, `nodes, `order, `pListHead, `pListTail, `chains
      reads `entries, `nNumOfElements, `topped, `nNextFreeElement
    {
      && Linked() && Shown(nodes, order, entries) && Unique(entries)
      && nNumOfElements == |entries| && (nNumOfElements <= nTableSize || nTableSize == LARGEST)
      && (!topped ==> Above(entries, nNextFreeElement))
      && nNextFreeElement < ULONG_RANGE
    }

    /** The list as the head, the tail and the links of a node show it. */
    lemma ListShape(j: nat)
      requires Core() && j <= |order|
      ensures |order| == |entries| && pListHead == At(order, 0) && pListTail == At(order, |order| - 1)
      ensures At(order, j) == NULL <==> j == |order|
      ensures j < |order| ==> order[j] in nodes && nodes[order[j]].pListNext == At(order, j + 1)
      ensures j < |order| ==> nodes[order[j]].pListLast == At(order, j - 1)
    {
      hide ChainsOk, IsSize, Unique, Above, ListOk, Shown;
      ShownLength(nodes, order, entries);
      HeadIs(nodes, order, pListHead, pListTail);
      NullAtEnd(nodes, order, pListHead, pListTail, j);
    }

    /** Both threadings, and the size of the table. */
    ghost predicate Linked()
      reads `nTableSize, `nTableMask, `arBuckets, arBuckets, `nodes, `order, `pListHead, `pListTail, `chains
    {
      && IsSize(nTableSize) && nTableMask == nTableSize - 1 && arBuckets.Length == nTableSize
      && ListOk(nodes, order, pListHead, pListTail)
      && ChainsOk(nodes, nTableSize, arBuckets[..], chains, nodes.Keys)
    }

    /** zend_hash_init */
    constructor (nSize: nat, hash: string -> nat)
      requires nSize <= LARGEST
      ensures Valid() && fresh(arBuckets) && entries == [] && released == [] && !topped && this.hash == hash
      ensures nTableSize >= nSize && (nTableSize == 8 || nTableSize < 2 * nSize)
      ensures pos == 0 && nNextFreeElement == 0
    {
      var size := 8;
      SizeEight();
      while size < nSize
        invariant IsSize(size) && (size == 8 || size < 2 * nSize)
        decreases nSize - size
      {
        Doubles(size);
        size := size * 2;
      }
      this.hash := hash;
      nTableSize, nTableMask := size, size - 1;
      arBuckets := new Ptr[size](_ => NULL);
      pListHead, pListTail, pInternalPointer := NULL, NULL, NULL;
      nNumOfElements, nNextFreeElement := 0, 0;
      nodes, released := map[], [];
      order, entries, topped, pos := [], [], false, 0;
      chains := seq(size, _ => []);
      new;
      NoChains(nodes, size);
      assert arBuckets[..] == seq(size, _ => NULL);
    }

    // Lookup

    /** The search every operation starts with: along the chain of the slot that the hash value selects. */
    method Seek(h: nat, arKey: string) returns (p: Ptr, ghost k: nat, ghost i: nat)
      requires Valid()
      ensures p == NULL ==> Find(entries, h, arKey) == |entries|
      ensures p != NULL ==> OnList(p, i) && Find(entries, h, arKey) == i
      ensures p != NULL ==> |chains| == nTableSize > 0 && k < |chains[h % nTableSize]| && chains[h % nTableSize][k] == p
    {
      hide ChainsOk, ListOk, Shown, Unique, Above, IsSize;
      SizeOk(nodes, nTableSize, arBuckets[..], chains);
      MaskIsModulo(h, nTableSize);
      var nIndex := BitAnd(h, nTableMask);
      p, k, i := arBuckets[nIndex], 0, 0;
      OnChain(nodes, nTableSize, arBuckets[..], chains, nIndex, 0);
      while p != NULL
        invariant k <= |chains[nIndex]| && p == At(chains[nIndex], k) && (p != NULL ==> p in nodes && k < |chains[nIndex]|)
        invariant NoneBefore(nodes, chains[nIndex], k, h, arKey)
        invariant p == NULL ==> k == |chains[nIndex]|
        decreases |chains[nIndex]| - k
      {
        OnChain(nodes, nTableSize, arBuckets[..], chains, nIndex, k);
        OnChain(nodes, nTableSize, arBuckets[..], chains, nIndex, k + 1);
        if nodes[p].h == h && nodes[p].arKey == arKey {
          i := PlaceOf(nodes, order, pListHead, pListTail, entries, p);
          return;
        }
        p := nodes[p].pNext;
        k := k + 1;
      }
      AllBefore(nodes, chains[nIndex], h, arKey);
      NotOnChain(nodes, nTableSize, arBuckets[..], chains, order, entries, h, arKey);
    }

    ghost predicate OnList(p: Ptr, i: nat)
      reads this
    {
      i < |order| && |entries| == |order| && order[i] == p && p in nodes &&
      entries[i] == Entry(nodes[p].h, nodes[p].arKey, nodes[p].pData)
    }

    /** zend_hash_quick_find, with the hash value given */
    method QuickFind(arKey: string, h: nat) returns (r: Option<V>)
      requires Valid()
      ensures r == Lookup(entries, h, arKey)
    {
      hide Valid;
      var p, _, _ := Seek(h, arKey);
      r := if p != NULL then Some(nodes[p].pData) else None;
    }

    /** zend_hash_index_find */
    method IndexFind(h: nat) returns (r: Option<V>)
      requires Valid()
      ensures r == Lookup(entries, h, "")
    {
      r := QuickFind("", h);
    }

    /** zend_hash_find */
    method FindData(arKey: string) returns (r: Option<V>)
      requires Valid()
      ensures r == Lookup(entries, StoredKey(hash, arKey).0, StoredKey(hash, arKey).1)
    {
      hide Valid;
      var idx := HandleNumeric(arKey);
      if idx.Some? {
        r := IndexFind(idx.value);
      } else {
        r := QuickFind(arKey, hash(arKey));
      }
    }

    /** zend_hash_exists */
    method Exists(arKey: string) returns (b: bool)
      requires Valid()
      ensures b == Has(entries, StoredKey(hash, arKey).0, StoredKey(hash, arKey).1)
    {
      hide Valid;
      var idx := HandleNumeric(arKey);
      if idx.Some? {
        b := IndexExists(idx.value);
      } else {
        var p, _, _ := Seek(hash(arKey), arKey);
        b := p != NULL;
      }
    }

    /** zend_hash_index_exists */
    method IndexExists(h: nat) returns (b: bool)
      requires Valid()
      ensures b == Has(entries, h, "")
    {
      hide Valid;
      var p, _, _ := Seek(h, "");
      b := p != NULL;
    }

    // Linking a new node in

    /** Memory for a node, at some address not in use. */
    method Alloc() returns (p: Ptr)
      ensures p != NULL && p !in nodes
    {
      Unused(nodes.Keys + {NULL});
      p :| p !in nodes.Keys + {NULL};
    }

    /** CONNECT_TO_BUCKET_DLLIST, and the slot made to lead to the node */
    method ConnectToBucketDllist(p: Ptr, nIndex: nat)
      requires p in nodes && nIndex < arBuckets.Length && (arBuckets[nIndex] != NULL ==> arBuckets[nIndex] in nodes)
      modifies this`nodes, arBuckets
      ensures nodes == PushedFront(old(nodes), old(arBuckets[nIndex]), p) && nodes.Keys == old(nodes.Keys)
      ensures arBuckets[..] == old(arBuckets[..])[nIndex := p]
    {
      nodes := nodes[p := nodes[p].(pNext := arBuckets[nIndex], pLast := NULL)];
      if nodes[p].pNext != NULL {
        nodes := nodes[nodes[p].pNext := nodes[nodes[p].pNext].(pLast := p)];
      }
      arBuckets[nIndex] := p;
    }

    /** CONNECT_TO_GLOBAL_DLLIST */
    method ConnectToGlobalDllist(p: Ptr)
      requires p in nodes && (pListTail != NULL ==> pListTail in nodes)
      modifies this`nodes, this`pListHead, this`pListTail, this`pInternalPointer
      ensures nodes == Appended(old(nodes), old(pListTail), p) && nodes.Keys == old(nodes.Keys)
      ensures pListTail == p && pListHead == (if old(pListHead) == NULL then p else old(pListHead))
      ensures pInternalPointer == if old(pInternalPointer) == NULL then p else old(pInternalPointer)
    {
      nodes := nodes[p := nodes[p].(pListLast := pListTail)];
      pListTail := p;
      nodes := nodes[p := nodes[p].(pListNext := NULL)];
      if nodes[p].pListLast != NULL {
        nodes := nodes[nodes[p].pListLast := nodes[nodes[p].pListLast].(pListNext := p)];
      }
      if pListHead == NULL {
        pListHead := p;
      }
      if pInternalPointer == NULL {
        pInternalPointer := p;
      }
    }

    /** The new node is linked in: first onto its chain, then onto the list. */
    method Connect(p: Ptr, b: Bucket<V>)
      requires p !in nodes && IsSize(nTableSize) && nTableMask == nTableSize - 1 && arBuckets.Length == nTableSize > 0
      requires arBuckets[b.h % nTableSize] != NULL ==> arBuckets[b.h % nTableSize] in nodes
      requires pListTail != NULL ==> pListTail in nodes
      modifies this`nodes, arBuckets, this`pListHead, this`pListTail, this`pInternalPointer
      ensures nodes == Inserted(old(nodes), old(arBuckets[b.h % nTableSize]), old(pListTail), p, b)
      ensures arBuckets[..] == old(arBuckets[..])[b.h % nTableSize := p]
      ensures pListTail == p && pListHead == (if old(pListHead) == NULL then p else old(pListHead))
      ensures pInternalPointer == if old(pInternalPointer) == NULL then p else old(pInternalPointer)
    {
      hide PushedFront, Appended, IsSize;
      MaskIsModulo(b.h, nTableSize);
      var nIndex := BitAnd(b.h, nTableMask);
      nodes := nodes[p := b];
      ConnectToBucketDllist(p, nIndex);
      ConnectToGlobalDllist(p);
    }

    /** What every insertion does once the key has not been found. */
    method Link(h: nat, arKey: string, v: V)
      requires Valid() && Find(entries, h, arKey) == |entries|
      modifies this`nodes, arBuckets, this`pListHead, this`pListTail, this`pInternalPointer, this`nNumOfElements
      modifies this`order, this`chains, this`entries
      ensures Linked() && Shown(nodes, order, entries) && Unique(entries)
      ensures entries == old(entries) + [Entry(h, arKey, v)] == Put(old(entries), h, arKey, v)
      ensures nNumOfElements == |entries| && pInternalPointer == At(order, pos) && pos <= |order|
    {
      hide ChainsOk, ListOk, Shown, Unique, Above, IsSize, Inserted, Put, Find;
      var p := Alloc();
      var b := Bucket(h, arKey, v, NULL, NULL, NULL, NULL);
      InsertedOk(nodes, nTableSize, arBuckets[..], chains, order, pListHead, pListTail, entries, p, b);
      PutNew(entries, h, arKey, v);
      CursorKept(nodes, order, pListHead, pListTail, pInternalPointer, pos, p);
      Connect(p, b);
      nNumOfElements := nNumOfElements + 1;
      chains := chains[h % nTableSize := [p] + chains[h % nTableSize]];
      order := order + [p];
      entries := entries + [Entry(h, arKey, v)];
    }

    // Growth

    /** memset(ht->arBuckets, 0, ...) */
    method ClearSlots()
      requires arBuckets.Length == nTableSize > 0
      modifies arBuckets, this`chains
      ensures ChainsOk(nodes, nTableSize, arBuckets[..], chains, {})
    {
      forall n | 0 <= n < arBuckets.Length {
        arBuckets[n] := NULL;
      }
      chains := seq(nTableSize, _ => []);
      NoChains(nodes, nTableSize);
      assert arBuckets[..] == seq(nTableSize, _ => NULL);
    }

    /** zend_hash_rehash: every chain is built anew from the list. */
    method Rehash()
      requires IsSize(nTableSize) && nTableMask == nTableSize - 1 && arBuckets.Length == nTableSize
      requires ListOk(nodes, order, pListHead, pListTail) && Shown(nodes, order, entries)
      modifies this`nodes, arBuckets, this`chains
      ensures Linked() && Shown(nodes, order, entries)
    {
      hide ChainsOk, ListOk, Shown, IsSize, PushedFront;
      Doubles(nTableSize);
      ClearSlots();
      assert Prefix(order, 0) == {};
      var p := pListHead;
      ghost var i := 0;
      HeadIs(nodes, order, pListHead, pListTail);
      while p != NULL
        invariant i <= |order| && p == At(order, i) && (p == NULL ==> i == |order|) && arBuckets.Length == nTableSize
        invariant ListOk(nodes, order, pListHead, pListTail) && Shown(nodes, order, entries)
        invariant ChainsOk(nodes, nTableSize, arBuckets[..], chains, Prefix(order, i))
        decreases |order| - i
      {
        RehashStep(nodes, nTableSize, arBuckets[..], chains, order, pListHead, pListTail, entries, i);
        MaskIsModulo(nodes[p].h, nTableSize);
        var nIndex := BitAnd(nodes[p].h, nTableMask);
        ConnectToBucketDllist(p, nIndex);
        chains := chains[nIndex := [p] + chains[nIndex]];
        p := nodes[p].pListNext;
        i := i + 1;
        NullAtEnd(nodes, order, pListHead, pListTail, i);
      }
      PrefixAll(nodes, order, pListHead, pListTail);
    }

    /** zend_hash_do_resize: the size doubles unless it would overflow an unsigned int. */
    method DoResize()
      requires Linked() && Shown(nodes, order, entries)
      modifies this`nodes, this`nTableSize, this`nTableMask, this`arBuckets, this`chains
      ensures Linked() && Shown(nodes, order, entries) && (arBuckets == old(arBuckets) || fresh(arBuckets))
      ensures nTableSize == if old(nTableSize) < LARGEST then 2 * old(nTableSize) else LARGEST
    {
      hide ChainsOk, ListOk, Shown, IsSize;
      Doubles(nTableSize);
      var doubled := nTableSize * 2 % ULONG_RANGE;
      if doubled > 0 {
        var t := new Ptr[doubled](n requires 0 <= n reads this, arBuckets =>
          if n < arBuckets.Length then arBuckets[n] else NULL);
        arBuckets := t;
        nTableSize := doubled;
        nTableMask := nTableSize - 1;
        Rehash();
      }
    }

    /** ZEND_HASH_IF_FULL_DO_RESIZE */
    method GrowIfFull()
      requires Linked() && Shown(nodes, order, entries) && nNumOfElements == |entries|
      requires nNumOfElements <= nTableSize + 1 || nTableSize == LARGEST
      modifies this`nodes, this`nTableSize, this`nTableMask, this`arBuckets, this`chains
      ensures Linked() && Shown(nodes, order, entries) && (arBuckets == old(arBuckets) || fresh(arBuckets))
      ensures nNumOfElements <= nTableSize || nTableSize == LARGEST
      ensures nTableSize >= old(nTableSize)
      ensures old(nNumOfElements) <= old(nTableSize) ==> nTableSize == old(nTableSize)
    {
      hide ChainsOk, ListOk, Shown, IsSize;
      Doubles(nTableSize);
      if nNumOfElements > nTableSize {
        DoResize();
      }
    }

    // Adding and updating

    /** UPDATE_DATA on a node that has been found: the old data is destructed, the node stays where it is. */
    method Overwrite(p: Ptr, v: V, ghost i: nat)
      requires Valid() && OnList(p, i)
      modifies this`nodes, this`released, this`entries
      ensures Valid() && released == old(released) + [old(entries)[i].data]
      ensures entries == old(entries)[i := Entry(old(entries)[i].h, old(entries)[i].arKey, v)]
      ensures old(entries)[i].Is(old(entries)[i].h, old(entries)[i].arKey)
    {
      hide ChainsOk, ListOk, Shown, Unique, Above, IsSize;
      DataSet(nodes, nTableSize, arBuckets[..], chains, order, pListHead, pListTail, entries, i, v);
      released := released + [nodes[p].pData];
      nodes := nodes[p := nodes[p].(pData := v)];
      SameKeys(entries, i, v, nNextFreeElement);
      entries := entries[i := Entry(entries[i].h, entries[i].arKey, v)];
    }

    /** zend_hash_quick_add_or_update, with the hash value given */
    method QuickAddOrUpdate(arKey: string, h: nat, v: V, add: bool) returns (ok: bool)
      requires Valid()
      modifies this, arBuckets
      ensures Valid() && (arBuckets == old(arBuckets) || fresh(arBuckets))
      ensures ok == (arKey != "" && !(add && Has(old(entries), h, arKey)))
      ensures entries == if ok then Put(old(entries), h, arKey, v) else old(entries)
      ensures released == old(released) + if ok then Replaced(old(entries), h, arKey) else []
      ensures pos == old(pos) && topped == old(topped) && nNextFreeElement == old(nNextFreeElement)
    {
      hide Linked, Shown, Unique, Above, Put, Find;
      if |arKey| == 0 {
        return false;
      }
      var p, k, i := Seek(h, arKey);
      if p != NULL {
        if add {
          return false;
        }
        PutOld(entries, h, arKey, v);
        Overwrite(p, v, i);
        return true;
      }
      NamesOnly(entries, h, arKey, v, nNextFreeElement);
      Link(h, arKey, v);
      GrowIfFull();
      return true;
    }

    /** The successful end of zend_hash_index_update_or_next_insert, the search having led to p. */
    method SetIndex(h: nat, v: V, p: Ptr, ghost i: nat)
      requires Valid() && Find(entries, h, "") == (if p == NULL then |entries| else i)
      requires p != NULL ==> OnList(p, i)
      modifies this, arBuckets
      ensures Valid() && (arBuckets == old(arBuckets) || fresh(arBuckets))
      ensures entries == Put(old(entries), h, "", v) && released == old(released) + Replaced(old(entries), h, "")
      ensures topped == (old(topped) || h >= ULONG_RANGE - 1) && pos == old(pos)
      ensures nNextFreeElement == if h >= old(nNextFreeElement) then (h + 1) % ULONG_RANGE else old(nNextFreeElement)
    {
      hide Linked, Shown, Unique, Above, Put, Find;
      if p != NULL {
        PutOld(entries, h, "", v);
        Overwrite(p, v, i);
      } else {
        PutNewIs(entries, h, "", v);
        Link(h, "", v);
      }
      if !topped {
        IndexAbove(old(entries), h, v, old(nNextFreeElement));
      }
      if h >= nNextFreeElement {
        nNextFreeElement := (h + 1) % ULONG_RANGE;
      }
      topped := topped || h >= ULONG_RANGE - 1;
      GrowIfFull();
    }

    /** zend_hash_index_update_or_next_insert */
    method IndexUpdateOrNextInsert(h0: nat, v: V, mode: Mode) returns (ok: bool)
      requires Valid()
      modifies this, arBuckets
      ensures Valid() && (arBuckets == old(arBuckets) || fresh(arBuckets))
      ensures var h := if mode.NextInsert? then old(nNextFreeElement) else h0;
        && ok == (mode.Update? || !Has(old(entries), h, ""))
        && entries == (if ok then Put(old(entries), h, "", v) else old(entries))
        && released == old(released) + (if ok then Replaced(old(entries), h, "") else [])
        && topped == (old(topped) || (ok && h >= ULONG_RANGE - 1))
        && nNextFreeElement == if ok && h >= old(nNextFreeElement) then (h + 1) % ULONG_RANGE else old(nNextFreeElement)
      ensures mode.NextInsert? && !old(topped) ==> ok
      ensures pos == old(pos)
    {
      hide Linked, Shown, Unique, Above, Put, Find;
      var h := h0;
      if mode.NextInsert? {
        h := nNextFreeElement;
        NextIsFree(entries, nNextFreeElement);
      }
      var p, k, i := Seek(h, "");
      if p != NULL && (mode.NextInsert? || mode.Add?) {
        return false;
      }
      SetIndex(h, v, p, i);
      return true;
    }

    /** zend_hash_add_or_update */
    method AddOrUpdate(arKey: string, v: V, add: bool) returns (ok: bool)
      requires Valid()
      modifies this, arBuckets
      ensures Valid() && (arBuckets == old(arBuckets) || fresh(arBuckets))
      ensures var (h, key) := StoredKey(hash, arKey);
        && ok == (arKey != "" && !(add && Has(old(entries), h, key)))
        && entries == (if ok then Put(old(entries), h, key, v) else old(entries))
        && released == old(released) + if ok then Replaced(old(entries), h, key) else []
      ensures pos == old(pos) && nNextFreeElement ==
        if ok && Numeral(arKey).Some? && Numeral(arKey).value >= old(nNextFreeElement) then Numeral(arKey).value + 1
        else old(nNextFreeElement)
      ensures topped == old(topped)
    {
      hide Valid, Put, Find;
      if |arKey| <= 0 {
        return false;
      }
      var idx := HandleNumeric(arKey);
      if idx.Some? {
        ok := IndexUpdateOrNextInsert(idx.value, v, if add then Add else Update);
      } else {
        ok := QuickAddOrUpdate(arKey, hash(arKey), v, add);
      }
    }

    // Deleting

    /** A node's chain closes over it; zend_hash_del_key_or_index compares with the slot, the apply deleter looks at pLast. */
    method UnlinkChain(p: Ptr, bySlot: bool)
      requires p in nodes && nTableMask == nTableSize - 1 && arBuckets.Length == nTableSize > 0 && IsSize(nTableSize)
      requires (nodes[p].pLast != NULL ==> nodes[p].pLast in nodes) && (nodes[p].pNext != NULL ==> nodes[p].pNext in nodes)
      requires nodes[p].pLast == NULL <==> p == arBuckets[nodes[p].h % nTableSize]
      modifies this`nodes, arBuckets
      ensures nodes == ChainCut(old(nodes), p)
      ensures arBuckets[..] == var n := old(nodes)[p].h % nTableSize;
        old(arBuckets[..])[n := if p == old(arBuckets[n]) then old(nodes)[p].pNext else old(arBuckets[n])]
    {
      hide IsSize;
      MaskIsModulo(nodes[p].h, nTableSize);
      var nIndex := BitAnd(nodes[p].h, nTableMask);
      if (bySlot && p == arBuckets[nIndex]) || (!bySlot && nodes[p].pLast == NULL) {
        arBuckets[nIndex] := nodes[p].pNext;
      } else {
        nodes := nodes[nodes[p].pLast := nodes[nodes[p].pLast].(pNext := nodes[p].pNext)];
      }
      if nodes[p].pNext != NULL {
        nodes := nodes[nodes[p].pNext := nodes[nodes[p].pNext].(pLast := nodes[p].pLast)];
      }
    }

    /** The list closes over a node, the internal pointer moves past it, and it is freed. */
    method UnlinkList(p: Ptr)
      requires p in nodes && (nodes[p].pListLast != NULL ==> nodes[p].pListLast in nodes)
      requires nodes[p].pListNext != NULL ==> nodes[p].pListNext in nodes
      modifies this`nodes, this`pListHead, this`pListTail, this`pInternalPointer
      ensures nodes == ListCut(old(nodes), p) - {p}
      ensures pListHead == if old(nodes)[p].pListLast == NULL then old(nodes)[p].pListNext else old(pListHead)
      ensures old(nodes)[p].pListLast != p && old(nodes)[p].pListNext != p ==>
        pListTail == (if old(nodes)[p].pListNext == NULL then old(nodes)[p].pListLast else old(pListTail)) &&
        pInternalPointer == if old(pInternalPointer) == p then old(nodes)[p].pListNext else old(pInternalPointer)
    {
      if nodes[p].pListLast != NULL {
        nodes := nodes[nodes[p].pListLast := nodes[nodes[p].pListLast].(pListNext := nodes[p].pListNext)];
      } else {
        pListHead := nodes[p].pListNext;
      }
      if nodes[p].pListNext != NULL {
        nodes := nodes[nodes[p].pListNext := nodes[nodes[p].pListNext].(pListLast := nodes[p].pListLast)];
      } else {
        pListTail := nodes[p].pListLast;
      }
      if pInternalPointer == p {
        pInternalPointer := nodes[p].pListNext;
      }
      nodes := nodes - {p};
    }

    method Unlink(p: Ptr, bySlot: bool)
      requires p in nodes && nTableMask == nTableSize - 1 && arBuckets.Length == nTableSize > 0 && IsSize(nTableSize)
      requires (nodes[p].pLast != NULL ==> nodes[p].pLast in nodes) && (nodes[p].pNext != NULL ==> nodes[p].pNext in nodes)
      requires nodes[p].pLast == NULL <==> p == arBuckets[nodes[p].h % nTableSize]
      requires (nodes[p].pListLast != NULL ==> nodes[p].pListLast in nodes) && nodes[p].pListLast != p
      requires (nodes[p].pListNext != NULL ==> nodes[p].pListNext in nodes) && nodes[p].pListNext != p
      modifies this`nodes, arBuckets, this`pListHead, this`pListTail, this`pInternalPointer
      ensures nodes == Deleted(old(nodes), p)
      ensures arBuckets[..] == var n := old(nodes)[p].h % nTableSize;
        old(arBuckets[..])[n := if p == old(arBuckets[n]) then old(nodes)[p].pNext else old(arBuckets[n])]
      ensures pListHead == if old(nodes)[p].pListLast == NULL then old(nodes)[p].pListNext else old(pListHead)
      ensures pListTail == if old(nodes)[p].pListNext == NULL then old(nodes)[p].pListLast else old(pListTail)
      ensures pInternalPointer == if old(pInternalPointer) == p then old(nodes)[p].pListNext else old(pInternalPointer)
    {
      hide IsSize, ChainCut, ListCut;
      ChainCutSame(nodes, p);
      UnlinkChain(p, bySlot);
      UnlinkList(p);
    }

    /** Both threadings close over the node p, the i-th on the list and the k-th on its chain. */
    method Detach(p: Ptr, bySlot: bool, ghost k: nat, ghost i: nat)
      requires Linked() && Shown(nodes, order, entries) && i < |order| && order[i] == p
      requires p in nodes && |chains| == nTableSize > 0
      requires k < |chains[nodes[p].h % nTableSize]| && chains[nodes[p].h % nTableSize][k] == p
      modifies this`nodes, arBuckets, this`pListHead, this`pListTail, this`pInternalPointer, this`chains, this`order
      ensures i < |entries| && Linked() && Shown(nodes, order, Drop(entries, i)) && order == Without(old(order), i)
      ensures pInternalPointer == if old(pInternalPointer) == p then At(old(order), i + 1) else old(pInternalPointer)
    {
      hide ChainsOk, ListOk, Shown, IsSize, Deleted, Without, Drop;
      DeletedOk(nodes, nTableSize, arBuckets[..], chains, order, pListHead, pListTail, entries, i, k);
      NotOwnNeighbour(nodes, order, pListHead, pListTail, i);
      ghost var n := nodes[p].h % nTableSize;
      Unlink(p, bySlot);
      chains := chains[n := Without(chains[n], k)];
      order := Without(order, i);
    }

    /** Taking out the node p, the i-th on the list and the k-th on its chain. */
    method RemoveNode(p: Ptr, bySlot: bool, ghost k: nat, ghost i: nat)
      requires Valid() && OnList(p, i) && |chains| == nTableSize > 0
      requires k < |chains[nodes[p].h % nTableSize]| && chains[nodes[p].h % nTableSize][k] == p
      modifies this, arBuckets
      ensures Valid() && arBuckets == old(arBuckets) && order == Without(old(order), i)
      ensures entries == Drop(old(entries), i) && released == old(released) + [old(entries)[i].data]
      ensures pos == (if old(pos) > i then old(pos) - 1 else old(pos))
      ensures topped == old(topped) && nNextFreeElement == old(nNextFreeElement) && nTableSize == old(nTableSize)
    {
      hide ChainsOk, ListOk, Shown, Unique, Above, IsSize, Without, Drop;
      CursorDropped(nodes, order, pListHead, pListTail, pInternalPointer, pos, i);
      DropKeeps(entries, i, nNextFreeElement);
      released := released + [nodes[p].pData];
      Detach(p, bySlot, k, i);
      nNumOfElements := nNumOfElements - 1;
      entries := Drop(entries, i);
      pos := if pos > i then pos - 1 else pos;
    }

    /** On the chain, a node with the integer key h comes before the one with key (h, arKey), if that is there at all. */
    ghost predicate Shadowed(h: nat, arKey: string)
      reads this
    {
      nTableSize > 0 && |chains| == nTableSize && ShadowedOn(nodes, chains[h % nTableSize], h, arKey)
    }

    /** The search of zend_hash_del_key_or_index. */
    method SeekHit(h: nat, arKey: string) returns (p: Ptr, ghost k: nat, ghost i: nat)
      requires Valid()
      ensures |chains| == nTableSize > 0
      ensures p == NULL ==> (forall e :: e in entries ==> !Hit(e, h, arKey)) && Remove(entries, h, arKey) == entries && !Shadowed(h, arKey)
      ensures p != NULL ==> OnList(p, i) && Hit(entries[i], h, arKey) && k < |chains[h % nTableSize]| && chains[h % nTableSize][k] == p
      ensures p != NULL ==> (Drop(entries, i) == Remove(entries, h, arKey) <==> !Shadowed(h, arKey))
    {
      hide ChainsOk, ListOk, Shown, Unique, Above, IsSize, Drop, ShadowedOn, Find;
      SizeOk(nodes, nTableSize, arBuckets[..], chains);
      MaskIsModulo(h, nTableSize);
      var nIndex := BitAnd(h, nTableMask);
      p, k, i := arBuckets[nIndex], 0, 0;
      OnChain(nodes, nTableSize, arBuckets[..], chains, nIndex, 0);
      while p != NULL
        invariant k <= |chains[nIndex]| && p == At(chains[nIndex], k) && (p != NULL ==> p in nodes && k < |chains[nIndex]|)
        invariant NoHitBefore(nodes, chains[nIndex], k, h, arKey)
        invariant p == NULL ==> k == |chains[nIndex]|
        decreases |chains[nIndex]| - k
      {
        OnChain(nodes, nTableSize, arBuckets[..], chains, nIndex, k);
        OnChain(nodes, nTableSize, arBuckets[..], chains, nIndex, k + 1);
        if nodes[p].h == h && (nodes[p].arKey == "" || nodes[p].arKey == arKey) {
          i := PlaceOf(nodes, order, pListHead, pListTail, entries, p);
          ShadowedHit(nodes, chains[nIndex], k, h, arKey, entries, i);
          return;
        }
        p := nodes[p].pNext;
        k := k + 1;
      }
      NoHits(nodes, nTableSize, arBuckets[..], chains, order, entries, h, arKey);
    }

    /**
     zend_hash_del_key_or_index. The test on a node lets every integer key equal to h through, whatever the key
     asked for: so this takes out the key asked for, and nothing else, exactly when that is not shadowed.
     */
    method DelKeyOrIndex(h: nat, arKey: string) returns (ok: bool, ghost gone: nat)
      requires Valid()
      modifies this, arBuckets
      ensures Valid() && arBuckets == old(arBuckets) && topped == old(topped) && nNextFreeElement == old(nNextFreeElement)
      ensures ok ==> gone < |old(entries)| && Hit(old(entries)[gone], h, arKey) && entries == Drop(old(entries), gone)
      ensures released == old(released) + if ok then [old(entries)[gone].data] else []
      ensures pos == if ok && old(pos) > gone then old(pos) - 1 else old(pos)
      ensures !ok ==> entries == old(entries) && forall e :: e in entries ==> !Hit(e, h, arKey)
      ensures entries == Remove(old(entries), h, arKey) <==> !old(Shadowed(h, arKey))
    {
      hide Linked, Shown, Unique, Above, Drop, Find, Shadowed;
      var p, k, i := SeekHit(h, arKey);
      gone := i;
      ok := p != NULL;
      if p != NULL {
        RemoveNode(p, true, k, i);
      }
    }

    /** zend_hash_index_del */
    method IndexDel(h: nat) returns (ok: bool)
      requires Valid()
      modifies this, arBuckets
      ensures Valid() && arBuckets == old(arBuckets)
      ensures ok == Has(old(entries), h, "") && entries == Remove(old(entries), h, "")
      ensures released == old(released) + Replaced(old(entries), h, "")
      ensures nNextFreeElement == old(nNextFreeElement) && topped == old(topped)
      ensures pos == if ok && old(pos) > Find(old(entries), h, "") then old(pos) - 1 else old(pos)
    {
      hide Above, Without, Find, Linked;
      ghost var es := entries;
      ghost var gone;
      ok, gone := DelKeyOrIndex(h, "");
      HitIsIndex(es, h, gone, ok);
    }

    /**
     zend_hash_del. With no integer key in the way it takes out the element of the key asked for, if there is one. With one
     in the way and the key not stored it takes out that of the integer key; with both stored, the first on the chain.
     */
    method Del(arKey: string) returns (ok: bool)
      requires Valid()
      modifies this, arBuckets
      ensures Valid() && arBuckets == old(arBuckets)
      ensures nNextFreeElement == old(nNextFreeElement) && topped == old(topped)
      ensures Proper(hash, old(entries)) && !InTheWay(hash, old(entries), arKey) ==>
        TakenOut(old(entries), old(pos), old(released), StoredKey(hash, arKey).0, StoredKey(hash, arKey).1, ok, entries, pos, released)
      ensures Proper(hash, old(entries)) && InTheWay(hash, old(entries), arKey) ==>
        TakenOut(old(entries), old(pos), old(released), hash(arKey), "", ok, entries, pos, released)
        || TakenOut(old(entries), old(pos), old(released), hash(arKey), arKey, ok, entries, pos, released)
      ensures Proper(hash, old(entries)) && !Has(old(entries), StoredKey(hash, arKey).0, StoredKey(hash, arKey).1) ==>
        (entries == old(entries) <==> !InTheWay(hash, old(entries), arKey))
      ensures Numeral(arKey).None? ==> (entries == Remove(old(entries), hash(arKey), arKey) <==> !old(Shadowed(hash(arKey), arKey)))
    {
      hide Linked, Shown, Above, Find, Remove, Drop, Shadowed, TakenOut, Has;
      var idx := HandleNumeric(arKey);
      ghost var gone;
      ghost var es, pos0, freed := entries, pos, released;
      if idx.Some? {
        ok, gone := DelKeyOrIndex(idx.value, arKey);
      } else {
        ok, gone := DelKeyOrIndex(hash(arKey), arKey);
      }
      assert released == if ok then freed + [es[gone].data] else freed;
      if Proper(hash, es) {
        HitTaken(hash, es, pos0, freed, arKey, ok, gone);
        if !Has(es, StoredKey(hash, arKey).0, StoredKey(hash, arKey).1) {
          WayTaken(hash, es, pos0, freed, arKey, ok, entries, pos, released);
        }
      }
    }

    /** The loop of zend_hash_clean: every node is destructed and freed, in the order of the list. */
    method FreeAll()
      requires ListOk(nodes, order, pListHead, pListTail) && Shown(nodes, order, entries)
      modifies this`nodes, this`released
      ensures nodes == map[] && released == old(released) + Datas(entries)
    {
      hide ListOk, Shown;
      ghost var m := nodes;
      ghost var i := 0;
      var p := pListHead;
      HeadIs(nodes, order, pListHead, pListTail);
      ShownLength(nodes, order, entries);
      FreedNone(nodes, order);
      assert Datas(entries[..0]) == [];
      while p != NULL
        invariant i <= |order| && p == At(order, i) && (p == NULL <==> i == |order|)
        invariant released == old(released) + Datas(entries[..i]) && FreedUpTo(m, nodes, order, i)
        decreases |order| - i
      {
        FreeNext(m, nodes, order, pListHead, pListTail, entries, i);
        var q := p;
        p := nodes[p].pListNext;
        released := released + [nodes[q].pData];
        nodes := nodes - {q};
        i := i + 1;
      }
      assert entries[..i] == entries;
      AllFreed(m, nodes, order, pListHead, pListTail);
    }

    /** The fields of a table without nodes. */
    method Reset()
      requires nodes == map[] && IsSize(nTableSize) && nTableMask == nTableSize - 1 && arBuckets.Length == nTableSize
      requires ChainsOk(nodes, nTableSize, arBuckets[..], chains, nodes.Keys)
      modifies `order, `entries, `topped, `pos, `pListHead, `pListTail, `pInternalPointer, `nNumOfElements, `nNextFreeElement
      ensures Valid() && entries == [] && pos == 0 && nNextFreeElement == 0 && !topped
    {
      hide ChainsOk, ListOk, Shown, IsSize, Above, Unique;
      order, entries, topped, pos := [], [], false, 0;
      pListHead, pListTail, pInternalPointer := NULL, NULL, NULL;
      nNumOfElements, nNextFreeElement := 0, 0;
      EmptyList<V>();
    }

    /** zend_hash_clean */
    method Clean()
      requires Valid()
      modifies this, arBuckets
      ensures Valid() && arBuckets == old(arBuckets) && nTableSize == old(nTableSize)
      ensures entries == [] && released == old(released) + Datas(old(entries))
      ensures pos == 0 && nNextFreeElement == 0 && !topped
    {
      hide ChainsOk, ListOk, Shown, IsSize, Above, Unique, Datas;
      Doubles(nTableSize);
      FreeAll();
      ClearSlots();
      assert nodes.Keys == {};
      Reset();
    }

    // Applying

    /** zend_hash_apply_deleter: returns the node after the one taken out. */
    method ApplyDeleter(p: Ptr, ghost i: nat) returns (next: Ptr)
      requires Valid() && OnList(p, i)
      modifies this, arBuckets
      ensures Valid() && arBuckets == old(arBuckets) && next == At(order, i) && order == Without(old(order), i)
      ensures entries == Drop(old(entries), i) && released == old(released) + [old(entries)[i].data]
      ensures pos == (if old(pos) > i then old(pos) - 1 else old(pos))
      ensures topped == old(topped) && nNextFreeElement == old(nNextFreeElement)
    {
      hide ChainsOk, ListOk, Shown, Unique, Above, IsSize, Without, Drop;
      SizeOk(nodes, nTableSize, arBuckets[..], chains);
      NullAtEnd(nodes, order, pListHead, pListTail, i);
      ghost var k := ChainPlace(nodes, nTableSize, arBuckets[..], chains, p);
      next := nodes[p].pListNext;
      WithoutAt(order, i, i);
      RemoveNode(p, false, k, i);
    }

    // Walking the list

    lemma ListEnd(j: nat)
      requires Valid() && j <= |entries|
      ensures |order| == |entries| && (At(order, j) == NULL <==> j == |entries|)
    {
      hide ChainsOk;
      NullAtEnd(nodes, order, pListHead, pListTail, j);
    }

    method First() returns (p: Ptr)
      requires Valid()
      ensures p == At(order, 0)
    {
      hide ChainsOk, Shown;
      p := pListHead;
    }

    method Peek(p: Ptr, ghost i: nat) returns (h: nat, arKey: string, v: V)
      requires Valid() && p != NULL && p == At(order, i)
      ensures OnList(p, i) && Entry(h, arKey, v) == entries[i]
    {
      hide ChainsOk;
      h, arKey, v := nodes[p].h, nodes[p].arKey, nodes[p].pData;
    }

    method Next(p: Ptr, ghost i: nat) returns (q: Ptr)
      requires Valid() && p != NULL && p == At(order, i)
      ensures q == At(order, i + 1)
    {
      hide ChainsOk, Shown;
      q := nodes[p].pListNext;
    }

    /** One round of zend_hash_apply. */
    method ApplyRound(p: Ptr, drop: V -> bool, ghost es: seq<Entry<V>>, ghost n: nat, ghost pos0: nat, ghost released0: seq<V>)
      returns (v: V, next: Ptr)
      requires Valid() && Midway(es, drop, n, pos0, released0, entries, released, pos) && n < |es| && p == At(order, |Survivors(es[..n], drop)|) && p != NULL
      modifies this, arBuckets
      ensures Valid() && arBuckets == old(arBuckets) && v == es[n].data
      ensures Midway(es, drop, n + 1, pos0, released0, entries, released, pos)
      ensures next == At(order, |Survivors(es[..n + 1], drop)|) && (next == NULL <==> n + 1 == |es|)
    {
      hide Linked, Shown, Unique, Above, Without, Survivors, Datas, Drop, Valid, Midway;
      ghost var i := |Survivors(es[..n], drop)|;
      MidwayNext(es, drop, n, pos0, released0, entries, released, pos);
      var h, arKey;
      h, arKey, v := Peek(p, i);
      if drop(v) {
        next := ApplyDeleter(p, i);
      } else {
        next := Next(p, i);
      }
      MidwayLength(es, drop, n + 1, pos0, released0, entries, released, pos);
      ListEnd(|Survivors(es[..n + 1], drop)|);
    }

    /** zend_hash_apply, with a callback that only looks at the data. visited is what it is called on. */
    method Apply(drop: V -> bool) returns (visited: seq<V>)
      requires Valid()
      modifies this, arBuckets
      ensures Valid() && arBuckets == old(arBuckets) && visited == Datas(old(entries))
      ensures entries == Survivors(old(entries), drop)
      ensures released == old(released) + Datas(Survivors(old(entries), x => !drop(x)))
      ensures old(pos) <= |old(entries)| && pos == |Survivors(old(entries)[..old(pos)], drop)|
    {
      hide Linked, Shown, Unique, Above, Without, Survivors, Datas, Drop, Valid;
      ghost var es := entries;
      ghost var n := 0;
      CursorIn();
      var p := First();
      visited := [];
      ListEnd(0);
      ApplyStart(es, drop);
      while p != NULL
        invariant Valid() && arBuckets == old(arBuckets) && Midway(es, drop, n, old(pos), old(released), entries, released, pos)
        invariant visited == Datas(es[..n]) && p == At(order, |Survivors(es[..n], drop)|) && (p == NULL <==> n == |es|)
        decreases |es| - n
      {
        DatasNext(es, n);
        var v;
        v, p := ApplyRound(p, drop, es, n, old(pos), old(released));
        visited := visited + [v];
        n := n + 1;
      }
      assert es[..n] == es;
    }

    lemma CursorIn()
      requires Valid()
      ensures pos <= |entries|
    {
    }

    // The internal pointer

    /** zend_hash_internal_pointer_reset */
    method PointerReset()
      requires Valid()
      modifies `pInternalPointer, `pos
      ensures Valid() && pos == 0
    {
      hide Core;
      ListShape(0);
      pInternalPointer, pos := pListHead, 0;
    }

    /** zend_hash_internal_pointer_end */
    method PointerEnd()
      requires Valid()
      modifies `pInternalPointer, `pos
      ensures Valid() && pos == if |entries| == 0 then 0 else |entries| - 1
    {
      hide Core;
      ListShape(0);
      pInternalPointer, pos := pListTail, if |order| == 0 then 0 else |order| - 1;
    }

    /** zend_hash_move_forward */
    method MoveForward() returns (ok: bool)
      requires Valid()
      modifies `pInternalPointer, `pos
      ensures Valid() && ok == (old(pos) < |entries|) && pos == if ok then old(pos) + 1 else old(pos)
    {
      hide Core;
      ListShape(pos);
      ok := pInternalPointer != NULL;
      if ok {
        pInternalPointer, pos := nodes[pInternalPointer].pListNext, pos + 1;
      }
    }

    /** zend_hash_move_backwards: before the first element lies the end. */
    method MoveBackwards() returns (ok: bool)
      requires Valid()
      modifies `pInternalPointer, `pos
      ensures Valid() && ok == (old(pos) < |entries|)
      ensures pos == if !ok then old(pos) else if old(pos) == 0 then |entries| else old(pos) - 1
    {
      hide Core;
      ListShape(pos);
      ok := pInternalPointer != NULL;
      if ok {
        pInternalPointer, pos := nodes[pInternalPointer].pListLast, if pos == 0 then |order| else pos - 1;
      }
    }

    /** zend_hash_get_current_key and zend_hash_get_current_data */
    method GetCurrent() returns (r: Option<Entry<V>>)
      requires Valid()
      ensures pos <= |entries| && r == if pos < |entries| then Some(entries[pos]) else None
    {
      hide Linked, Unique, Above, Shown, Valid;
      CursorIn();
      ListEnd(pos);
      CursorAt();
      if pInternalPointer == NULL {
        r := None;
      } else {
        var h, arKey, v := Peek(pInternalPointer, pos);
        r := Some(Entry(h, arKey, v));
      }
    }

    lemma CursorAt()
      requires Valid()
      ensures pInternalPointer == At(order, pos)
    {
    }

    // Sorting

    /** The part of zend_hash_sort that collects the nodes: their addresses, and what they hold. */
    method Collect() returns (arTmp: seq<Ptr>, es: seq<Entry<V>>)
      requires Valid()
      ensures arTmp == order && es == entries
    {
      hide Valid, Linked, Shown, Unique, Above;
      arTmp, es := [], [];
      ListEnd(0);
      var p := First();
      while p != NULL
        invariant |order| == |entries| && |arTmp| <= |order| && arTmp == order[..|arTmp|] && es == entries[..|arTmp|]
        invariant p == At(order, |arTmp|) && (p == NULL <==> |arTmp| == |order|)
        decreases |order| - |arTmp|
      {
        var h, arKey, v := Peek(p, |arTmp|);
        es := es + [Entry(h, arKey, v)];
        var q := Next(p, |arTmp|);
        arTmp := arTmp + [p];
        p := q;
        ListEnd(|arTmp|);
      }
    }

    /** The loop of zend_hash_sort that threads the list anew, in the order of arTmp. */
    method Rethread(arTmp: seq<Ptr>)
      requires Live(nodes, arTmp) && |arTmp| > 0
      modifies `nodes, `pListHead, `pListTail
      ensures Live(nodes, arTmp) && ListLinked(nodes, arTmp) && SameButList(old(nodes), nodes)
      ensures pListHead == arTmp[0] && pListTail == arTmp[|arTmp| - 1]
    {
      hide ListLinked, Appended;
      pListHead := arTmp[0];
      pListTail := NULL;
      var j := 0;
      NothingLinked(nodes);
      while j < |arTmp|
        invariant j <= |arTmp| && SameButList(old(nodes), nodes) && pListHead == arTmp[0] && pListTail == At(arTmp, j - 1)
        invariant Live(nodes, arTmp) && Live(nodes, arTmp[..j]) && ListLinked(nodes, arTmp[..j])
      {
        var p := arTmp[j];
        ThreadNext(nodes, arTmp, j);
        ghost var m := nodes;
        if pListTail != NULL {
          nodes := nodes[pListTail := nodes[pListTail].(pListNext := p)];
        }
        nodes := nodes[p := nodes[p].(pListLast := pListTail, pListNext := NULL)];
        AppendedOtherWay(m, pListTail, p);
        pListTail := p;
        j := j + 1;
      }
      assert arTmp[..j] == arTmp;
    }

    /** The renumbering of zend_hash_sort: the keys become 0, 1, 2, ... in the order of the list. */
    method Renumber()
      requires Valid() && |entries| < ULONG_RANGE
      modifies `nodes, `entries, `nNextFreeElement, `topped, arBuckets, `chains
      ensures Valid() && entries == Renumbered(old(entries)) && nNextFreeElement == |entries| && !topped
    {
      hide ChainsOk, ListOk, Shown, Unique, Above, IsSize, Renumbered;
      ghost var m := nodes;
      ListShape(0);
      var p := pListHead;
      var i := 0;
      while p != NULL
        invariant i <= |order| && p == At(order, i) && NumberedUpTo(m, nodes, order, i) && (p == NULL <==> i == |order|)
        decreases |order| - i
        modifies `nodes
      {
        NumberNext(m, nodes, order, pListHead, pListTail, i);
        nodes := nodes[p := nodes[p].(arKey := "", h := i)];
        i := i + 1;
        p := nodes[p].pListNext;
      }
      NumberedAll(m, nodes, order, pListHead, pListTail, entries);
      nNextFreeElement := i;
      topped := false;
      entries := Renumbered(entries);
      Rehash();
    }

    /** The list threaded anew through a permutation of its nodes. */
    method Reorder(arTmp: seq<Ptr>, ghost perm: seq<nat>)
      requires Core() && |order| == |entries| > 0 && IsPermutation(perm, |entries|) && arTmp == Permuted(order, perm)
      modifies `nodes, `pListHead, `pListTail, `order, `entries
      ensures Core() && order == arTmp && entries == Permuted(old(entries), perm) && pListHead == At(order, 0)
    {
      hide ChainsOk, ListOk, Shown, Unique, Above, IsSize, Permuted, Live, ListLinked, IsPermutation;
      ghost var m := nodes;
      PermutedList(m, order, pListHead, pListTail, entries, perm, nNextFreeElement);
      Rethread(arTmp);
      PermutedOk(m, nodes, order, old(pListHead), old(pListTail), entries, perm, nTableSize, arBuckets[..], chains);
      order, entries := arTmp, Permuted(entries, perm);
    }

    /**
     zend_hash_sort. What the sort routine does to the array of nodes is a parameter: a permutation, chosen by what
     the nodes hold. One element is not sorted, and so not renumbered either.
     */
    method Sort(sorter: seq<Entry<V>> -> seq<nat>, renumber: bool)
      requires Valid() && IsPermutation(sorter(entries), |entries|) && |entries| < ULONG_RANGE
      modifies this, arBuckets
      ensures Valid() && released == old(released)
      ensures |old(entries)| <= 1 ==> entries == old(entries) && pos == old(pos)
      ensures |old(entries)| <= 1 ==> nNextFreeElement == old(nNextFreeElement) && topped == old(topped)
      ensures |old(entries)| > 1 ==> pos == 0 && entries == Sorted(old(entries), sorter(old(entries)), renumber)
      ensures |old(entries)| > 1 && renumber ==> nNextFreeElement == |entries| && !topped
      ensures |old(entries)| > 1 && !renumber ==> nNextFreeElement == old(nNextFreeElement) && topped == old(topped)
    {
      hide Core, Permuted, Renumbered, IsPermutation;
      ListShape(0);
      Counted();
      if nNumOfElements <= 1 {
        return;
      }
      var arTmp, es := Collect();
      var perm := sorter(es);
      Reorder(Permuted(arTmp, perm), perm);
      pInternalPointer, pos := pListHead, 0;
      if renumber {
        Renumber();
      }
    }

    lemma Counted()
      requires Core()
      ensures nNumOfElements == |entries|
    {
    }

    lemma Distinctly()
      requires Core()
      ensures Unique(entries)
    {
    }
  }
}
