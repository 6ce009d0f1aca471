/** The layout a hash table keeps its nodes in, and how each move on the nodes affects it. */
module HashLayout {
  import opened Buckets
  import opened Common
  import opened OrderedMap
  import opened NumericKeys

  // Collision chains

  /** One collision chain: linked in both directions from its slot, and of nodes that belong there. */
  ghost predicate ChainOk<V>(m: Nodes<V>, size: nat, n: nat, first: Ptr, s: seq<Ptr>)
    requires size > 0
  {
    Live(m, s) && ChainLinked(m, s) && first == At(s, 0) && forall p :: p in s ==> m[p].h % size == n
  }

  /** The chains partition the nodes of dom by hash value. */
  ghost predicate ChainsOk<V>(m: Nodes<V>, size: nat, slots: seq<Ptr>, chains: seq<seq<Ptr>>, dom: set<Ptr>) {
    && size > 0 && |slots| == size && |chains| == size
    && (forall n :: 0 <= n < size ==> ChainOk(m, size, n, slots[n], chains[n]))
    && (forall n, p :: 0 <= n < size && p in chains[n] ==> p in dom)
    && (forall p :: p in dom ==> p in m && p in chains[m[p].h % size])
  }

  /** A slot of the table leads to a node of its own chain. */
  lemma SlotIs<V>(m: Nodes<V>, size: nat, slots: seq<Ptr>, chains: seq<seq<Ptr>>, dom: set<Ptr>, n: nat)
    requires ChainsOk(m, size, slots, chains, dom) && n < size
    ensures slots[n] == At(chains[n], 0) && (slots[n] != NULL ==> slots[n] in m && slots[n] in dom && m[slots[n]].h % size == n)
    ensures Live(m, chains[n]) && ChainLinked(m, chains[n])
  {
    assert ChainOk(m, size, n, slots[n], chains[n]);
    AtIn(chains[n], 0);
  }

  lemma ChainsFrame<V>(m: Nodes<V>, r: Nodes<V>, size: nat, slots: seq<Ptr>, chains: seq<seq<Ptr>>, dom: set<Ptr>)
    requires ChainsOk(m, size, slots, chains, dom)
    requires forall p :: p in dom ==> p in r && r[p].h == m[p].h && r[p].pNext == m[p].pNext && r[p].pLast == m[p].pLast
    ensures ChainsOk(r, size, slots, chains, dom)
  {
    forall n | 0 <= n < size
      ensures ChainOk(r, size, n, slots[n], chains[n])
    {
      assert ChainOk(m, size, n, slots[n], chains[n]);
      ChainFrame(m, r, chains[n]);
    }
  }

  lemma ChainsPush<V>(m: Nodes<V>, size: nat, slots: seq<Ptr>, chains: seq<seq<Ptr>>, dom: set<Ptr>, p: Ptr)
    requires ChainsOk(m, size, slots, chains, dom) && p in m && p != NULL && p !in dom
    ensures var n := m[p].h % size;
      (slots[n] != NULL ==> slots[n] in m) &&
      ChainsOk(PushedFront(m, slots[n], p), size, slots[n := p], chains[n := [p] + chains[n]], dom + {p})
  {
    hide ChainOk, ChainLinked, Live, PushedFront;
    var n := m[p].h % size;
    SlotIs(m, size, slots, chains, dom, n);
    var r := PushedFront(m, slots[n], p);
    PushedFrontSame(m, slots[n], p);
    var slots1 := slots[n := p];
    var chains1 := chains[n := [p] + chains[n]];
    forall k | 0 <= k < size
      ensures ChainOk(r, size, k, slots1[k], chains1[k])
    {
      if k == n {
        PushedChainOk(m, size, n, slots[n], chains[n], p);
      } else {
        OtherChainOk(m, r, size, k, slots[k], chains[k], n, {p, slots[n]}, p);
      }
    }
  }

  lemma PushedChainOk<V>(m: Nodes<V>, size: nat, n: nat, first: Ptr, s: seq<Ptr>, p: Ptr)
    requires size > 0 && ChainOk(m, size, n, first, s) && p in m && p != NULL && p !in s && m[p].h % size == n
    ensures first != NULL ==> first in m
    ensures ChainOk(PushedFront(m, first, p), size, n, p, [p] + s)
  {
    PushedFrontLinked(m, s, p);
    PushedFrontSame(m, first, p);
  }

  /** A chain keeps its layout when only nodes of another chain, or p, are relinked. */
  lemma OtherChainOk<V>(m: Nodes<V>, r: Nodes<V>, size: nat, k: nat, first: Ptr, s: seq<Ptr>, n: nat, touched: set<Ptr>, p: Ptr)
    requires size > 0 && ChainOk(m, size, k, first, s) && k != n && p !in s && SameButChains(m, r)
    requires forall q :: q in touched && q in m && q != p && q != NULL ==> m[q].h % size == n
    requires forall q :: q in m && q !in touched ==> r[q] == m[q]
    ensures ChainOk(r, size, k, first, s)
  {
    ChainFrame(m, r, s);
  }

  lemma ChainsCut<V>(m: Nodes<V>, size: nat, slots: seq<Ptr>, chains: seq<seq<Ptr>>, dom: set<Ptr>, p: Ptr, k: nat)
    requires ChainsOk(m, size, slots, chains, dom) && p in dom && p in m
    requires var n := m[p].h % size; k < |chains[n]| && chains[n][k] == p
    ensures (m[p].pLast != NULL ==> m[p].pLast in m) && (m[p].pNext != NULL ==> m[p].pNext in m)
    ensures var n := m[p].h % size;
      (m[p].pLast == NULL <==> p == slots[n]) &&
      ChainsOk(ChainCut(m, p), size, slots[n := if p == slots[n] then m[p].pNext else slots[n]],
               chains[n := Without(chains[n], k)], dom - {p})
  {
    hide ChainOk, ChainLinked, Live, ChainCut, Without;
    var n := m[p].h % size;
    SlotIs(m, size, slots, chains, dom, n);
    assert ChainOk(m, size, n, slots[n], chains[n]);
    CutChainOk(m, size, n, slots[n], chains[n], k);
    var r := ChainCut(m, p);
    ChainCutSame(m, p);
    var slots1 := slots[n := if p == slots[n] then m[p].pNext else slots[n]];
    var chains1 := chains[n := Without(chains[n], k)];
    forall j | 0 <= j < size
      ensures ChainOk(r, size, j, slots1[j], chains1[j]) && p !in chains1[j] && forall q :: q in chains1[j] ==> q in chains[j]
    {
      if j == n {
        LiveWithout(m, chains[n], k);
      } else {
        NotIn(m, size, j, slots[j], chains[j], p);
        OtherChainOk(m, r, size, j, slots[j], chains[j], n, {m[p].pLast, m[p].pNext}, p);
      }
    }
    LiveWithout(m, chains[n], k);
  }

  lemma NotIn<V>(m: Nodes<V>, size: nat, j: nat, first: Ptr, s: seq<Ptr>, p: Ptr)
    requires size > 0 && ChainOk(m, size, j, first, s) && p in m && m[p].h % size != j
    ensures p !in s
  {
  }

  lemma CutChainOk<V>(m: Nodes<V>, size: nat, n: nat, first: Ptr, s: seq<Ptr>, k: nat)
    requires size > 0 && ChainOk(m, size, n, first, s) && k < |s|
    ensures var p := s[k];
      p in m && (m[p].pLast != NULL ==> m[p].pLast in m && m[m[p].pLast].h % size == n) &&
      (m[p].pNext != NULL ==> m[p].pNext in m && m[m[p].pNext].h % size == n) && (m[p].pLast == NULL <==> p == first) &&
      ChainOk(ChainCut(m, p), size, n, if p == first then m[p].pNext else first, Without(s, k))
  {
    ChainCutLinked(m, s, k);
    ChainCutSame(m, s[k]);
    LiveWithout(m, s, k);
    AtIn(s, k - 1);
    AtIn(s, k + 1);
  }

  lemma NoChains<V>(m: Nodes<V>, size: nat)
    requires size > 0
    ensures ChainsOk(m, size, seq(size, i => NULL), seq(size, i => []), {})
  {
    var chains: seq<seq<Ptr>> := seq(size, i => []);
    forall n | 0 <= n < size
      ensures ChainOk(m, size, n, NULL, chains[n])
    {
      assert chains[n] == [];
    }
  }

  // The list of all elements

  /** The list is linked in both directions, and holds every node. */
  ghost predicate ListOk<V>(m: Nodes<V>, order: seq<Ptr>, head: Ptr, tail: Ptr) {
    && Live(m, order) && ListLinked(m, order) && head == At(order, 0) && tail == At(order, |order| - 1)
    && forall p :: p in m ==> p in order
  }

  lemma ListPush<V>(m: Nodes<V>, order: seq<Ptr>, head: Ptr, tail: Ptr, p: Ptr, b: Bucket<V>)
    requires ListOk(m, order, head, tail) && p !in m && p != NULL
    ensures tail != NULL ==> tail in m
    ensures ListOk(Appended(m[p := b], tail, p), order + [p], if head == NULL then p else head, p)
  {
    var m1 := m[p := b];
    AtIn(order, |order| - 1);
    AtIn(order, 0);
    ListFrame(m, m1, order);
    AppendedLinked(m1, order, p);
    AppendedSame(m1, tail, p);
    forall q | q in m1
      ensures q in order + [p]
    {
    }
  }

  lemma ListRemove<V>(m: Nodes<V>, order: seq<Ptr>, head: Ptr, tail: Ptr, k: nat)
    requires ListOk(m, order, head, tail) && k < |order|
    ensures var p := order[k];
      p in m && (m[p].pListLast != NULL ==> m[p].pListLast in m) && (m[p].pListNext != NULL ==> m[p].pListNext in m) &&
      m[p].pListLast == At(order, k - 1) && m[p].pListNext == At(order, k + 1) &&
      ListOk(ListCut(m, p) - {p}, Without(order, k), if m[p].pListLast == NULL then m[p].pListNext else head,
             if m[p].pListNext == NULL then m[p].pListLast else tail)
  {
    hide ListCut, Without, ListLinked;
    var p := order[k];
    ListCutLinked(m, order, k);
    ListCutSame(m, p);
    LiveWithout(m, order, k);
    var r := ListCut(m, p);
    ListFrame(r, r - {p}, Without(order, k));
    EndsWithout(m, order, k);
    forall q | q in r - {p}
      ensures q in Without(order, k)
    {
    }
  }

  lemma EndsWithout<V>(m: Nodes<V>, s: seq<Ptr>, k: nat)
    requires Live(m, s) && k < |s|
    ensures At(s, k - 1) == NULL <==> k == 0
    ensures At(s, k + 1) == NULL <==> k == |s| - 1
    ensures At(Without(s, k), 0) == if k == 0 then At(s, 1) else s[0]
    ensures |Without(s, k)| == |s| - 1
    ensures At(Without(s, k), |s| - 2) == if k == |s| - 1 then At(s, k - 1) else s[|s| - 1]
  {
    assert k > 0 ==> s[k - 1] in s;
    assert k < |s| - 1 ==> s[k + 1] in s;
  }

  lemma ListOkFrame<V>(m: Nodes<V>, r: Nodes<V>, order: seq<Ptr>, head: Ptr, tail: Ptr)
    requires ListOk(m, order, head, tail) && r.Keys == m.Keys
    requires forall p :: p in m ==> r[p].pListNext == m[p].pListNext && r[p].pListLast == m[p].pListLast
    ensures ListOk(r, order, head, tail)
  {
    ListFrame(m, r, order);
  }

  // The elements

  /** What the nodes of s hold. */
  ghost predicate Shown<V>(m: Nodes<V>, s: seq<Ptr>, es: seq<Entry<V>>) {
    |es| == |s| && forall i :: 0 <= i < |s| ==> s[i] in m && es[i] == Entry(m[s[i]].h, m[s[i]].arKey, m[s[i]].pData)
  }

  lemma ShownFrame<V>(m: Nodes<V>, r: Nodes<V>, s: seq<Ptr>, es: seq<Entry<V>>)
    requires Shown(m, s, es)
    requires forall p :: p in s && p in m ==> p in r && r[p].h == m[p].h && r[p].arKey == m[p].arKey && r[p].pData == m[p].pData
    ensures Shown(r, s, es)
  {
  }

  lemma ShownPush<V>(m: Nodes<V>, s: seq<Ptr>, es: seq<Entry<V>>, p: Ptr)
    requires Shown(m, s, es) && p in m
    ensures Shown(m, s + [p], es + [Entry(m[p].h, m[p].arKey, m[p].pData)])
  {
  }

  lemma ShownDrop<V>(m: Nodes<V>, s: seq<Ptr>, es: seq<Entry<V>>, k: nat)
    requires Shown(m, s, es) && k < |s|
    ensures Shown(m, Without(s, k), Drop(es, k))
  {
    forall i | 0 <= i < |s| - 1
      ensures var t := Without(s, k); t[i] in m && Drop(es, k)[i] == Entry(m[t[i]].h, m[t[i]].arKey, m[t[i]].pData)
    {
      var j := if i < k then i else i + 1;
      assert Without(s, k)[i] == s[j] && Drop(es, k)[i] == es[j];
    }
  }

  lemma ShownSet<V>(m: Nodes<V>, s: seq<Ptr>, es: seq<Entry<V>>, k: nat, v: V)
    requires Live(m, s) && Shown(m, s, es) && k < |s|
    ensures Shown(m[s[k] := m[s[k]].(pData := v)], s, es[k := Entry(es[k].h, es[k].arKey, v)])
  {
  }

  /** Every integer key is below n. */
  ghost predicate Above<V>(es: seq<Entry<V>>, n: nat) {
    forall e :: e in es && e.arKey == "" ==> e.h < n
  }

  predicate Matches<V>(b: Bucket<V>, h: nat, arKey: string) { b.h == h && b.arKey == arKey }

  /** A key that is not on its chain is not in the table. */
  lemma NotOnChain<V>(m: Nodes<V>, size: nat, slots: seq<Ptr>, chains: seq<seq<Ptr>>, order: seq<Ptr>, es: seq<Entry<V>>,
                      h: nat, arKey: string)
    requires ChainsOk(m, size, slots, chains, m.Keys) && Shown(m, order, es)
    requires forall p :: p in chains[h % size] && p in m ==> !Matches(m[p], h, arKey)
    ensures Find(es, h, arKey) == |es|
  {
    forall e | e in es
      ensures !e.Is(h, arKey)
    {
      var i :| 0 <= i < |es| && es[i] == e;
      assert order[i] in m.Keys;
    }
    FindNone(es, h, arKey);
  }

  /** A node on a chain has a place on the list. */
  lemma PlaceOf<V>(m: Nodes<V>, order: seq<Ptr>, head: Ptr, tail: Ptr, es: seq<Entry<V>>, p: Ptr) returns (i: nat)
    requires ListOk(m, order, head, tail) && Shown(m, order, es) && Unique(es) && p in m
    ensures i < |order| && |es| == |order| && order[i] == p && es[i] == Entry(m[p].h, m[p].arKey, m[p].pData)
    ensures Find(es, m[p].h, m[p].arKey) == i
  {
    i :| 0 <= i < |order| && order[i] == p;
    FindIs(es, i, m[p].h, m[p].arKey);
  }

  /** The k-th node of a chain and the one after it. */
  lemma OnChain<V>(m: Nodes<V>, size: nat, slots: seq<Ptr>, chains: seq<seq<Ptr>>, n: nat, k: nat)
    requires ChainsOk(m, size, slots, chains, m.Keys) && n < size
    ensures slots[n] == At(chains[n], 0)
    ensures k < |chains[n]| ==> chains[n][k] in m && chains[n][k] != NULL && m[chains[n][k]].pNext == At(chains[n], k + 1)
  {
    assert ChainOk(m, size, n, slots[n], chains[n]);
  }

  /** Everything on the first k places of a chain fails to match. */
  ghost predicate NoneBefore<V>(m: Nodes<V>, s: seq<Ptr>, k: nat, h: nat, arKey: string) {
    forall j :: 0 <= j < k && j < |s| && s[j] in m ==> !Matches(m[s[j]], h, arKey)
  }

  lemma AllBefore<V>(m: Nodes<V>, s: seq<Ptr>, h: nat, arKey: string)
    requires NoneBefore(m, s, |s|, h, arKey)
    ensures forall p :: p in s && p in m ==> !Matches(m[p], h, arKey)
  {
  }

  lemma SizeOk<V>(m: Nodes<V>, size: nat, slots: seq<Ptr>, chains: seq<seq<Ptr>>)
    requires ChainsOk(m, size, slots, chains, m.Keys)
    ensures size > 0 && |slots| == size && |chains| == size
  {
  }

  lemma Unused(s: set<Ptr>)
    ensures exists p: Ptr :: p !in s
  {
    var p := Beyond(s);
    assert p !in s;
  }

  /** The list after a node has been chained and then appended to the list. m1 is m with the node p chained. */
  lemma LinkedList<V>(m: Nodes<V>, m1: Nodes<V>, order: seq<Ptr>, head: Ptr, tail: Ptr, p: Ptr, es: seq<Entry<V>>)
    requires ListOk(m, order, head, tail) && Shown(m, order, es) && p != NULL && p !in m && p in m1
    requires SameButChains(m[p := m1[p]], m1)
    ensures tail != NULL ==> tail in m1
    ensures var r := Appended(m1, tail, p);
      ListOk(r, order + [p], if head == NULL then p else head, p) &&
      Shown(r, order + [p], es + [Entry(m1[p].h, m1[p].arKey, m1[p].pData)]) && SameButList(m1, r)
  {
    hide ListLinked, Appended;
    AtIn(order, |order| - 1);
    var m2 := m1 - {p};
    ListOkFrame(m, m2, order, head, tail);
    ListPush(m2, order, head, tail, p, m1[p]);
    assert m2[p := m1[p]] == m1;
    AppendedSame(m1, tail, p);
    ShownFrame(m, m1, order, es);
    ShownPush(m1, order, es, p);
    ShownFrame(m1, Appended(m1, tail, p), order + [p], es + [Entry(m1[p].h, m1[p].arKey, m1[p].pData)]);
  }

  /** A new node b at address p: chained in front of first and appended behind tail. */
  function Inserted<V>(m: Nodes<V>, first: Ptr, tail: Ptr, p: Ptr, b: Bucket<V>): Nodes<V>
    requires (first != NULL ==> first in m) && (tail != NULL ==> tail in m)
  {
    Appended(PushedFront(m[p := b], first, p), tail, p)
  }

  lemma InsertedOk<V>(m: Nodes<V>, size: nat, slots: seq<Ptr>, chains: seq<seq<Ptr>>, order: seq<Ptr>, head: Ptr, tail: Ptr,
                      es: seq<Entry<V>>, p: Ptr, b: Bucket<V>)
    requires ChainsOk(m, size, slots, chains, m.Keys) && ListOk(m, order, head, tail) && Shown(m, order, es)
    requires p != NULL && p !in m
    ensures size > 0 && |slots| == |chains| == size && |order| == |es|
    ensures (slots[b.h % size] != NULL ==> slots[b.h % size] in m) && (tail != NULL ==> tail in m)
    ensures var n := b.h % size; var r := Inserted(m, slots[n], tail, p, b);
      ChainsOk(r, size, slots[n := p], chains[n := [p] + chains[n]], r.Keys) &&
      ListOk(r, order + [p], if head == NULL then p else head, p) && Shown(r, order + [p], es + [Entry(b.h, b.arKey, b.pData)])
  {
    hide ChainsOk, ListOk, Shown, PushedFront, Appended;
    SizeOk(m, size, slots, chains);
    var n := b.h % size;
    SlotIs(m, size, slots, chains, m.Keys, n);
    var m0 := m[p := b];
    ChainsFrame(m, m0, size, slots, chains, m.Keys);
    ChainsPush(m0, size, slots, chains, m.Keys, p);
    var m1 := PushedFront(m0, slots[n], p);
    PushedFrontSame(m0, slots[n], p);
    assert m0 == m[p := m0[p]];
    RenewedNode(m, m0, m1, p);
    LinkedList(m, m1, order, head, tail, p, es);
    var r := Appended(m1, tail, p);
    assert r.Keys == m.Keys + {p};
    ChainsFrame(m1, r, size, slots[n := p], chains[n := [p] + chains[n]], m.Keys + {p});
    ShownLength(m, order, es);
    ListTail(m, order, head, tail);
  }

  lemma RenewedNode<V>(m: Nodes<V>, m0: Nodes<V>, m1: Nodes<V>, p: Ptr)
    requires p !in m && p in m0 && m0 == m[p := m0[p]] && SameButChains(m0, m1)
    ensures p in m1 && SameButChains(m[p := m1[p]], m1)
    ensures m1[p].h == m0[p].h && m1[p].arKey == m0[p].arKey && m1[p].pData == m0[p].pData
  {
  }

  lemma ShownLength<V>(m: Nodes<V>, order: seq<Ptr>, es: seq<Entry<V>>)
    requires Shown(m, order, es)
    ensures |order| == |es|
  {
  }

  lemma ListTail<V>(m: Nodes<V>, order: seq<Ptr>, head: Ptr, tail: Ptr)
    requires ListOk(m, order, head, tail)
    ensures (tail != NULL ==> tail in m) && (head != NULL ==> head in m)
  {
    AtIn(order, |order| - 1);
    AtIn(order, 0);
  }

  // Rebuilding the chains

  /** The nodes on the first i places of the list. */
  ghost function Prefix(order: seq<Ptr>, i: nat): set<Ptr>
    requires i <= |order|
  {
    set p | p in order[..i]
  }

  /** One round of zend_hash_rehash: the i-th node of the list goes to the front of its chain. */
  lemma RehashStep<V>(m: Nodes<V>, size: nat, slots: seq<Ptr>, chains: seq<seq<Ptr>>, order: seq<Ptr>, head: Ptr, tail: Ptr,
                      es: seq<Entry<V>>, i: nat)
    requires ListOk(m, order, head, tail) && Shown(m, order, es) && i < |order|
    requires ChainsOk(m, size, slots, chains, Prefix(order, i))
    ensures order[i] in m && order[i] != NULL && size > 0 && |slots| == |chains| == size && m[order[i]].pListNext == At(order, i + 1)
    ensures var n := m[order[i]].h % size;
      (slots[n] != NULL ==> slots[n] in m) &&
      (var r := PushedFront(m, slots[n], order[i]);
      ListOk(r, order, head, tail) && Shown(r, order, es) && order[i] in r && r[order[i]].pListNext == At(order, i + 1) &&
      ChainsOk(r, size, slots[n := order[i]], chains[n := [order[i]] + chains[n]], Prefix(order, i + 1)))
  {
    hide PushedFront, ChainsOk, Shown;
    var p := order[i];
    PrefixNext(order, i);
    assert Distinct(order);
    SizesOf(m, size, slots, chains, Prefix(order, i));
    SlotIs(m, size, slots, chains, Prefix(order, i), m[p].h % size);
    ChainsPush(m, size, slots, chains, Prefix(order, i), p);
    var r := PushedFront(m, slots[m[p].h % size], p);
    PushedFrontSame(m, slots[m[p].h % size], p);
    ListOkFrame(m, r, order, head, tail);
    ShownFrame(m, r, order, es);
  }

  lemma SizesOf<V>(m: Nodes<V>, size: nat, slots: seq<Ptr>, chains: seq<seq<Ptr>>, dom: set<Ptr>)
    requires ChainsOk(m, size, slots, chains, dom)
    ensures size > 0 && |slots| == size && |chains| == size
  {
  }

  lemma PrefixNext(order: seq<Ptr>, i: nat)
    requires i < |order| && Distinct(order)
    ensures order[i] !in Prefix(order, i) && Prefix(order, i + 1) == Prefix(order, i) + {order[i]}
  {
    assert order[..i + 1] == order[..i] + [order[i]];
  }

  lemma PrefixAll<V>(m: Nodes<V>, order: seq<Ptr>, head: Ptr, tail: Ptr)
    requires ListOk(m, order, head, tail)
    ensures Prefix(order, |order|) == m.Keys
  {
    assert order[..|order|] == order;
  }

  // Taking a node out

  /** The node at p is taken off its chain and off the list, and freed. */
  function Deleted<V>(m: Nodes<V>, p: Ptr): Nodes<V>
    requires p in m && (m[p].pLast != NULL ==> m[p].pLast in m) && (m[p].pNext != NULL ==> m[p].pNext in m)
    requires (m[p].pListLast != NULL ==> m[p].pListLast in m) && (m[p].pListNext != NULL ==> m[p].pListNext in m)
  {
    var m1 := ChainCut(m, p);
    assert SameButChains(m, m1) by { ChainCutSame(m, p); }
    ListCut(m1, p) - {p}
  }

  lemma DeletedOk<V>(m: Nodes<V>, size: nat, slots: seq<Ptr>, chains: seq<seq<Ptr>>, order: seq<Ptr>, head: Ptr, tail: Ptr,
                     es: seq<Entry<V>>, i: nat, k: nat)
    requires ChainsOk(m, size, slots, chains, m.Keys) && ListOk(m, order, head, tail) && Shown(m, order, es) && i < |order|
    requires size > 0 && |chains| == size && order[i] in m
    requires k < |chains[m[order[i]].h % size]| && chains[m[order[i]].h % size][k] == order[i]
    ensures var p := order[i];
      p != NULL && (m[p].pLast != NULL ==> m[p].pLast in m) && (m[p].pNext != NULL ==> m[p].pNext in m) &&
      (m[p].pListLast != NULL ==> m[p].pListLast in m) && (m[p].pListNext != NULL ==> m[p].pListNext in m) &&
      m[p].pListNext == At(order, i + 1)
    ensures var p := order[i]; var n := m[p].h % size; var r := Deleted(m, p);
      |slots| == size && i < |es| && (m[p].pLast == NULL <==> p == slots[n]) &&
      ChainsOk(r, size, slots[n := if p == slots[n] then m[p].pNext else slots[n]], chains[n := Without(chains[n], k)], r.Keys) &&
      ListOk(r, Without(order, i), if m[p].pListLast == NULL then m[p].pListNext else head,
             if m[p].pListNext == NULL then m[p].pListLast else tail) &&
      Shown(r, Without(order, i), Drop(es, i))
  {
    hide ChainsOk, ListOk, Shown, ChainCut, ListCut, Without, Drop;
    var p := order[i];
    SizeOk(m, size, slots, chains);
    ShownLength(m, order, es);
    ChainsCut(m, size, slots, chains, m.Keys, p, k);
    var m1 := ChainCut(m, p);
    ChainCutSame(m, p);
    ListOkFrame(m, m1, order, head, tail);
    ListRemove(m1, order, head, tail, i);
    ShownFrame(m, m1, order, es);
    var m2 := ListCut(m1, p);
    ListCutSame(m1, p);
    var n := m[p].h % size;
    ShownFrame(m1, m2, order, es);
    ShownDrop(m2, order, es, i);
    LiveOrder(m, order, head, tail, i);
    ShownFrame(m2, m2 - {p}, Without(order, i), Drop(es, i));
    assert (m2 - {p}).Keys == m.Keys - {p};
    ChainsFrame(m1, m2 - {p}, size, slots[n := if p == slots[n] then m[p].pNext else slots[n]],
                chains[n := Without(chains[n], k)], m.Keys - {p});
  }

  lemma LiveOrder<V>(m: Nodes<V>, order: seq<Ptr>, head: Ptr, tail: Ptr, i: nat)
    requires ListOk(m, order, head, tail) && i < |order|
    ensures order[i] != NULL && order[i] !in Without(order, i)
  {
    LiveWithout(m, order, i);
  }

  // Changing the data of a node

  lemma DataSet<V>(m: Nodes<V>, size: nat, slots: seq<Ptr>, chains: seq<seq<Ptr>>, order: seq<Ptr>, head: Ptr, tail: Ptr,
                   es: seq<Entry<V>>, i: nat, v: V)
    requires ChainsOk(m, size, slots, chains, m.Keys) && ListOk(m, order, head, tail) && Shown(m, order, es) && i < |order|
    ensures order[i] in m && i < |es|
    ensures var r := m[order[i] := m[order[i]].(pData := v)];
      ChainsOk(r, size, slots, chains, r.Keys) && ListOk(r, order, head, tail) &&
      Shown(r, order, es[i := Entry(es[i].h, es[i].arKey, v)])
  {
    hide ChainsOk, ListLinked;
    var r := m[order[i] := m[order[i]].(pData := v)];
    assert r.Keys == m.Keys;
    ListOkFrame(m, r, order, head, tail);
    ChainsFrame(m, r, size, slots, chains, m.Keys);
    ShownSet(m, order, es, i, v);
  }

  // The internal pointer

  /** A new node takes the place of the internal pointer when that is NULL. */
  lemma CursorKept<V>(m: Nodes<V>, order: seq<Ptr>, head: Ptr, tail: Ptr, cursor: Ptr, pos: nat, p: Ptr)
    requires ListOk(m, order, head, tail) && pos <= |order| && cursor == At(order, pos)
    ensures (if cursor == NULL then p else cursor) == At(order + [p], pos)
  {
    assert pos < |order| ==> order[pos] in order;
  }

  lemma HeadIs<V>(m: Nodes<V>, order: seq<Ptr>, head: Ptr, tail: Ptr)
    requires ListOk(m, order, head, tail)
    ensures head == At(order, 0) && tail == At(order, |order| - 1) && (head == NULL <==> |order| == 0)
  {
    assert |order| > 0 ==> order[0] in order;
  }

  lemma NullAtEnd<V>(m: Nodes<V>, order: seq<Ptr>, head: Ptr, tail: Ptr, i: nat)
    requires ListOk(m, order, head, tail) && i <= |order|
    ensures At(order, i) == NULL <==> i == |order|
    ensures i < |order| ==> order[i] in m && m[order[i]].pListNext == At(order, i + 1) && m[order[i]].pListLast == At(order, i - 1)
  {
    assert i < |order| ==> order[i] in order;
  }

  lemma SameKeys<V>(es: seq<Entry<V>>, i: nat, v: V, n: nat)
    requires Unique(es) && i < |es|
    ensures var fs := es[i := Entry(es[i].h, es[i].arKey, v)]; Unique(fs) && (Above(es, n) ==> Above(fs, n))
  {
    var fs := es[i := Entry(es[i].h, es[i].arKey, v)];
    forall e | Above(es, n) && e in fs && e.arKey == ""
      ensures e.h < n
    {
      var j :| 0 <= j < |fs| && fs[j] == e;
      assert es[j] in es;
    }
  }

  /** A new string key does not concern the next free integer key. */
  lemma NamesOnly<V>(es: seq<Entry<V>>, h: nat, arKey: string, v: V, n: nat)
    requires arKey != ""
    ensures Above(es, n) ==> Above(es + [Entry(h, arKey, v)], n)
  {
  }

  /** The next free integer key is free. */
  lemma NextIsFree<V>(es: seq<Entry<V>>, n: nat)
    ensures Above(es, n) ==> Find(es, n, "") == |es|
  {
    var i := Find(es, n, "");
    assert i < |es| ==> es[i] in es;
  }

  /** The next free integer key after integer key h has been used. */
  lemma IndexAbove<V>(es: seq<Entry<V>>, h: nat, v: V, n: nat)
    requires Above(es, n)
    ensures Above(Put(es, h, "", v), if h >= n then h + 1 else n)
  {
    var fs := Put(es, h, "", v);
    forall e | e in fs && e.arKey == ""
      ensures e.h < if h >= n then h + 1 else n
    {
      var j :| 0 <= j < |fs| && fs[j] == e;
      assert j < |es| ==> es[j] in es;
    }
  }

  /** The internal pointer after the i-th node has gone: a pointer to it moves on to the next. */
  lemma CursorDropped<V>(m: Nodes<V>, order: seq<Ptr>, head: Ptr, tail: Ptr, cursor: Ptr, pos: nat, i: nat)
    requires ListOk(m, order, head, tail) && i < |order| && pos <= |order| && cursor == At(order, pos)
    ensures var pos1 := if pos > i then pos - 1 else pos;
      pos1 <= |Without(order, i)| &&
      (if cursor == order[i] then At(order, i + 1) else cursor) == At(Without(order, i), pos1)
  {
    hide Without, ListLinked;
    var pos1 := if pos > i then pos - 1 else pos;
    WithoutAt(order, i, pos1);
    assert order[i] in order;
    if pos < i {
      assert order[pos] != order[i];
    } else if i < pos < |order| {
      assert order[i] != order[pos];
    }
  }

  lemma WithoutAt(s: seq<Ptr>, k: nat, j: nat)
    requires k < |s|
    ensures |Without(s, k)| == |s| - 1 && At(Without(s, k), j) == if j < k then At(s, j) else At(s, j + 1)
  {
  }

  lemma NotOwnNeighbour<V>(m: Nodes<V>, order: seq<Ptr>, head: Ptr, tail: Ptr, i: nat)
    requires ListOk(m, order, head, tail) && i < |order|
    ensures var p := order[i]; p in m && m[p].pListLast != p && m[p].pListNext != p
  {
    assert order[i] in order;
    assert i > 0 ==> order[i - 1] != order[i];
    assert i < |order| - 1 ==> order[i] != order[i + 1];
  }

  lemma DropKeeps<V>(es: seq<Entry<V>>, i: nat, n: nat)
    requires Unique(es) && i < |es|
    ensures Unique(Drop(es, i)) && |Drop(es, i)| == |es| - 1 && (Above(es, n) ==> Above(Drop(es, i), n))
  {
    DropUnique(es, i);
    forall e | e in Drop(es, i)
      ensures e in es
    {
    }
  }

  // The test of zend_hash_del_key_or_index

  /** What the deletion takes for the key: any integer key h, or the key itself. */
  predicate Hit<V>(e: Entry<V>, h: nat, arKey: string) { e.h == h && (e.arKey == "" || e.arKey == arKey) }

  ghost predicate NoHitBefore<V>(m: Nodes<V>, s: seq<Ptr>, k: nat, h: nat, arKey: string) {
    forall j :: 0 <= j < k && j < |s| && s[j] in m ==> !(m[s[j]].h == h && (m[s[j]].arKey == "" || m[s[j]].arKey == arKey))
  }

  ghost predicate ShadowedOn<V>(m: Nodes<V>, s: seq<Ptr>, h: nat, arKey: string) {
    arKey != "" && exists k :: 0 <= k < |s| && s[k] in m && Matches(m[s[k]], h, "") && NoneBefore(m, s, k, h, arKey)
  }

  lemma ShadowedHit<V>(m: Nodes<V>, s: seq<Ptr>, k: nat, h: nat, arKey: string, es: seq<Entry<V>>, i: nat)
    requires k < |s| && s[k] in m && m[s[k]].h == h && (m[s[k]].arKey == "" || m[s[k]].arKey == arKey)
    requires NoHitBefore(m, s, k, h, arKey) && Unique(es)
    requires i < |es| && es[i].Is(m[s[k]].h, m[s[k]].arKey)
    ensures Hit(es[i], h, arKey)
    ensures Drop(es, i) == Remove(es, h, arKey) <==> !ShadowedOn(m, s, h, arKey)
  {
    FindIs(es, i, h, es[i].arKey);
    if es[i].arKey == arKey {
      assert forall j :: 0 <= j < |s| && s[j] in m && Matches(m[s[j]], h, "") && arKey != "" ==> k < j;
    } else {
      assert NoneBefore(m, s, k, h, arKey) && Matches(m[s[k]], h, "");
      DropLookup(es, i, h, "");
      RemoveLookup(es, h, arKey, h, "");
    }
  }

  lemma NoHits<V>(m: Nodes<V>, size: nat, slots: seq<Ptr>, chains: seq<seq<Ptr>>, order: seq<Ptr>, es: seq<Entry<V>>,
                  h: nat, arKey: string)
    requires ChainsOk(m, size, slots, chains, m.Keys) && Shown(m, order, es) && size > 0 && |chains| == size
    requires NoHitBefore(m, chains[h % size], |chains[h % size]|, h, arKey)
    ensures forall e :: e in es ==> !Hit(e, h, arKey)
    ensures Remove(es, h, arKey) == es && !ShadowedOn(m, chains[h % size], h, arKey)
  {
    forall e | e in es
      ensures !Hit(e, h, arKey)
    {
      var i :| 0 <= i < |es| && es[i] == e;
      assert order[i] in m.Keys;
    }
    FindNone(es, h, arKey);
  }

  lemma HitIsIndex<V>(es: seq<Entry<V>>, h: nat, gone: nat, ok: bool)
    requires Unique(es) && (ok ==> gone < |es| && Hit(es[gone], h, ""))
    requires !ok ==> forall e :: e in es ==> !Hit(e, h, "")
    ensures ok == Has(es, h, "") && (ok ==> gone == Find(es, h, ""))
  {
    if ok {
      FindIs(es, gone, h, "");
    } else {
      FindNone(es, h, "");
    }
  }

  /** Every string key is stored with its hash value, and none of them is a numeral. */
  ghost predicate Proper<V>(hash: string -> nat, es: seq<Entry<V>>) {
    forall e :: e in es && e.arKey != "" ==> Numeral(e.arKey).None? && e.h == hash(e.arKey)
  }

  /** The element of a key has been taken out, if there was one: what is left, what was destructed, and the position. */
  predicate TakenOut<V(==)>(es: seq<Entry<V>>, pos: nat, freed: seq<V>, h: nat, key: string, ok: bool, es1: seq<Entry<V>>, pos1: nat, freed1: seq<V>) {
    && ok == Has(es, h, key) && es1 == Remove(es, h, key) && freed1 == freed + Replaced(es, h, key)
    && pos1 == if ok && pos > Find(es, h, key) then pos - 1 else pos
  }

  /** An integer key that zend_hash_del takes for the string key asked for. */
  predicate InTheWay<V>(hash: string -> nat, es: seq<Entry<V>>, arKey: string) {
    arKey != "" && Numeral(arKey).None? && Has(es, hash(arKey), "")
  }

  lemma TakenIs<V>(es: seq<Entry<V>>, pos: nat, freed: seq<V>, i: nat, h: nat, key: string)
    requires Unique(es) && i < |es| && es[i].Is(h, key)
    ensures TakenOut(es, pos, freed, h, key, true, Drop(es, i), if pos > i then pos - 1 else pos, freed + [es[i].data])
  {
    FindIs(es, i, h, key);
  }

  /** What a hit amounts to: the element of the key, or that of an integer key in the way. */
  lemma HitTaken<V>(hash: string -> nat, es: seq<Entry<V>>, pos: nat, freed: seq<V>, arKey: string, ok: bool, gone: nat)
    requires Unique(es) && Proper(hash, es)
    requires var h := if Numeral(arKey).Some? then Numeral(arKey).value else hash(arKey);
      if ok then gone < |es| && Hit(es[gone], h, arKey) else forall e :: e in es ==> !Hit(e, h, arKey)
    ensures var es1 := if ok then Drop(es, gone) else es; var pos1 := if ok && pos > gone then pos - 1 else pos;
      var freed1 := if ok then freed + [es[gone].data] else freed; var (h, key) := StoredKey(hash, arKey);
      && (!InTheWay(hash, es, arKey) ==> TakenOut(es, pos, freed, h, key, ok, es1, pos1, freed1))
      && (InTheWay(hash, es, arKey) ==> TakenOut(es, pos, freed, h, key, ok, es1, pos1, freed1)
                                        || TakenOut(es, pos, freed, h, "", ok, es1, pos1, freed1))
      && (InTheWay(hash, es, arKey) && !Has(es, h, key) ==> TakenOut(es, pos, freed, h, "", ok, es1, pos1, freed1))
  {
    hide Unique, Drop, Remove, TakenOut;
    var (h, key) := StoredKey(hash, arKey);
    if ok {
      assert es[gone] in es;
      if es[gone].arKey == key {
        TakenIs(es, pos, freed, gone, h, key);
        FindIs(es, gone, h, key);
      } else {
        TakenIs(es, pos, freed, gone, h, "");
        FindIs(es, gone, h, "");
      }
    } else {
      FindNone(es, h, key);
      FindNone(es, h, "");
      NoneTaken(es, pos, freed, h, key);
    }
  }

  lemma NoneTaken<V>(es: seq<Entry<V>>, pos: nat, freed: seq<V>, h: nat, key: string)
    requires !Has(es, h, key)
    ensures TakenOut(es, pos, freed, h, key, false, es, pos, freed)
  {
  }

  /** A key that is not stored: all stays as it is exactly when nothing is in the way. */
  lemma WayTaken<V>(hash: string -> nat, es: seq<Entry<V>>, pos: nat, freed: seq<V>, arKey: string, ok: bool, es1: seq<Entry<V>>, pos1: nat, freed1: seq<V>)
    requires var (h, key) := StoredKey(hash, arKey);
      && !Has(es, h, key)
      && (InTheWay(hash, es, arKey) ==> TakenOut(es, pos, freed, h, "", ok, es1, pos1, freed1))
      && (!InTheWay(hash, es, arKey) ==> TakenOut(es, pos, freed, h, key, ok, es1, pos1, freed1))
    ensures es1 == es <==> !InTheWay(hash, es, arKey)
  {
    hide Find;
    var (h, key) := StoredKey(hash, arKey);
    if InTheWay(hash, es, arKey) {
      TakenOther(es, h, "");
    }
  }

  /** Taking out an element is not leaving everything as it is. */
  lemma TakenOther<V>(es: seq<Entry<V>>, h: nat, key: string)
    requires Has(es, h, key)
    ensures Remove(es, h, key) != es
  {
    assert |Remove(es, h, key)| == |es| - 1;
  }

  // Cleaning and applying

  /** The first i nodes of the list have been freed. */
  ghost predicate FreedUpTo<V>(m: Nodes<V>, r: Nodes<V>, order: seq<Ptr>, i: nat) {
    i <= |order| && r == m - Prefix(order, i)
  }

  lemma FreedNone<V>(m: Nodes<V>, order: seq<Ptr>)
    ensures FreedUpTo(m, m, order, 0)
  {
    assert Prefix(order, 0) == {};
  }

  lemma FreeNext<V>(m: Nodes<V>, r: Nodes<V>, order: seq<Ptr>, head: Ptr, tail: Ptr, es: seq<Entry<V>>, i: nat)
    requires ListOk(m, order, head, tail) && Shown(m, order, es) && FreedUpTo(m, r, order, i) && i < |order|
    ensures order[i] in r && r[order[i]].pListNext == At(order, i + 1) && (At(order, i + 1) == NULL <==> i + 1 == |order|)
    ensures |es| == |order| && Datas(es[..i + 1]) == Datas(es[..i]) + [r[order[i]].pData]
    ensures FreedUpTo(m, r - {order[i]}, order, i + 1)
  {
    hide FreedUpTo, Datas, ListLinked;
    NullAtEnd(m, order, head, tail, i);
    NullAtEnd(m, order, head, tail, i + 1);
    DatasNext(es, i);
    FreedOne(m, r, order, i);
  }

  lemma FreedOne<V>(m: Nodes<V>, r: Nodes<V>, order: seq<Ptr>, i: nat)
    requires Distinct(order) && FreedUpTo(m, r, order, i) && i < |order| && order[i] in m
    ensures order[i] in r && r[order[i]] == m[order[i]] && FreedUpTo(m, r - {order[i]}, order, i + 1)
  {
    hide Prefix;
    PrefixNext(order, i);
  }

  lemma AllFreed<V>(m: Nodes<V>, r: Nodes<V>, order: seq<Ptr>, head: Ptr, tail: Ptr)
    requires ListOk(m, order, head, tail) && FreedUpTo(m, r, order, |order|)
    ensures r == map[]
  {
    PrefixAll(m, order, head, tail);
  }

  lemma EmptyList<V>()
    ensures ListOk<V>(map[], [], NULL, NULL) && Shown<V>(map[], [], []) && Above<V>([], 0) && Unique<V>([])
  {
  }

  lemma ChainPlace<V>(m: Nodes<V>, size: nat, slots: seq<Ptr>, chains: seq<seq<Ptr>>, p: Ptr) returns (k: nat)
    requires ChainsOk(m, size, slots, chains, m.Keys) && p in m
    ensures size > 0 && |chains| == size && k < |chains[m[p].h % size]| && chains[m[p].h % size][k] == p
  {
    assert p in m.Keys;
    k :| 0 <= k < |chains[m[p].h % size]| && chains[m[p].h % size][k] == p;
  }

  // Threading the list anew

  lemma NothingLinked<V>(m: Nodes<V>)
    ensures Live(m, []) && ListLinked(m, [])
  {
  }

  lemma ThreadNext<V>(m: Nodes<V>, s: seq<Ptr>, j: nat)
    requires Live(m, s) && j < |s| && Live(m, s[..j]) && ListLinked(m, s[..j])
    ensures s[j] in m && s[j] != NULL && s[j] != At(s, j - 1) && At(s[..j], |s[..j]| - 1) == At(s, j - 1)
    ensures At(s, j - 1) != NULL ==> At(s, j - 1) in m
    ensures var r := Appended(m, At(s, j - 1), s[j]);
      Live(r, s) && Live(r, s[..j + 1]) && ListLinked(r, s[..j + 1]) && SameButList(m, r)
  {
    hide ListLinked, Appended;
    assert s[j] in s;
    assert s[j] !in s[..j];
    AppendedLinked(m, s[..j], s[j]);
    AppendedSame(m, At(s, j - 1), s[j]);
    assert s[..j + 1] == s[..j] + [s[j]];
  }

  /** The order of the two updates does not matter. */
  lemma AppendedOtherWay<V>(m: Nodes<V>, tail: Ptr, p: Ptr)
    requires p in m && (tail != NULL ==> tail in m) && tail != p
    ensures var m1 := if tail != NULL then m[tail := m[tail].(pListNext := p)] else m;
      m1[p := m1[p].(pListLast := tail, pListNext := NULL)] == Appended(m, tail, p)
  {
  }

  lemma PermutedList<V>(m: Nodes<V>, order: seq<Ptr>, head: Ptr, tail: Ptr, es: seq<Entry<V>>, perm: seq<nat>, n: nat)
    requires ListOk(m, order, head, tail) && Shown(m, order, es) && Unique(es) && IsPermutation(perm, |es|)
    ensures |order| == |es| && Live(m, Permuted(order, perm)) && Unique(Permuted(es, perm))
    ensures Above(es, n) ==> Above(Permuted(es, perm), n)
  {
    PermutedUnique(es, perm);
    var r := Permuted(order, perm);
    forall i, j | 0 <= i < j < |r|
      ensures r[i] != r[j]
    {
      assert perm[i] != perm[j] && r[i] == order[perm[i]] && r[j] == order[perm[j]];
      assert perm[i] < perm[j] || perm[j] < perm[i];
    }
    forall e | e in Permuted(es, perm)
      ensures e in es
    {
    }
  }

  /** The table with its list threaded anew, from m to r. */
  lemma PermutedOk<V>(m: Nodes<V>, r: Nodes<V>, order: seq<Ptr>, head: Ptr, tail: Ptr, es: seq<Entry<V>>, perm: seq<nat>,
                      size: nat, slots: seq<Ptr>, chains: seq<seq<Ptr>>)
    requires ListOk(m, order, head, tail) && Shown(m, order, es) && IsPermutation(perm, |es|) && |order| == |es|
    requires ChainsOk(m, size, slots, chains, m.Keys) && SameButList(m, r)
    requires Live(r, Permuted(order, perm)) && ListLinked(r, Permuted(order, perm))
    ensures var s := Permuted(order, perm);
      ListOk(r, s, At(s, 0), At(s, |s| - 1)) && Shown(r, s, Permuted(es, perm)) && ChainsOk(r, size, slots, chains, r.Keys)
  {
    hide ChainsOk, ListLinked;
    var s := Permuted(order, perm);
    assert r.Keys == m.Keys;
    ChainsFrame(m, r, size, slots, chains, m.Keys);
    forall p | p in r
      ensures p in s
    {
      var k :| 0 <= k < |order| && order[k] == p;
      assert k in perm;
      var i :| 0 <= i < |perm| && perm[i] == k;
      assert s[i] == p;
    }
    PermutedShown(m, r, order, es, perm);
  }

  lemma PermutedShown<V>(m: Nodes<V>, r: Nodes<V>, order: seq<Ptr>, es: seq<Entry<V>>, perm: seq<nat>)
    requires Shown(m, order, es) && SameButList(m, r) && IsPermutation(perm, |es|)
    ensures |order| == |es| && Shown(r, Permuted(order, perm), Permuted(es, perm))
  {
  }

  /** The first i nodes of the list have become integer keys 0, 1, ... */
  ghost predicate NumberedUpTo<V>(m: Nodes<V>, r: Nodes<V>, order: seq<Ptr>, i: nat) {
    r.Keys == m.Keys &&
    forall j :: 0 <= j < |order| && order[j] in m ==>
      r[order[j]] == if j < i then m[order[j]].(h := j, arKey := "") else m[order[j]]
  }

  lemma NumberNext<V>(m: Nodes<V>, r: Nodes<V>, order: seq<Ptr>, head: Ptr, tail: Ptr, i: nat)
    requires ListOk(m, order, head, tail) && NumberedUpTo(m, r, order, i) && i < |order|
    ensures order[i] in r && r[order[i]].pListNext == At(order, i + 1) && (At(order, i + 1) == NULL <==> i + 1 == |order|)
    ensures NumberedUpTo(m, r[order[i] := r[order[i]].(arKey := "", h := i)], order, i + 1)
  {
    hide ListLinked;
    NullAtEnd(m, order, head, tail, i);
    NullAtEnd(m, order, head, tail, i + 1);
    NumberedOne(m, r, order, i);
  }

  lemma NumberedOne<V>(m: Nodes<V>, r: Nodes<V>, order: seq<Ptr>, i: nat)
    requires Distinct(order) && NumberedUpTo(m, r, order, i) && i < |order| && order[i] in m
    ensures order[i] in r && r[order[i]].pListNext == m[order[i]].pListNext
    ensures NumberedUpTo(m, r[order[i] := r[order[i]].(arKey := "", h := i)], order, i + 1)
  {
    var r1 := r[order[i] := r[order[i]].(arKey := "", h := i)];
    forall j | 0 <= j < |order| && order[j] in m
      ensures r1[order[j]] == if j < i + 1 then m[order[j]].(h := j, arKey := "") else m[order[j]]
    {
      if j < i {
        assert order[j] != order[i];
      } else if j > i {
        assert order[i] != order[j];
      }
    }
  }

  lemma NumberedAll<V>(m: Nodes<V>, r: Nodes<V>, order: seq<Ptr>, head: Ptr, tail: Ptr, es: seq<Entry<V>>)
    requires ListOk(m, order, head, tail) && Shown(m, order, es) && NumberedUpTo(m, r, order, |order|)
    ensures ListOk(r, order, head, tail) && Shown(r, order, Renumbered(es))
    ensures Unique(Renumbered(es)) && Above(Renumbered(es), |es|) && |order| == |es| == |Renumbered(es)|
  {
    hide ListLinked;
    forall p | p in m
      ensures r[p].pListNext == m[p].pListNext && r[p].pListLast == m[p].pListLast
    {
      var k :| 0 <= k < |order| && order[k] == p;
    }
    ListOkFrame(m, r, order, head, tail);
  }
}
