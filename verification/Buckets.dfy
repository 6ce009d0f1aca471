/**
 The nodes of a hash table in memory. Every node is threaded onto two doubly linked lists at once: the collision
 chain of its slot in arBuckets, and the list of all elements in insertion order.
 */
module Buckets {

  type Ptr = nat

  const NULL: Ptr := 0

  /** arKey is empty in a node with an integer key (nKeyLength == 0). */
  datatype Bucket<V> = Bucket(h: nat, arKey: string, pData: V, pNext: Ptr, pLast: Ptr, pListNext: Ptr, pListLast: Ptr)

  type Nodes<V> = map<Ptr, Bucket<V>>

  function At(s: seq<Ptr>, i: int): Ptr { if 0 <= i < |s| then s[i] else NULL }

  ghost predicate Distinct(s: seq<Ptr>) { forall i, j :: 0 <= i < j < |s| ==> s[i] != s[j] }

  /** The addresses of s are those of live nodes, each occurring once. */
  ghost predicate Live<V>(m: Nodes<V>, s: seq<Ptr>) {
    Distinct(s) && forall p :: p in s ==> p in m && p != NULL
  }

  ghost predicate ChainLinked<V>(m: Nodes<V>, s: seq<Ptr>)
    requires Live(m, s)
  {
    forall i :: 0 <= i < |s| ==> m[s[i]].pNext == At(s, i + 1) && m[s[i]].pLast == At(s, i - 1)
  }

  ghost predicate ListLinked<V>(m: Nodes<V>, s: seq<Ptr>)
    requires Live(m, s)
  {
    forall i :: 0 <= i < |s| ==> m[s[i]].pListNext == At(s, i + 1) && m[s[i]].pListLast == At(s, i - 1)
  }

  /** The same nodes but for the links of the collision chains. */
  ghost predicate SameButChains<V>(m: Nodes<V>, r: Nodes<V>) {
    r.Keys == m.Keys && forall p :: p in m ==> r[p] == m[p].(pNext := r[p].pNext, pLast := r[p].pLast)
  }

  /** The same nodes but for the links of the list. */
  ghost predicate SameButList<V>(m: Nodes<V>, r: Nodes<V>) {
    r.Keys == m.Keys && forall p :: p in m ==> r[p] == m[p].(pListNext := r[p].pListNext, pListLast := r[p].pListLast)
  }

  function Without(s: seq<Ptr>, k: nat): seq<Ptr>
    requires k < |s|
  {
    s[..k] + s[k + 1..]
  }

  // Moves on the links

  /** CONNECT_TO_BUCKET_DLLIST */
  function PushedFront<V>(m: Nodes<V>, first: Ptr, p: Ptr): Nodes<V>
    requires p in m && (first != NULL ==> first in m)
  {
    var m1 := m[p := m[p].(pNext := first, pLast := NULL)];
    if first != NULL then m1[first := m1[first].(pLast := p)] else m1
  }

  /** The links of CONNECT_TO_GLOBAL_DLLIST */
  function Appended<V>(m: Nodes<V>, tail: Ptr, p: Ptr): Nodes<V>
    requires p in m && (tail != NULL ==> tail in m)
  {
    var m1 := m[p := m[p].(pListLast := tail, pListNext := NULL)];
    if tail != NULL then m1[tail := m1[tail].(pListNext := p)] else m1
  }

  /** The neighbours of p on its collision chain are linked to each other. */
  function ChainCut<V>(m: Nodes<V>, p: Ptr): Nodes<V>
    requires p in m && (m[p].pLast != NULL ==> m[p].pLast in m) && (m[p].pNext != NULL ==> m[p].pNext in m)
  {
    var m1 := if m[p].pLast != NULL then m[m[p].pLast := m[m[p].pLast].(pNext := m[p].pNext)] else m;
    if m1[p].pNext != NULL then m1[m1[p].pNext := m1[m1[p].pNext].(pLast := m1[p].pLast)] else m1
  }

  /** The neighbours of p on the list are linked to each other. */
  function ListCut<V>(m: Nodes<V>, p: Ptr): Nodes<V>
    requires p in m && (m[p].pListLast != NULL ==> m[p].pListLast in m) && (m[p].pListNext != NULL ==> m[p].pListNext in m)
  {
    var m1 := if m[p].pListLast != NULL then m[m[p].pListLast := m[m[p].pListLast].(pListNext := m[p].pListNext)] else m;
    if m1[p].pListNext != NULL then m1[m1[p].pListNext := m1[m1[p].pListNext].(pListLast := m1[p].pListLast)] else m1
  }

  lemma AtIn(s: seq<Ptr>, i: int)
    ensures At(s, i) != NULL ==> At(s, i) in s
  {
  }

  lemma LivePush<V>(m: Nodes<V>, s: seq<Ptr>, p: Ptr)
    requires Live(m, s) && p in m && p != NULL && p !in s
    ensures Live(m, [p] + s) && Live(m, s + [p])
  {
  }

  lemma LiveWithout<V>(m: Nodes<V>, s: seq<Ptr>, k: nat)
    requires Live(m, s) && k < |s|
    ensures Live(m, Without(s, k)) && s[k] !in Without(s, k)
    ensures forall p :: p in s && p != s[k] ==> p in Without(s, k)
    ensures forall p :: p in Without(s, k) ==> p in s
  {
    forall p | p in s && p != s[k]
      ensures p in Without(s, k)
    {
      var i :| 0 <= i < |s| && s[i] == p;
      assert Without(s, k)[if i < k then i else i - 1] == p;
    }
    forall p | p in Without(s, k)
      ensures p in s && p != s[k]
    {
      var i :| 0 <= i < |Without(s, k)| && Without(s, k)[i] == p;
      assert p == s[if i < k then i else i + 1];
    }
  }

  lemma PushedFrontLinked<V>(m: Nodes<V>, s: seq<Ptr>, p: Ptr)
    requires Live(m, s) && ChainLinked(m, s) && p in m && p != NULL && p !in s
    ensures At(s, 0) != NULL ==> At(s, 0) in m
    ensures var r := PushedFront(m, At(s, 0), p); Live(r, [p] + s) && ChainLinked(r, [p] + s)
  {
    var t := [p] + s;
    var r := PushedFront(m, At(s, 0), p);
    LivePush(m, s, p);
    forall i | 0 <= i < |t|
      ensures r[t[i]].pNext == At(t, i + 1) && r[t[i]].pLast == At(t, i - 1)
    {
      if i > 0 {
        assert t[i] == s[i - 1];
      }
    }
  }

  lemma PushedFrontSame<V>(m: Nodes<V>, first: Ptr, p: Ptr)
    requires p in m && (first != NULL ==> first in m)
    ensures SameButChains(m, PushedFront(m, first, p))
    ensures forall q :: q in m && q != p && q != first ==> PushedFront(m, first, p)[q] == m[q]
  {
  }

  lemma AppendedLinked<V>(m: Nodes<V>, s: seq<Ptr>, p: Ptr)
    requires Live(m, s) && ListLinked(m, s) && p in m && p != NULL && p !in s
    ensures At(s, |s| - 1) != NULL ==> At(s, |s| - 1) in m
    ensures var r := Appended(m, At(s, |s| - 1), p); Live(r, s + [p]) && ListLinked(r, s + [p])
  {
    var t := s + [p];
    var r := Appended(m, At(s, |s| - 1), p);
    LivePush(m, s, p);
    forall i | 0 <= i < |t|
      ensures r[t[i]].pListNext == At(t, i + 1) && r[t[i]].pListLast == At(t, i - 1)
    {
      AppendedAt(m, s, p, i);
    }
  }

  lemma AppendedAt<V>(m: Nodes<V>, s: seq<Ptr>, p: Ptr, i: nat)
    requires Live(m, s) && ListLinked(m, s) && p in m && p != NULL && p !in s && i <= |s|
    requires At(s, |s| - 1) != NULL ==> At(s, |s| - 1) in m
    ensures var t := s + [p]; var r := Appended(m, At(s, |s| - 1), p);
      t[i] in r && r[t[i]].pListNext == At(t, i + 1) && r[t[i]].pListLast == At(t, i - 1)
  {
    hide Live;
    var t := s + [p];
    LiveAt(m, s);
    if i < |s| - 1 {
      assert t[i] == s[i] && t[i + 1] == s[i + 1] && s[i] != s[|s| - 1];
    } else if i < |s| {
      assert t[i] == s[i] && t[i + 1] == p;
    }
  }

  lemma LiveAt<V>(m: Nodes<V>, s: seq<Ptr>)
    requires Live(m, s)
    ensures forall i :: 0 <= i < |s| ==> s[i] in m && s[i] != NULL
    ensures forall i :: 0 <= i < |s| - 1 ==> s[i] != s[|s| - 1]
  {
  }

  lemma AppendedSame<V>(m: Nodes<V>, tail: Ptr, p: Ptr)
    requires p in m && (tail != NULL ==> tail in m)
    ensures SameButList(m, Appended(m, tail, p))
  {
  }

  lemma ChainCutLinked<V>(m: Nodes<V>, s: seq<Ptr>, k: nat)
    requires Live(m, s) && ChainLinked(m, s) && k < |s|
    ensures m[s[k]].pLast == At(s, k - 1) && m[s[k]].pNext == At(s, k + 1)
    ensures (At(s, k - 1) != NULL ==> At(s, k - 1) in m) && (At(s, k + 1) != NULL ==> At(s, k + 1) in m)
    ensures var r := ChainCut(m, s[k]); Live(r, Without(s, k)) && ChainLinked(r, Without(s, k))
  {
    AtIn(s, k - 1);
    AtIn(s, k + 1);
    var t := Without(s, k);
    var r := ChainCut(m, s[k]);
    LiveWithout(m, s, k);
    forall i | 0 <= i < |t|
      ensures r[t[i]].pNext == At(t, i + 1) && r[t[i]].pLast == At(t, i - 1)
    {
      CutAt(s, k, i);
    }
  }

  /** Neighbours after a cut, in terms of neighbours before it. */
  lemma CutAt(s: seq<Ptr>, k: nat, i: nat)
    requires k < |s| && i < |s| - 1
    ensures var j := if i < k then i else i + 1;
      Without(s, k)[i] == s[j] &&
      At(Without(s, k), i + 1) == (if j + 1 == k then At(s, k + 1) else At(s, j + 1)) &&
      At(Without(s, k), i - 1) == (if j - 1 == k then At(s, k - 1) else At(s, j - 1))
  {
  }

  lemma ChainCutSame<V>(m: Nodes<V>, p: Ptr)
    requires p in m && (m[p].pLast != NULL ==> m[p].pLast in m) && (m[p].pNext != NULL ==> m[p].pNext in m)
    ensures SameButChains(m, ChainCut(m, p))
    ensures forall q :: q in m && q != m[p].pLast && q != m[p].pNext ==> ChainCut(m, p)[q] == m[q]
  {
  }

  lemma ListCutLinked<V>(m: Nodes<V>, s: seq<Ptr>, k: nat)
    requires Live(m, s) && ListLinked(m, s) && k < |s|
    ensures m[s[k]].pListLast == At(s, k - 1) && m[s[k]].pListNext == At(s, k + 1)
    ensures (At(s, k - 1) != NULL ==> At(s, k - 1) in m) && (At(s, k + 1) != NULL ==> At(s, k + 1) in m)
    ensures var r := ListCut(m, s[k]); Live(r, Without(s, k)) && ListLinked(r, Without(s, k))
  {
    AtIn(s, k - 1);
    AtIn(s, k + 1);
    var t := Without(s, k);
    var r := ListCut(m, s[k]);
    LiveWithout(m, s, k);
    forall i | 0 <= i < |t|
      ensures r[t[i]].pListNext == At(t, i + 1) && r[t[i]].pListLast == At(t, i - 1)
    {
      CutAt(s, k, i);
    }
  }

  lemma ListCutSame<V>(m: Nodes<V>, p: Ptr)
    requires p in m && (m[p].pListLast != NULL ==> m[p].pListLast in m) && (m[p].pListNext != NULL ==> m[p].pListNext in m)
    ensures SameButList(m, ListCut(m, p))
  {
  }

  /** Chains are not affected by anything but their own links. */
  lemma ChainFrame<V>(m: Nodes<V>, r: Nodes<V>, s: seq<Ptr>)
    requires Live(m, s) && ChainLinked(m, s)
    requires forall p :: p in s ==> p in r && r[p].pNext == m[p].pNext && r[p].pLast == m[p].pLast
    ensures Live(r, s) && ChainLinked(r, s)
  {
  }

  lemma ListFrame<V>(m: Nodes<V>, r: Nodes<V>, s: seq<Ptr>)
    requires Live(m, s) && ListLinked(m, s)
    requires forall p :: p in s ==> p in r && r[p].pListNext == m[p].pListNext && r[p].pListLast == m[p].pListLast
    ensures Live(r, s) && ListLinked(r, s)
  {
  }
}
