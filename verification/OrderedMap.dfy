/** What the hash table is for: a map that remembers the order in which its keys were entered. */
module OrderedMap {
  import opened Common

  /** An element under its key: an integer key has an empty arKey, a string key comes with its hash value. */
  datatype Entry<V> = Entry(h: nat, arKey: string, data: V) {
    predicate Is(h1: nat, key: string) { h == h1 && arKey == key }
  }

  ghost predicate Unique<V>(es: seq<Entry<V>>) {
    forall i, j :: 0 <= i < j < |es| ==> !es[j].Is(es[i].h, es[i].arKey)
  }

  /** The position of a key, the length if it is not there. */
  function Find<V>(es: seq<Entry<V>>, h: nat, key: string): (i: nat)
    ensures i <= |es| && (i < |es| ==> es[i].Is(h, key))
    ensures forall j :: 0 <= j < i ==> !es[j].Is(h, key)
  {
    if es == [] || es[0].Is(h, key) then 0 else 1 + Find(es[1..], h, key)
  }

  predicate Has<V>(es: seq<Entry<V>>, h: nat, key: string) { Find(es, h, key) < |es| }

  function Lookup<V>(es: seq<Entry<V>>, h: nat, key: string): Option<V> {
    var i := Find(es, h, key);
    if i < |es| then Some(es[i].data) else None
  }

  /** A key keeps its position when its value changes; a new key goes to the end. */
  function Put<V>(es: seq<Entry<V>>, h: nat, key: string, v: V): seq<Entry<V>> {
    var i := Find(es, h, key);
    if i < |es| then es[i := Entry(h, key, v)] else es + [Entry(h, key, v)]
  }

  function Drop<V>(es: seq<Entry<V>>, i: nat): seq<Entry<V>>
    requires i < |es|
  {
    es[..i] + es[i + 1..]
  }

  function Remove<V>(es: seq<Entry<V>>, h: nat, key: string): seq<Entry<V>> {
    var i := Find(es, h, key);
    if i < |es| then Drop(es, i) else es
  }

  /** The only position of a key. */
  lemma FindIs<V>(es: seq<Entry<V>>, i: nat, h: nat, key: string)
    requires Unique(es) && i < |es| && es[i].Is(h, key)
    ensures Find(es, h, key) == i
  {
  }

  lemma FindNone<V>(es: seq<Entry<V>>, h: nat, key: string)
    requires forall e :: e in es ==> !e.Is(h, key)
    ensures Find(es, h, key) == |es|
  {
  }

  lemma PutUnique<V>(es: seq<Entry<V>>, h: nat, key: string, v: V)
    requires Unique(es)
    ensures Unique(Put(es, h, key, v))
  {
  }

  lemma PutNew<V>(es: seq<Entry<V>>, h: nat, key: string, v: V)
    requires Unique(es) && Find(es, h, key) == |es|
    ensures Put(es, h, key, v) == es + [Entry(h, key, v)] && Unique(Put(es, h, key, v))
  {
    PutUnique(es, h, key, v);
  }

  lemma DropUnique<V>(es: seq<Entry<V>>, i: nat)
    requires Unique(es) && i < |es|
    ensures Unique(Drop(es, i))
  {
    var d := Drop(es, i);
    forall a, b | 0 <= a < b < |d|
      ensures !d[b].Is(d[a].h, d[a].arKey)
    {
      assert d[a] == es[if a < i then a else a + 1];
      assert d[b] == es[if b < i then b else b + 1];
    }
  }

  /** Put is a map update. */
  lemma PutLookup<V>(es: seq<Entry<V>>, h: nat, key: string, v: V, h1: nat, key1: string)
    requires Unique(es)
    ensures Lookup(Put(es, h, key, v), h1, key1) ==
      if h1 == h && key1 == key then Some(v) else Lookup(es, h1, key1)
  {
    var i := Find(es, h, key);
    var p := Put(es, h, key, v);
    PutUnique(es, h, key, v);
    if h1 == h && key1 == key {
      FindIs(p, i, h, key);
    } else {
      var j := Find(es, h1, key1);
      if j < |es| {
        assert p[j] == es[j];
        FindIs(p, j, h1, key1);
      } else {
        forall e | e in p
          ensures !e.Is(h1, key1)
        {
          var k :| 0 <= k < |p| && p[k] == e;
          assert k == i || e == es[k];
        }
        FindNone(p, h1, key1);
      }
    }
  }

  /** Remove takes its key out of the map and nothing else. */
  lemma RemoveLookup<V>(es: seq<Entry<V>>, h: nat, key: string, h1: nat, key1: string)
    requires Unique(es)
    ensures Lookup(Remove(es, h, key), h1, key1) ==
      if h1 == h && key1 == key then None else Lookup(es, h1, key1)
  {
    var i := Find(es, h, key);
    if i < |es| {
      DropLookup(es, i, h1, key1);
    }
  }

  lemma DropLookup<V>(es: seq<Entry<V>>, i: nat, h1: nat, key1: string)
    requires Unique(es) && i < |es|
    ensures Lookup(Drop(es, i), h1, key1) == if es[i].Is(h1, key1) then None else Lookup(es, h1, key1)
  {
    var d := Drop(es, i);
    DropUnique(es, i);
    var j := Find(es, h1, key1);
    if j < |es| && j != i {
      assert d[if j < i then j else j - 1] == es[j];
      FindIs(d, if j < i then j else j - 1, h1, key1);
    } else {
      forall e | e in d
        ensures !e.Is(h1, key1)
      {
        var k :| 0 <= k < |d| && d[k] == e;
        var l := if k < i then k else k + 1;
        assert e == es[l] && l != i;
      }
      FindNone(d, h1, key1);
    }
  }

  /** The value that entering a key displaces, if there is one. */
  function Replaced<V>(es: seq<Entry<V>>, h: nat, key: string): seq<V> {
    var i := Find(es, h, key);
    if i < |es| then [es[i].data] else []
  }

  lemma PutOld<V>(es: seq<Entry<V>>, h: nat, key: string, v: V)
    requires Has(es, h, key)
    ensures var i := Find(es, h, key);
      Put(es, h, key, v) == es[i := Entry(es[i].h, es[i].arKey, v)] && Replaced(es, h, key) == [es[i].data]
  {
  }

  lemma PutNewIs<V>(es: seq<Entry<V>>, h: nat, key: string, v: V)
    requires Find(es, h, key) == |es|
    ensures Put(es, h, key, v) == es + [Entry(h, key, v)] && Replaced(es, h, key) == []
  {
  }

  /** Entering a key under which there is something keeps the order of all keys; a new key comes last. */
  lemma PutOrder<V>(es: seq<Entry<V>>, h: nat, key: string, v: V, i: nat)
    requires i < |es|
    ensures var p := Put(es, h, key, v);
      && p[i].h == es[i].h && p[i].arKey == es[i].arKey && (!es[i].Is(h, key) ==> p[i] == es[i])
      && (Lookup(es, h, key).Some? ==> |p| == |es|)
      && (Lookup(es, h, key).None? ==> |p| == |es| + 1 && p[|es|] == Entry(h, key, v))
  {
  }

  /** The data in order. */
  function Datas<V>(es: seq<Entry<V>>): (ds: seq<V>)
    ensures |ds| == |es| && forall i :: 0 <= i < |es| ==> ds[i] == es[i].data
  {
    seq(|es|, i requires 0 <= i < |es| => es[i].data)
  }

  lemma DatasNext<V>(es: seq<Entry<V>>, i: nat)
    requires i < |es|
    ensures Datas(es[..i + 1]) == Datas(es[..i]) + [es[i].data]
  {
  }

  /** The elements whose data are not to be dropped, in their order. */
  function Survivors<V>(es: seq<Entry<V>>, drop: V -> bool): (r: seq<Entry<V>>)
    ensures |r| <= |es|
  {
    if es == [] then []
    else
      var r := Survivors(es[..|es| - 1], drop);
      if drop(es[|es| - 1].data) then r else r + [es[|es| - 1]]
  }

  /** What survives, element by element: exactly those not to be dropped, in the order they had. */
  lemma {:induction false} SurvivorsParts<V>(a: seq<Entry<V>>, b: seq<Entry<V>>, e: Entry<V>, drop: V -> bool)
    ensures Survivors([e], drop) == if drop(e.data) then [] else [e]
    ensures Survivors(a + b, drop) == Survivors(a, drop) + Survivors(b, drop)
    decreases |b|
  {
    assert [e][..0] == [];
    if b == [] {
      assert a + b == a;
    } else {
      assert (a + b)[..|a + b| - 1] == a + b[..|b| - 1];
      SurvivorsParts(a, b[..|b| - 1], e, drop);
    }
  }

  /** One round over the elements, cur being what has survived followed by what is still to come. */
  lemma ApplyStep<V>(es: seq<Entry<V>>, n: nat, drop: V -> bool, cur: seq<Entry<V>>)
    requires n < |es| && cur == Survivors(es[..n], drop) + es[n..]
    ensures Datas(es[..n + 1]) == Datas(es[..n]) + [es[n].data]
    ensures var i := |Survivors(es[..n], drop)|; var s := Survivors(es[..n + 1], drop);
      i < |cur| && cur[i] == es[n] && |s| == (if drop(es[n].data) then i else i + 1) &&
      (if drop(es[n].data) then Drop(cur, i) else cur) == s + es[n + 1..]
    ensures Datas(Survivors(es[..n + 1], x => !drop(x))) ==
      Datas(Survivors(es[..n], x => !drop(x))) + if drop(es[n].data) then [es[n].data] else []
  {
    assert es[..n + 1][..n] == es[..n];
    DatasNext(es, n);
  }

  lemma ApplyStart<V>(es: seq<Entry<V>>, drop: V -> bool)
    ensures Datas(es[..0]) == [] && Survivors(es[..0], drop) == [] && Survivors(es[..0], x => !drop(x)) == []
    ensures Datas<V>([]) == []
  {
  }

  lemma {:induction false} SurvivorsGrow<V>(es: seq<Entry<V>>, a: nat, b: nat, drop: V -> bool)
    requires a <= b <= |es|
    ensures |Survivors(es[..a], drop)| <= |Survivors(es[..b], drop)|
    decreases b
  {
    if a < b {
      SurvivorsGrow(es, a, b - 1, drop);
      assert es[..b][..b - 1] == es[..b - 1];
    }
  }

  /** After n rounds over the elements es: what is left and still to come, what has been released, and the cursor. */
  ghost predicate Midway<V>(es: seq<Entry<V>>, drop: V -> bool, n: nat, pos0: nat, released0: seq<V>,
                            cur: seq<Entry<V>>, released: seq<V>, pos: nat) {
    && n <= |es| && pos0 <= |es| && cur == Survivors(es[..n], drop) + es[n..]
    && released == released0 + Datas(Survivors(es[..n], x => !drop(x)))
    && pos == if pos0 <= n then |Survivors(es[..pos0], drop)| else |Survivors(es[..n], drop)| + pos0 - n
  }

  lemma MidwayNext<V>(es: seq<Entry<V>>, drop: V -> bool, n: nat, pos0: nat, released0: seq<V>,
                      cur: seq<Entry<V>>, released: seq<V>, pos: nat)
    requires Midway(es, drop, n, pos0, released0, cur, released, pos) && n < |es|
    ensures var i := |Survivors(es[..n], drop)|; var s := Survivors(es[..n + 1], drop);
      i < |cur| && cur[i] == es[n] && |s| == (if drop(es[n].data) then i else i + 1)
    ensures var i := |Survivors(es[..n], drop)|; var d := drop(es[n].data);
      Midway(es, drop, n + 1, pos0, released0, if d then Drop(cur, i) else cur,
             if d then released + [es[n].data] else released, if d && pos > i then pos - 1 else pos)
  {
    hide Survivors, Datas, Drop;
    ApplyStep(es, n, drop, cur);
    if pos0 <= n {
      SurvivorsGrow(es, pos0, n, drop);
    }
  }

  lemma MidwayLength<V>(es: seq<Entry<V>>, drop: V -> bool, n: nat, pos0: nat, released0: seq<V>,
                        cur: seq<Entry<V>>, released: seq<V>, pos: nat)
    requires Midway(es, drop, n, pos0, released0, cur, released, pos)
    ensures |cur| == |Survivors(es[..n], drop)| + |es| - n
  {
  }

  // Sorting

  predicate IsPermutation(perm: seq<nat>, n: nat) {
    && |perm| == n && (forall i :: 0 <= i < n ==> perm[i] < n)
    && (forall i, j :: 0 <= i < j < n ==> perm[i] != perm[j])
    && (forall k :: 0 <= k < n ==> k in perm)
  }

  function Permuted<T>(s: seq<T>, perm: seq<nat>): (r: seq<T>)
    requires IsPermutation(perm, |s|)
    ensures |r| == |s| && forall i :: 0 <= i < |s| ==> r[i] == s[perm[i]]
  {
    seq(|s|, i requires 0 <= i < |s| => s[perm[i]])
  }

  function Renumbered<V>(es: seq<Entry<V>>): (r: seq<Entry<V>>)
    ensures |r| == |es| && forall i :: 0 <= i < |es| ==> r[i] == Entry(i, "", es[i].data)
  {
    seq(|es|, i requires 0 <= i < |es| => Entry(i, "", es[i].data))
  }

  function Sorted<V>(es: seq<Entry<V>>, perm: seq<nat>, renumber: bool): seq<Entry<V>>
    requires IsPermutation(perm, |es|)
  {
    if renumber then Renumbered(Permuted(es, perm)) else Permuted(es, perm)
  }

  lemma PermutedUnique<V>(es: seq<Entry<V>>, perm: seq<nat>)
    requires Unique(es) && IsPermutation(perm, |es|)
    ensures Unique(Permuted(es, perm))
  {
    var r := Permuted(es, perm);
    forall i, j | 0 <= i < j < |r|
      ensures !r[j].Is(r[i].h, r[i].arKey)
    {
      assert perm[i] != perm[j];
      assert r[i] == es[perm[i]] && r[j] == es[perm[j]];
      assert perm[i] < perm[j] || perm[j] < perm[i];
    }
  }

  /** Sorting changes no lookup. */
  lemma PermutedLookup<V>(es: seq<Entry<V>>, perm: seq<nat>, h: nat, key: string)
    requires Unique(es) && IsPermutation(perm, |es|)
    ensures Lookup(Permuted(es, perm), h, key) == Lookup(es, h, key)
  {
    var r := Permuted(es, perm);
    PermutedUnique(es, perm);
    var i := Find(es, h, key);
    if i < |es| {
      assert i in perm;
      var j :| 0 <= j < |perm| && perm[j] == i;
      FindIs(r, j, h, key);
    } else {
      forall e | e in r
        ensures !e.Is(h, key)
      {
        var j :| 0 <= j < |r| && r[j] == e;
        assert e == es[perm[j]];
      }
      FindNone(r, h, key);
    }
  }

  /** After renumbering the keys are exactly 0, 1, ... in order. */
  lemma RenumberedLookup<V>(es: seq<Entry<V>>, h: nat, key: string)
    ensures Unique(Renumbered(es))
    ensures Lookup(Renumbered(es), h, key) == if key == "" && h < |es| then Some(es[h].data) else None
  {
    var r := Renumbered(es);
    if key == "" && h < |es| {
      FindIs(r, h, h, key);
    } else {
      FindNone(r, h, key);
    }
  }

  /** Sorting with and without renumbering: the data come in the new order, under their old keys or under 0, 1, ... */
  lemma SortedLookup<V>(es: seq<Entry<V>>, perm: seq<nat>, renumber: bool, h: nat, key: string)
    requires Unique(es) && IsPermutation(perm, |es|)
    ensures var s := Sorted(es, perm, renumber);
      && |s| == |es| && (forall i :: 0 <= i < |es| ==> s[i].data == es[perm[i]].data)
      && (!renumber ==> Lookup(s, h, key) == Lookup(es, h, key))
      && (renumber ==> Lookup(s, h, key) == if key == "" && h < |es| then Some(es[perm[h]].data) else None)
  {
    hide Lookup;
    PermutedLookup(es, perm, h, key);
    RenumberedLookup(Permuted(es, perm), h, key);
  }
}
