/** The operations of zend_hash.c that involve two tables, and whole runs of operations on one. */
module HashTableOps {
  import opened Common
  import opened OrderedMap
  import opened Buckets
  import opened HashLayout
  import opened NumericKeys
  import opened HashTables

  // Comparing

  /** memcmp on the keys of two nodes, which are of equal length when it is called. */
  function MemCmp(a: string, b: string): (r: int)
    requires |a| == |b|
    ensures r == 0 <==> a == b
  {
    if a == "" then 0
    else if a[0] != b[0] then a[0] as int - b[0] as int
    else
      assert a == [a[0]] + a[1..] && b == [b[0]] + b[1..];
      MemCmp(a[1..], b[1..])
  }

  /** Every element of es1 has its key in es2 as well, with data that compares equal. */
  predicate Matched<V>(es1: seq<Entry<V>>, es2: seq<Entry<V>>, compar: (V, V) -> int) {
    forall i :: 0 <= i < |es1| ==> MatchedAt(es1[i], es2, compar)
  }

  predicate MatchedAt<V>(e: Entry<V>, es2: seq<Entry<V>>, compar: (V, V) -> int) {
    Has(es2, e.h, e.arKey) && compar(e.data, Lookup(es2, e.h, e.arKey).value) == 0
  }

  /** Both have the same keys, and data that compares equal under each of them. */
  ghost predicate SameMap<V>(es1: seq<Entry<V>>, es2: seq<Entry<V>>, compar: (V, V) -> int) {
    (forall h, key :: Has(es1, h, key) <==> Has(es2, h, key)) && Matched(es1, es2, compar)
  }

  predicate SamePlace<V>(e1: Entry<V>, e2: Entry<V>, compar: (V, V) -> int) {
    e1.arKey == e2.arKey && (e1.arKey == "" ==> e1.h == e2.h) && compar(e1.data, e2.data) == 0
  }

  /** What the first element that is not matched makes the result: 1 if its key is missing, else what comparing its data says. */
  ghost predicate FirstUnmatched<V>(es1: seq<Entry<V>>, es2: seq<Entry<V>>, compar: (V, V) -> int, n: nat, result: int) {
    && n < |es1| && (forall i :: 0 <= i < n ==> MatchedAt(es1[i], es2, compar)) && !MatchedAt(es1[n], es2, compar)
    && result == if Has(es2, es1[n].h, es1[n].arKey) then compar(es1[n].data, Lookup(es2, es1[n].h, es1[n].arKey).value) else 1
  }

  /** What the first place at which two sequences differ makes the result: its keys come before its data. */
  ghost predicate FirstDifferent<V>(es1: seq<Entry<V>>, es2: seq<Entry<V>>, compar: (V, V) -> int, n: nat, result: int) {
    && n < |es1| && n < |es2| && (forall i :: 0 <= i < n ==> SamePlace(es1[i], es2[i], compar)) && !SamePlace(es1[n], es2[n], compar)
    && result ==
      if es1[n].arKey == "" && es2[n].arKey == "" && es1[n].h != es2[n].h then es1[n].h - es2[n].h
      else if |es1[n].arKey| != |es2[n].arKey| then |es1[n].arKey| - |es2[n].arKey|
      else if es1[n].arKey != es2[n].arKey then MemCmp(es1[n].arKey, es2[n].arKey)
      else compar(es1[n].data, es2[n].data)
  }

  /** memcmp decides by the first character at which its arguments differ. */
  lemma {:induction false} MemCmpFirst(a: string, b: string, k: nat)
    requires |a| == |b| && k < |a| && a[..k] == b[..k] && a[k] != b[k]
    ensures MemCmp(a, b) < 0 <==> a[k] < b[k]
    decreases k
  {
    if k > 0 {
      assert a[0] == a[..k][0] && b[0] == b[..k][0];
      assert a[1..][..k - 1] == a[..k][1..] && b[1..][..k - 1] == b[..k][1..];
      MemCmpFirst(a[1..], b[1..], k - 1);
    }
  }

  /** The same keys in the same order, with data that compares equal. */
  predicate SameSequence<V>(es1: seq<Entry<V>>, es2: seq<Entry<V>>, compar: (V, V) -> int) {
    |es1| == |es2| && forall i :: 0 <= i < |es1| ==> SamePlace(es1[i], es2[i], compar)
  }

  ghost function Keys<V>(es: seq<Entry<V>>): set<(nat, string)> { set i | 0 <= i < |es| :: (es[i].h, es[i].arKey) }

  lemma {:induction false} KeysCount<V>(es: seq<Entry<V>>)
    requires Unique(es)
    ensures |Keys(es)| == |es|
  {
    if es != [] {
      var n := |es| - 1;
      var init := es[..n];
      KeysCount(init);
      var k := (es[n].h, es[n].arKey);
      assert forall i :: 0 <= i < n ==> init[i] == es[i];
      assert k !in Keys(init);
      assert Keys(es) == Keys(init) + {k} by {
        forall x | x in Keys(es)
          ensures x in Keys(init) + {k}
        {
          var i :| 0 <= i < |es| && x == (es[i].h, es[i].arKey);
          assert i < n ==> init[i] == es[i];
        }
      }
    }
  }

  lemma KeysHas<V>(es: seq<Entry<V>>, h: nat, key: string)
    ensures (h, key) in Keys(es) <==> Has(es, h, key)
  {
    if (h, key) in Keys(es) {
      var i :| 0 <= i < |es| && (es[i].h, es[i].arKey) == (h, key);
      assert es[i].Is(h, key);
    }
  }

  lemma EqualBySize<T>(a: set<T>, b: set<T>)
    requires a <= b && |a| == |b|
    ensures a == b
  {
    assert b == a + (b - a);
  }

  /** Scanning the first table is enough, because the number of elements is the same. */
  lemma ScanningOneSide<V>(es1: seq<Entry<V>>, es2: seq<Entry<V>>, compar: (V, V) -> int)
    requires Unique(es1) && Unique(es2)
    ensures SameMap(es1, es2, compar) <==> |es1| == |es2| && Matched(es1, es2, compar)
  {
    KeysCount(es1);
    KeysCount(es2);
    if Matched(es1, es2, compar) {
      forall k | k in Keys(es1)
        ensures k in Keys(es2)
      {
        var i :| 0 <= i < |es1| && k == (es1[i].h, es1[i].arKey);
        assert MatchedAt(es1[i], es2, compar);
        KeysHas(es2, k.0, k.1);
      }
      if |es1| == |es2| {
        EqualBySize(Keys(es1), Keys(es2));
        forall h, key
          ensures Has(es1, h, key) <==> Has(es2, h, key)
        {
          KeysHas(es1, h, key);
          KeysHas(es2, h, key);
        }
      }
    }
    if SameMap(es1, es2, compar) {
      forall k | k in Keys(es2)
        ensures k in Keys(es1)
      {
        KeysHas(es1, k.0, k.1);
        KeysHas(es2, k.0, k.1);
      }
      assert Keys(es1) == Keys(es2);
    }
  }

  /** A proper key is looked up under itself. */
  lemma ProperKey<V>(hash: string -> nat, es: seq<Entry<V>>, i: nat)
    requires Proper(hash, es) && i < |es| && es[i].arKey != ""
    ensures StoredKey(hash, es[i].arKey) == (es[i].h, es[i].arKey)
  {
    assert es[i] in es;
  }

  /** zend_hash_compare, unordered */
  method CompareUnordered<V>(ht1: HashTable<V>, ht2: HashTable<V>, compar: (V, V) -> int) returns (result: int)
    requires ht1.Valid() && ht2.Valid() && ht1.hash == ht2.hash
    ensures Proper(ht1.hash, ht1.entries) ==> (result == 0 <==> SameMap(ht1.entries, ht2.entries, compar))
    ensures |ht1.entries| != |ht2.entries| ==> result == |ht1.entries| - |ht2.entries|
    ensures Proper(ht1.hash, ht1.entries) && |ht1.entries| == |ht2.entries| && result != 0 ==>
      exists n :: FirstUnmatched(ht1.entries, ht2.entries, compar, n, result)
  {
    hide HashTable<V>.Core, Proper, SameMap, StoredKey, Find;
    ht1.Counted();
    ht2.Counted();
    ht1.Distinctly();
    ht2.Distinctly();
    ScanningOneSide(ht1.entries, ht2.entries, compar);
    result := ht1.nNumOfElements - ht2.nNumOfElements;
    if result != 0 {
      return;
    }
    ghost var n := 0;
    var p1 := ht1.First();
    ht1.ListEnd(0);
    while p1 != NULL
      invariant n <= |ht1.entries| && p1 == At(ht1.order, n) && (p1 == NULL <==> n == |ht1.entries|)
      invariant Proper(ht1.hash, ht1.entries) ==> forall i :: 0 <= i < n ==> MatchedAt(ht1.entries[i], ht2.entries, compar)
      decreases |ht1.entries| - n
    {
      var h, arKey, v := ht1.Peek(p1, n);
      var pData2;
      if arKey == "" {
        pData2 := ht2.IndexFind(h);
      } else {
        pData2 := ht2.FindData(arKey);
        if Proper(ht1.hash, ht1.entries) {
          ProperKey(ht1.hash, ht1.entries, n);
        }
      }
      assert Proper(ht1.hash, ht1.entries) ==> pData2 == Lookup(ht2.entries, ht1.entries[n].h, ht1.entries[n].arKey);
      if pData2.None? {
        assert Proper(ht1.hash, ht1.entries) ==> FirstUnmatched(ht1.entries, ht2.entries, compar, n, 1);
        return 1;
      }
      result := compar(v, pData2.value);
      if result != 0 {
        assert Proper(ht1.hash, ht1.entries) ==> FirstUnmatched(ht1.entries, ht2.entries, compar, n, result);
        return;
      }
      p1 := ht1.Next(p1, n);
      n := n + 1;
      ht1.ListEnd(n);
    }
    result := 0;
  }

  /** zend_hash_compare, ordered */
  method CompareOrdered<V>(ht1: HashTable<V>, ht2: HashTable<V>, compar: (V, V) -> int) returns (result: int)
    requires ht1.Valid() && ht2.Valid()
    ensures result == 0 <==> SameSequence(ht1.entries, ht2.entries, compar)
    ensures |ht1.entries| != |ht2.entries| ==> result == |ht1.entries| - |ht2.entries|
    ensures |ht1.entries| == |ht2.entries| && result != 0 ==> exists n :: FirstDifferent(ht1.entries, ht2.entries, compar, n, result)
  {
    hide HashTable<V>.Core;
    ht1.Counted();
    ht2.Counted();
    result := ht1.nNumOfElements - ht2.nNumOfElements;
    if result != 0 {
      return;
    }
    ghost var n := 0;
    var p1 := ht1.First();
    var p2 := ht2.First();
    ht1.ListEnd(0);
    ht2.ListEnd(0);
    while p1 != NULL
      invariant n <= |ht1.entries| == |ht2.entries| && p1 == At(ht1.order, n) && p2 == At(ht2.order, n)
      invariant (p1 == NULL <==> n == |ht1.entries|) && (p2 == NULL <==> n == |ht2.entries|)
      invariant forall i :: 0 <= i < n ==> SamePlace(ht1.entries[i], ht2.entries[i], compar)
      decreases |ht1.entries| - n
    {
      var h1, arKey1, v1 := ht1.Peek(p1, n);
      var h2, arKey2, v2 := ht2.Peek(p2, n);
      if arKey1 == "" && arKey2 == "" {
        result := h1 as int - h2 as int;
      } else {
        result := |arKey1| - |arKey2|;
        if result == 0 {
          result := MemCmp(arKey1, arKey2);
        }
      }
      if result == 0 {
        result := compar(v1, v2);
      }
      if result != 0 {
        assert !SamePlace(ht1.entries[n], ht2.entries[n], compar);
        assert FirstDifferent(ht1.entries, ht2.entries, compar, n, result);
        return;
      }
      p1 := ht1.Next(p1, n);
      p2 := ht2.Next(p2, n);
      n := n + 1;
      ht1.ListEnd(n);
      ht2.ListEnd(n);
    }
    result := 0;
  }

  // Merging

  /** The key an element of another table is entered under. */
  function EnteredKey<V>(hash: string -> nat, e: Entry<V>): (nat, string) {
    if e.arKey != "" then StoredKey(hash, e.arKey) else (e.h, "")
  }

  function Absorbed<V>(hash: string -> nat, es: seq<Entry<V>>, e: Entry<V>, overwrite: bool): seq<Entry<V>> {
    var (h, key) := EnteredKey(hash, e);
    if overwrite || !Has(es, h, key) then Put(es, h, key, e.data) else es
  }

  /** The elements of src entered one after the other. */
  function Merged<V>(hash: string -> nat, es: seq<Entry<V>>, src: seq<Entry<V>>, overwrite: bool): seq<Entry<V>>
    decreases |src|
  {
    if src == [] then es
    else Absorbed(hash, Merged(hash, es, src[..|src| - 1], overwrite), src[|src| - 1], overwrite)
  }

  lemma MergedNext<V>(hash: string -> nat, es: seq<Entry<V>>, src: seq<Entry<V>>, n: nat, overwrite: bool)
    requires n < |src|
    ensures Merged(hash, es, src[..n + 1], overwrite) == Absorbed(hash, Merged(hash, es, src[..n], overwrite), src[n], overwrite)
  {
    assert src[..n + 1][..n] == src[..n];
  }

  /** One element of the source entered into the target. */
  method MergeOne<V>(target: HashTable<V>, h: nat, arKey: string, v: V, overwrite: bool)
    requires target.Valid()
    modifies target, target.arBuckets
    ensures target.Valid() && (target.arBuckets == old(target.arBuckets) || fresh(target.arBuckets))
    ensures target.entries == Absorbed(target.hash, old(target.entries), Entry(h, arKey, v), overwrite)
  {
    hide HashTable<V>.Valid, StoredKey, Find, Put;
    if arKey != "" {
      var ok := target.AddOrUpdate(arKey, v, !overwrite);
    } else {
      var exists_ := false;
      if !overwrite {
        exists_ := target.IndexExists(h);
      }
      if overwrite || !exists_ {
        var ok := target.IndexUpdateOrNextInsert(h, v, Update);
      }
    }
  }

  /** zend_hash_merge; with overwrite, also zend_hash_copy */
  method Merge<V>(target: HashTable<V>, source: HashTable<V>, overwrite: bool)
    requires target.Valid() && source.Valid() && target != source && target.arBuckets != source.arBuckets
    modifies target, target.arBuckets
    ensures target.Valid() && target.pos == 0 && (target.arBuckets == old(target.arBuckets) || fresh(target.arBuckets))
    ensures target.entries == Merged(target.hash, old(target.entries), source.entries, overwrite)
  {
    hide HashTable<V>.Valid, Absorbed, Merged;
    ghost var n := 0;
    var p := source.First();
    source.ListEnd(0);
    MergedNone(target.hash, target.entries, source.entries, overwrite);
    while p != NULL
      invariant target.Valid() && source.Valid() && target.arBuckets != source.arBuckets
      invariant target.arBuckets == old(target.arBuckets) || fresh(target.arBuckets)
      invariant n <= |source.entries| && p == At(source.order, n) && (p == NULL <==> n == |source.entries|)
      invariant target.entries == Merged(target.hash, old(target.entries), source.entries[..n], overwrite)
      decreases |source.entries| - n
    {
      var h, arKey, v := source.Peek(p, n);
      MergedNext(target.hash, old(target.entries), source.entries, n, overwrite);
      MergeOne(target, h, arKey, v, overwrite);
      p := source.Next(p, n);
      n := n + 1;
      source.ListEnd(n);
    }
    assert source.entries[..n] == source.entries;
    target.PointerReset();
  }

  lemma MergedNone<V>(hash: string -> nat, es: seq<Entry<V>>, src: seq<Entry<V>>, overwrite: bool)
    ensures Merged(hash, es, src[..0], overwrite) == es
  {
  }

  // Deleting a string key while an integer key equals its hash value

  /** The only element stored is hit, although the key asked for is another. */
  lemma OnlyInTheWay<V>(hash: string -> nat, key: string, v: V)
    requires key != "" && Numeral(key).None?
    ensures Put([], hash(key), "", v) == [Entry(hash(key), "", v)] && Replaced<V>([], hash(key), "") == []
    ensures var es := [Entry(hash(key), "", v)];
      Proper(hash, es) && InTheWay(hash, es, key) && !Has(es, hash(key), key) &&
      Remove(es, hash(key), "") == [] && Replaced(es, hash(key), "") == [v] && Remove(es, hash(key), key) == es
  {
  }

  /**
   Whatever the hash function, and for every string key that is not a numeral: the key is not stored, and deleting it
   takes out an element with another key.
   */
  method DeletesAnother<V>(hash: string -> nat, key: string, v: V) returns (t: HashTable<V>, ok: bool, ghost before: seq<Entry<V>>)
    requires key != "" && Numeral(key).None?
    ensures before == [Entry(hash(key), "", v)] && !Has(before, hash(key), key)
    ensures t.Valid() && fresh(t) && t.hash == hash && ok && t.entries == [] && t.released == [v]
  {
    hide HashTable<V>.Valid, HashTable<V>.Shadowed, Put, Remove, Replaced, Has, Find, Numeral;
    t := new HashTable<V>(8, hash);
    OnlyInTheWay(hash, key, v);
    var stored := t.IndexUpdateOrNextInsert(hash(key), v, Update);
    before := t.entries;
    ok := t.Del(key);
  }

  // Runs

  /** What a table stores, the next integer key it will choose, and the position of its internal pointer. */
  datatype Model<V> = Model(es: seq<Entry<V>>, next: nat, pos: nat)

  datatype Op<V> =
    | Store(key: string, v: V, add: bool)
    | StoreAt(h: nat, v: V, mode: Mode)
    | Delete(key: string)
    | DeleteAt(h: nat)
    | CleanAll

  function PutIndex<V>(m: Model<V>, h: nat, v: V, mode: Mode): Model<V> {
    if mode.Update? || !Has(m.es, h, "")
    then Model(Put(m.es, h, "", v), if h >= m.next then (h + 1) % ULONG_RANGE else m.next, m.pos)
    else m
  }

  function Taken<V>(m: Model<V>, h: nat, key: string): Model<V> {
    m.(es := Remove(m.es, h, key), pos := if Has(m.es, h, key) && m.pos > Find(m.es, h, key) then m.pos - 1 else m.pos)
  }

  /** The effect of an operation on an insertion-ordered map. */
  function Effect<V>(hash: string -> nat, m: Model<V>, op: Op<V>): Model<V> {
    match op
    case Store(key, v, add) =>
      if key == "" then m
      else if Numeral(key).Some? then PutIndex(m, Numeral(key).value, v, if add then Add else Update)
      else if add && Has(m.es, hash(key), key) then m
      else m.(es := Put(m.es, hash(key), key, v))
    case StoreAt(h, v, mode) => PutIndex(m, if mode.NextInsert? then m.next else h, v, mode)
    case Delete(key) => Taken(m, StoredKey(hash, key).0, StoredKey(hash, key).1)
    case DeleteAt(h) => Taken(m, h, "")
    case CleanAll => Model([], 0, 0)
  }

  /** Whether a store does anything, and under which key. */
  function Stores<V>(hash: string -> nat, m: Model<V>, op: Op<V>): bool {
    match op
    case Store(key, _, add) => key != "" && !(add && Has(m.es, StoredKey(hash, key).0, StoredKey(hash, key).1))
    case StoreAt(h, _, mode) => mode.Update? || !Has(m.es, if mode.NextInsert? then m.next else h, "")
    case _ => false
  }

  function OpKey<V>(hash: string -> nat, m: Model<V>, op: Op<V>): (nat, string) {
    match op
    case Store(key, _, _) => StoredKey(hash, key)
    case StoreAt(h, _, mode) => (if mode.NextInsert? then m.next else h, "")
    case Delete(key) => StoredKey(hash, key)
    case DeleteAt(h) => (h, "")
    case CleanAll => (0, "")
  }

  /** The data that an operation enters, and the data that it has destructed. */
  function Entered<V>(hash: string -> nat, m: Model<V>, op: Op<V>): seq<V> {
    if (op.Store? || op.StoreAt?) && Stores(hash, m, op) then [op.v] else []
  }

  function Freed<V>(hash: string -> nat, m: Model<V>, op: Op<V>): seq<V> {
    if op.CleanAll? then Datas(m.es)
    else if op.Delete? || op.DeleteAt? || Stores(hash, m, op) then Replaced(m.es, OpKey(hash, m, op).0, OpKey(hash, m, op).1)
    else []
  }

  function Effects<V>(hash: string -> nat, m: Model<V>, ops: seq<Op<V>>): Model<V>
    decreases |ops|
  {
    if ops == [] then m else Effect(hash, Effects(hash, m, ops[..|ops| - 1]), ops[|ops| - 1])
  }

  function AllEntered<V>(hash: string -> nat, m: Model<V>, ops: seq<Op<V>>): seq<V>
    decreases |ops|
  {
    if ops == [] then [] else
      AllEntered(hash, m, ops[..|ops| - 1]) + Entered(hash, Effects(hash, m, ops[..|ops| - 1]), ops[|ops| - 1])
  }

  function AllFreed<V>(hash: string -> nat, m: Model<V>, ops: seq<Op<V>>): seq<V>
    decreases |ops|
  {
    if ops == [] then [] else
      AllFreed(hash, m, ops[..|ops| - 1]) + Freed(hash, Effects(hash, m, ops[..|ops| - 1]), ops[|ops| - 1])
  }

  /** What an operation does to the lookup of any key. */
  lemma EffectLookup<V>(hash: string -> nat, m: Model<V>, op: Op<V>, h: nat, key: string)
    requires Unique(m.es)
    ensures var was, now := Lookup(m.es, h, key), Lookup(Effect(hash, m, op).es, h, key);
      match op
      case Store(k, v, add) => now == if k != "" && (h, key) == StoredKey(hash, k) && (!add || was.None?) then Some(v) else was
      case StoreAt(i, v, Update) => now == if (h, key) == (i, "") then Some(v) else was
      case StoreAt(i, v, Add) => now == if (h, key) == (i, "") && was.None? then Some(v) else was
      case StoreAt(_, v, NextInsert) => now == if (h, key) == (m.next, "") && was.None? then Some(v) else was
      case Delete(k) => now == if (h, key) == StoredKey(hash, k) then None else was
      case DeleteAt(i) => now == if (h, key) == (i, "") then None else was
      case CleanAll => now == None
  {
    hide Put, Remove, Find, Unique, Numeral;
    var (h1, k1) := OpKey(hash, m, op);
    if op.Store? || op.StoreAt? {
      PutLookup(m.es, h1, k1, op.v, h, key);
      HasIsLookup(m.es, h1, k1);
    } else if op.Delete? || op.DeleteAt? {
      RemoveLookup(m.es, h1, k1, h, key);
    } else {
      NothingLooked<V>(h, key);
    }
  }

  lemma HasIsLookup<V>(es: seq<Entry<V>>, h: nat, key: string)
    ensures Has(es, h, key) <==> Lookup(es, h, key).Some?
  {
  }

  lemma NothingLooked<V>(h: nat, key: string)
    ensures Lookup<V>([], h, key) == None
  {
  }

  /** The key that a next-insert chooses: one more than the greatest integer key used before. */
  lemma NextKey<V>(hash: string -> nat, m: Model<V>, h: nat, v: V)
    requires h + 1 < ULONG_RANGE
    ensures Effect(hash, m, StoreAt(h, v, Update)).next == if h < m.next then m.next else h + 1
    ensures m.next + 1 < ULONG_RANGE && !Has(m.es, m.next, "") ==> Effect(hash, m, StoreAt(h, v, NextInsert)).next == m.next + 1
  {
  }

  function Appends<V>(vs: seq<V>): seq<Op<V>> { seq(|vs|, i requires 0 <= i < |vs| => StoreAt(0, vs[i], NextInsert)) }

  /** Values appended to an empty table come to stand under 0, 1, 2 and so on. */
  lemma {:induction false} Appended<V>(hash: string -> nat, vs: seq<V>)
    requires |vs| < ULONG_RANGE
    ensures var m := Effects(hash, Model([], 0, 0), Appends(vs));
      |m.es| == |vs| == m.next && forall i :: 0 <= i < |vs| ==> m.es[i] == Entry(i, "", vs[i])
    decreases |vs|
  {
    if vs != [] {
      var init := vs[..|vs| - 1];
      assert Appends(vs)[..|vs| - 1] == Appends(init);
      Appended(hash, init);
      var m := Effects(hash, Model([], 0, 0), Appends(init));
      FindNone(m.es, m.next, "");
    }
  }

  lemma DatasDrop<V>(es: seq<Entry<V>>, i: nat)
    requires i < |es|
    ensures multiset(Datas(es)) == multiset(Datas(Drop(es, i))) + multiset{es[i].data}
  {
    var ds := Datas(es);
    assert Datas(Drop(es, i)) == ds[..i] + ds[i + 1..];
    assert ds == ds[..i] + [ds[i]] + ds[i + 1..];
  }

  lemma DatasPut<V>(es: seq<Entry<V>>, h: nat, key: string, v: V)
    ensures multiset(Datas(Put(es, h, key, v))) + multiset(Replaced(es, h, key)) == multiset(Datas(es)) + multiset{v}
  {
    var i := Find(es, h, key);
    if i < |es| {
      assert Datas(Put(es, h, key, v)) == Datas(es)[i := v];
    } else {
      assert Datas(Put(es, h, key, v)) == Datas(es) + [v];
    }
  }

  lemma DatasRemove<V>(es: seq<Entry<V>>, h: nat, key: string)
    ensures multiset(Datas(Remove(es, h, key))) + multiset(Replaced(es, h, key)) == multiset(Datas(es))
  {
    if Has(es, h, key) {
      DatasDrop(es, Find(es, h, key));
    }
  }

  lemma EffectBalance<V>(hash: string -> nat, m: Model<V>, op: Op<V>)
    ensures multiset(Datas(Effect(hash, m, op).es)) + multiset(Freed(hash, m, op))
      == multiset(Datas(m.es)) + multiset(Entered(hash, m, op))
  {
    hide Datas, Put, Remove, Find, Replaced, Has, Numeral;
    var (h, key) := OpKey(hash, m, op);
    match op {
      case Store(_, v, _) => DatasPut(m.es, h, key, v);
      case StoreAt(_, v, _) => DatasPut(m.es, h, key, v);
      case Delete(_) => DatasRemove(m.es, h, key);
      case DeleteAt(_) => DatasRemove(m.es, h, key);
      case CleanAll => NoDatas<V>();
    }
  }

  lemma Balanced<V>(d0: multiset<V>, d1: multiset<V>, d2: multiset<V>, f1: multiset<V>, f2: multiset<V>, e1: multiset<V>, e2: multiset<V>)
    requires d1 + f1 == d0 + e1 && d2 + f2 == d1 + e2
    ensures d2 + (f1 + f2) == d0 + (e1 + e2)
  {
    assert d2 + (f1 + f2) == (d2 + f2) + f1;
    assert (d1 + e2) + f1 == (d1 + f1) + e2;
  }

  lemma NoDatas<V>()
    ensures Datas<V>([]) == []
  {
  }

  /** Nothing is lost and nothing is destructed twice: what has been entered is still stored or has been destructed. */
  lemma {:induction false} NothingLost<V>(hash: string -> nat, m: Model<V>, ops: seq<Op<V>>)
    ensures multiset(Datas(Effects(hash, m, ops).es)) + multiset(AllFreed(hash, m, ops))
      == multiset(Datas(m.es)) + multiset(AllEntered(hash, m, ops))
    decreases |ops|
  {
    hide Datas, Effect, Freed, Entered;
    if ops != [] {
      var init, op := ops[..|ops| - 1], ops[|ops| - 1];
      var m1 := Effects(hash, m, init);
      NothingLost(hash, m, init);
      EffectBalance(hash, m1, op);
      assert multiset(AllFreed(hash, m, ops)) == multiset(AllFreed(hash, m, init)) + multiset(Freed(hash, m1, op));
      assert multiset(AllEntered(hash, m, ops)) == multiset(AllEntered(hash, m, init)) + multiset(Entered(hash, m1, op));
      Balanced(multiset(Datas(m.es)), multiset(Datas(m1.es)), multiset(Datas(Effect(hash, m1, op).es)),
               multiset(AllFreed(hash, m, init)), multiset(Freed(hash, m1, op)),
               multiset(AllEntered(hash, m, init)), multiset(Entered(hash, m1, op)));
    }
  }

  /** No integer key that is live equals the hash value of the string to be deleted. */
  predicate Clear<V>(hash: string -> nat, m: Model<V>, op: Op<V>) {
    op.Delete? ==> !InTheWay(hash, m.es, op.key)
  }

  lemma PutProper<V>(hash: string -> nat, es: seq<Entry<V>>, h: nat, key: string, v: V)
    requires Proper(hash, es) && (key != "" ==> Numeral(key).None? && h == hash(key))
    ensures Proper(hash, Put(es, h, key, v))
  {
    forall e | e in Put(es, h, key, v) && e.arKey != ""
      ensures Numeral(e.arKey).None? && e.h == hash(e.arKey)
    {
      var p := Put(es, h, key, v);
      var i :| 0 <= i < |p| && p[i] == e;
      assert e != Entry(h, key, v) ==> i < |es| && es[i] == e;
    }
  }

  lemma RemoveProper<V>(hash: string -> nat, es: seq<Entry<V>>, h: nat, key: string)
    requires Proper(hash, es)
    ensures Proper(hash, Remove(es, h, key))
  {
    forall e | e in Remove(es, h, key)
      ensures e in es
    {
    }
  }

  /** As long as the forms that skip the conversion are not used, no numeral is ever stored as a string key. */
  lemma EffectProper<V>(hash: string -> nat, m: Model<V>, op: Op<V>)
    requires Proper(hash, m.es)
    ensures Proper(hash, Effect(hash, m, op).es)
  {
    hide Proper, Put, Remove, Find, Numeral;
    match op {
      case Store(key, v, add) =>
        if Numeral(key).Some? {
          PutProper(hash, m.es, Numeral(key).value, "", v);
        } else {
          if key != "" {
            PutProper(hash, m.es, hash(key), key, v);
          }
        }
      case StoreAt(h, v, mode) => PutProper(hash, m.es, if mode.NextInsert? then m.next else h, "", v);
      case Delete(key) => RemoveProper(hash, m.es, StoredKey(hash, key).0, StoredKey(hash, key).1);
      case DeleteAt(h) => RemoveProper(hash, m.es, h, "");
      case CleanAll => NothingProper<V>(hash);
    }
  }

  lemma NothingProper<V>(hash: string -> nat)
    ensures Proper<V>(hash, [])
  {
  }

  ghost function State<V>(t: HashTable<V>): Model<V>
    reads t
  {
    Model(t.entries, t.nNextFreeElement, t.pos)
  }

  method Perform<V>(t: HashTable<V>, op: Op<V>)
    requires t.Valid() && Proper(t.hash, t.entries) && Clear(t.hash, State(t), op)
    modifies t, t.arBuckets
    ensures t.Valid() && (t.arBuckets == old(t.arBuckets) || fresh(t.arBuckets))
    ensures State(t) == Effect(t.hash, old(State(t)), op) && t.released == old(t.released) + Freed(t.hash, old(State(t)), op)
  {
    hide HashTable<V>.Valid, HashTable<V>.Shadowed, Proper, Put, Remove, Find, Replaced, InTheWay, Datas;
    match op {
      case Store(key, v, add) =>
        var ok := t.AddOrUpdate(key, v, add);
      case StoreAt(h, v, mode) =>
        var ok := t.IndexUpdateOrNextInsert(h, v, mode);
      case Delete(key) =>
        var ok := t.Del(key);
      case DeleteAt(h) =>
        var ok := t.IndexDel(h);
      case CleanAll =>
        t.Clean();
    }
  }

  /**
   Over any run the table is an insertion-ordered map, and its layout stays intact. The run may delete a string key
   only while no integer key equals its hash value.
   */
  method RunAll<V>(t: HashTable<V>, ops: seq<Op<V>>)
    requires t.Valid() && Proper(t.hash, t.entries)
    requires forall i :: 0 <= i < |ops| ==> Clear(t.hash, Effects(t.hash, State(t), ops[..i]), ops[i])
    modifies t, t.arBuckets
    ensures t.Valid() && Proper(t.hash, t.entries)
    ensures State(t) == Effects(t.hash, old(State(t)), ops)
    ensures t.released == old(t.released) + AllFreed(t.hash, old(State(t)), ops)
  {
    hide HashTable<V>.Valid, Proper, Effect, Clear, Freed;
    ghost var s := State(t);
    var i := 0;
    while i < |ops|
      invariant i <= |ops| && t.Valid() && Proper(t.hash, t.entries) && State(t) == Effects(t.hash, s, ops[..i])
      invariant t.arBuckets == old(t.arBuckets) || fresh(t.arBuckets)
      invariant t.released == old(t.released) + AllFreed(t.hash, s, ops[..i])
    {
      EffectProper(t.hash, State(t), ops[i]);
      Perform(t, ops[i]);
      i := i + 1;
      assert ops[..i][..i - 1] == ops[..i - 1];
    }
    assert ops[..i] == ops;
  }
}
