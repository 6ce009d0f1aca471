/**
 Class declaration and inheritance (zend_compile.c). A class whose parent is already known copies the parent's tables
 before its own members are entered; one whose parent only turns up later merges them in afterwards.
 */
module Inheritance {
  import opened Common
  import opened OrderedMap
  import opened Buckets
  import opened NumericKeys
  import opened HashLayout
  import opened HashTables
  import opened HashTableOps

  /** A method or a property under its name. */
  datatype Member<M> = Member(name: string, value: M)

  datatype Class<M> = Class(name: string, functions: seq<Member<M>>, properties: seq<Member<M>>)

  /** Names are entered with their terminating NUL. */
  function KeyOf(hash: string -> nat, name: string): (nat, string) { StoredKey(hash, name + "\0") }

  function PutName<M>(hash: string -> nat, es: seq<Entry<M>>, name: string, v: M): seq<Entry<M>> {
    Put(es, KeyOf(hash, name).0, KeyOf(hash, name).1, v)
  }

  function NameIn<M>(hash: string -> nat, es: seq<Entry<M>>, name: string): Option<M> {
    Lookup(es, KeyOf(hash, name).0, KeyOf(hash, name).1)
  }

  /** The members of a class body entered one after the other. */
  function Declared<M>(hash: string -> nat, es: seq<Entry<M>>, ms: seq<Member<M>>): seq<Entry<M>>
    decreases |ms|
  {
    if ms == [] then es
    else PutName(hash, Declared(hash, es, ms[..|ms| - 1]), ms[|ms| - 1].name, ms[|ms| - 1].value)
  }

  /** do_inherit_parent_constructor: the parent's constructor becomes the class's own, unless it has one. */
  function WithConstructor<M>(hash: string -> nat, es: seq<Entry<M>>, name: string, parent: seq<Entry<M>>, parentName: string)
    : seq<Entry<M>>
  {
    if NameIn(hash, es, name).None? && NameIn(hash, parent, parentName).Some?
    then PutName(hash, es, name, NameIn(hash, parent, parentName).value)
    else es
  }

  /** The function table of a class whose parent was known when it was declared. */
  function EarlyFunctions<M>(hash: string -> nat, c: Class<M>, parent: seq<Entry<M>>, parentName: string): seq<Entry<M>> {
    WithConstructor(hash, Declared(hash, Merged(hash, [], parent, true), c.functions), c.name, parent, parentName)
  }

  /** The function table of a class that was bound to its parent afterwards. */
  function LateFunctions<M>(hash: string -> nat, c: Class<M>, parent: seq<Entry<M>>, parentName: string): seq<Entry<M>> {
    WithConstructor(hash, Merged(hash, Declared(hash, [], c.functions), parent, false), c.name, parent, parentName)
  }

  function EarlyProperties<M>(hash: string -> nat, c: Class<M>, parent: seq<Entry<M>>): seq<Entry<M>> {
    Declared(hash, Merged(hash, [], parent, true), c.properties)
  }

  function LateProperties<M>(hash: string -> nat, c: Class<M>, parent: seq<Entry<M>>): seq<Entry<M>> {
    Merged(hash, Declared(hash, [], c.properties), parent, false)
  }

  // What classes are to have, name by name

  /** What a class body says last about a name. */
  function Own<M>(ms: seq<Member<M>>, name: string): Option<M> {
    if ms == [] then None
    else if ms[|ms| - 1].name == name then Some(ms[|ms| - 1].value)
    else Own(ms[..|ms| - 1], name)
  }

  /** The element of a table that is stored under a name. */
  function Stored<M>(hash: string -> nat, es: seq<Entry<M>>, name: string): Option<M> {
    Lookup(es, StoredKey(hash, name + "\0").0, StoredKey(hash, name + "\0").1)
  }

  /** A property of the last class of a chain: that of the nearest class that declares it. */
  function Property<M>(chain: seq<Class<M>>, name: string): Option<M>
    decreases |chain|
  {
    if chain == [] then None
    else
      var own := Own(chain[|chain| - 1].properties, name);
      if own.Some? then own else Property(chain[..|chain| - 1], name)
  }

  /**
   A method of the last class of a chain: that of the nearest class that declares it. A class that has no method of its
   own name, declared or inherited, has its parent's constructor under that name.
   */
  function Callable<M>(chain: seq<Class<M>>, name: string): Option<M>
    decreases |chain|
  {
    if chain == [] then None
    else
      var n := |chain| - 1;
      var own := Own(chain[n].functions, name);
      var inherited := Callable(chain[..n], name);
      if own.Some? then own
      else if inherited.Some? then inherited
      else if n > 0 && name == chain[n].name then Callable(chain[..n], chain[n - 1].name)
      else None
  }

  /** The table has all that a class body says, and nothing else. */
  ghost predicate HasJust<M>(hash: string -> nat, es: seq<Entry<M>>, ms: seq<Member<M>>) {
    forall name: string :: Stored(hash, es, name) == Own(ms, name)
  }

  /** The table has what the class body says, and what it says nothing about as the parent has it. */
  ghost predicate HasOver<M>(hash: string -> nat, es: seq<Entry<M>>, ms: seq<Member<M>>, parent: seq<Entry<M>>) {
    forall name: string :: Stored(hash, es, name) == if Own(ms, name).Some? then Own(ms, name) else Stored(hash, parent, name)
  }

  /** Likewise for methods, where a constructor may come in under the class's own name. */
  ghost predicate HasMethods<M>(hash: string -> nat, es: seq<Entry<M>>, c: Class<M>, parent: seq<Entry<M>>, parentName: string) {
    forall name: string :: Stored(hash, es, name) ==
      if Own(c.functions, name).Some? then Own(c.functions, name)
      else if Stored(hash, parent, name).Some? then Stored(hash, parent, name)
      else if name == c.name then Stored(hash, parent, parentName) else None
  }

  // Classes as the compiler builds them

  class ClassEntry<M> {
    const name: string
    var parent: ClassEntry?<M>
    const function_table: HashTable<M>
    const default_properties: HashTable<M>

    ghost predicate Valid()
      reads function_table, function_table.arBuckets, default_properties, default_properties.arBuckets
    {
      && function_table.Valid() && default_properties.Valid()
      && function_table != default_properties && function_table.arBuckets != default_properties.arBuckets
      && function_table.hash == default_properties.hash
    }

    /** Two classes that share no table. */
    ghost predicate Apart(other: ClassEntry<M>)
      reads function_table, default_properties, other.function_table, other.default_properties
    {
      && {function_table, default_properties} !! {other.function_table, other.default_properties}
      && {function_table.arBuckets, default_properties.arBuckets} !!
        {other.function_table.arBuckets, other.default_properties.arBuckets}
    }

    /** The tables of zend_do_begin_class_declaration, as zend_hash_init leaves them */
    constructor (name: string, hash: string -> nat)
      ensures Valid() && this.name == name && parent == null && function_table.hash == hash
      ensures function_table.entries == [] && default_properties.entries == []
      ensures fresh(function_table) && fresh(default_properties)
      ensures fresh(function_table.arBuckets) && fresh(default_properties.arBuckets)
    {
      this.name := name;
      parent := null;
      function_table := new HashTable<M>(10, hash);
      default_properties := new HashTable<M>(10, hash);
    }

    /** A member entered with zend_hash_update, as zend_do_begin_function_declaration and zend_do_declare_property do */
    static method Declare(table: HashTable<M>, member: Member<M>)
      requires table.Valid()
      modifies table, table.arBuckets
      ensures table.Valid() && (table.arBuckets == old(table.arBuckets) || fresh(table.arBuckets))
      ensures table.entries == PutName(table.hash, old(table.entries), member.name, member.value)
    {
      hide HashTable<M>.Valid, StoredKey, Put;
      var ok := table.AddOrUpdate(member.name + "\0", member.value, false);
    }

    static method DeclareAll(table: HashTable<M>, ms: seq<Member<M>>)
      requires table.Valid()
      modifies table, table.arBuckets
      ensures table.Valid() && (table.arBuckets == old(table.arBuckets) || fresh(table.arBuckets))
      ensures table.entries == Declared(table.hash, old(table.entries), ms)
    {
      hide HashTable<M>.Valid, PutName;
      var i := 0;
      while i < |ms|
        invariant i <= |ms| && table.Valid() && (table.arBuckets == old(table.arBuckets) || fresh(table.arBuckets))
        invariant table.entries == Declared(table.hash, old(table.entries), ms[..i])
      {
        Declare(table, ms[i]);
        i := i + 1;
        assert ms[..i][..i - 1] == ms[..i - 1];
      }
      assert ms[..i] == ms;
    }

    /** do_inherit_parent_constructor */
    method InheritParentConstructor()
      requires Valid() && (parent != null ==> parent.Valid() && Apart(parent) && parent.function_table.hash == function_table.hash)
      modifies function_table, function_table.arBuckets
      ensures Valid() && (function_table.arBuckets == old(function_table.arBuckets) || fresh(function_table.arBuckets))
      ensures function_table.entries == if parent == null then old(function_table.entries)
        else WithConstructor(function_table.hash, old(function_table.entries), name, parent.function_table.entries, parent.name)
    {
      hide HashTable<M>.Valid, StoredKey, Put, Find;
      if parent != null {
        var own := function_table.Exists(name + "\0");
        if !own {
          var ctor := parent.function_table.FindData(parent.name + "\0");
          if ctor.Some? {
            Declare(function_table, Member(name, ctor.value));
          }
        }
      }
    }

    /** zend_do_inheritance: the parent's tables are merged in without overwriting. */
    method DoInheritance(parent_ce: ClassEntry<M>)
      requires Valid() && parent_ce.Valid() && Apart(parent_ce) && parent_ce.function_table.hash == function_table.hash
      modifies this, function_table, function_table.arBuckets, default_properties, default_properties.arBuckets
      ensures Valid() && parent == parent_ce
      ensures default_properties.entries ==
        Merged(function_table.hash, old(default_properties.entries), parent_ce.default_properties.entries, false)
      ensures function_table.entries == WithConstructor(function_table.hash,
        Merged(function_table.hash, old(function_table.entries), parent_ce.function_table.entries, false), name,
        parent_ce.function_table.entries, parent_ce.name)
      ensures function_table.arBuckets == old(function_table.arBuckets) || fresh(function_table.arBuckets)
      ensures default_properties.arBuckets == old(default_properties.arBuckets) || fresh(default_properties.arBuckets)
    {
      hide HashTable<M>.Valid, Merged, WithConstructor;
      Merge(default_properties, parent_ce.default_properties, false);
      Merge(function_table, parent_ce.function_table, false);
      parent := parent_ce;
      InheritParentConstructor();
    }
  }

  /** A class declared while its parent, if it has one, is known: zend_do_begin_class_declaration to the end of the body. */
  method DeclareEarly<M>(c: Class<M>, parent: ClassEntry?<M>, hash: string -> nat) returns (ce: ClassEntry<M>)
    requires parent != null ==> parent.Valid() && parent.function_table.hash == hash
    ensures ce.Valid() && ce.name == c.name && ce.parent == parent && ce.function_table.hash == hash
    ensures fresh(ce.function_table) && fresh(ce.default_properties)
    ensures fresh(ce.function_table.arBuckets) && fresh(ce.default_properties.arBuckets)
    ensures ce.function_table.entries == if parent == null then Declared(hash, [], c.functions)
      else EarlyFunctions(hash, c, parent.function_table.entries, parent.name)
    ensures ce.default_properties.entries == if parent == null then Declared(hash, [], c.properties)
      else EarlyProperties(hash, c, parent.default_properties.entries)
    ensures parent == null ==>
      HasJust(hash, ce.function_table.entries, c.functions) && HasJust(hash, ce.default_properties.entries, c.properties)
    ensures parent != null && Proper(hash, parent.function_table.entries) && Proper(hash, parent.default_properties.entries) ==>
      HasMethods(hash, ce.function_table.entries, c, parent.function_table.entries, parent.name) &&
      HasOver(hash, ce.default_properties.entries, c.properties, parent.default_properties.entries)
  {
    hide HashTable<M>.Valid, Merged, WithConstructor, Declared, HasJust, HasOver, HasMethods, Proper;
    if parent == null {
      DeclaredHasJust(hash, c.functions);
      DeclaredHasJust(hash, c.properties);
    } else {
      TableUnique(parent.function_table);
      TableUnique(parent.default_properties);
      if Proper(hash, parent.function_table.entries) && Proper(hash, parent.default_properties.entries) {
        ClassHas(hash, c, parent.function_table.entries, parent.name, parent.default_properties.entries, false);
      }
    }
    ce := new ClassEntry<M>(c.name, hash);
    if parent != null {
      Merge(ce.function_table, parent.function_table, true);
      Merge(ce.default_properties, parent.default_properties, true);
      ce.parent := parent;
    }
    ClassEntry.DeclareAll(ce.function_table, c.functions);
    ClassEntry.DeclareAll(ce.default_properties, c.properties);
    ce.InheritParentConstructor();
  }

  /** A class declared before its parent, and bound to it by ZEND_DECLARE_INHERITED_CLASS. */
  method DeclareLate<M>(c: Class<M>, parent: ClassEntry<M>, hash: string -> nat) returns (ce: ClassEntry<M>)
    requires parent.Valid() && parent.function_table.hash == hash
    ensures ce.Valid() && ce.name == c.name && ce.parent == parent && ce.function_table.hash == hash
    ensures fresh(ce.function_table) && fresh(ce.default_properties)
    ensures fresh(ce.function_table.arBuckets) && fresh(ce.default_properties.arBuckets)
    ensures ce.function_table.entries == LateFunctions(hash, c, parent.function_table.entries, parent.name)
    ensures ce.default_properties.entries == LateProperties(hash, c, parent.default_properties.entries)
    ensures Proper(hash, parent.function_table.entries) && Proper(hash, parent.default_properties.entries) ==>
      HasMethods(hash, ce.function_table.entries, c, parent.function_table.entries, parent.name) &&
      HasOver(hash, ce.default_properties.entries, c.properties, parent.default_properties.entries)
  {
    hide HashTable<M>.Valid, Merged, WithConstructor, Declared, HasJust, HasOver, HasMethods, Proper;
    TableUnique(parent.function_table);
    TableUnique(parent.default_properties);
    if Proper(hash, parent.function_table.entries) && Proper(hash, parent.default_properties.entries) {
      ClassHas(hash, c, parent.function_table.entries, parent.name, parent.default_properties.entries, true);
    }
    ce := DeclareEarly(c, null, hash);
    ce.DoInheritance(parent);
  }

  // Early and late binding agree

  lemma AbsorbedLookup<M>(hash: string -> nat, es: seq<Entry<M>>, e: Entry<M>, overwrite: bool, h: nat, key: string)
    requires Unique(es) && EnteredKey(hash, e) == (e.h, e.arKey)
    ensures Unique(Absorbed(hash, es, e, overwrite))
    ensures Lookup(Absorbed(hash, es, e, overwrite), h, key) ==
      if e.Is(h, key) && (overwrite || Lookup(es, h, key).None?) then Some(e.data) else Lookup(es, h, key)
  {
    PutLookup(es, e.h, e.arKey, e.data, h, key);
    PutUnique(es, e.h, e.arKey, e.data);
  }

  lemma ProperEntered<M>(hash: string -> nat, es: seq<Entry<M>>, e: Entry<M>)
    requires Proper(hash, es) && e in es
    ensures EnteredKey(hash, e) == (e.h, e.arKey)
  {
  }

  lemma AbsorbedProper<M>(hash: string -> nat, es: seq<Entry<M>>, e: Entry<M>, overwrite: bool)
    requires Proper(hash, es) && Proper(hash, [e])
    ensures Proper(hash, Absorbed(hash, es, e, overwrite))
  {
    assert e in [e];
    var (h, key) := EnteredKey(hash, e);
    PutProper(hash, es, h, key, e.data);
  }

  /** The last element of a table with distinct keys, and the table without it. */
  lemma LastLookup<M>(es: seq<Entry<M>>, h: nat, key: string)
    requires es != [] && Unique(es)
    ensures var init, e := es[..|es| - 1], es[|es| - 1];
      Unique(init) && (e.Is(h, key) ==> Lookup(init, h, key).None?) &&
      Lookup(es, h, key) == if e.Is(h, key) then Some(e.data) else Lookup(init, h, key)
  {
    var init, n := es[..|es| - 1], |es| - 1;
    var i := Find(init, h, key);
    if es[n].Is(h, key) {
      FindIs(es, n, h, key);
    } else if i < n {
      assert es[i] == init[i];
      FindIs(es, i, h, key);
    } else {
      forall e | e in es
        ensures !e.Is(h, key)
      {
        var j :| 0 <= j < |es| && es[j] == e;
        assert j < n ==> init[j] == e;
      }
      FindNone(es, h, key);
    }
  }

  /** Merging two tables, with and without overwriting, as maps. */
  lemma {:induction false} MergedLookup<M>(hash: string -> nat, es: seq<Entry<M>>, src: seq<Entry<M>>, overwrite: bool, h: nat, key: string)
    requires Unique(es) && Unique(src) && Proper(hash, src)
    ensures Unique(Merged(hash, es, src, overwrite))
    ensures Proper(hash, es) ==> Proper(hash, Merged(hash, es, src, overwrite))
    ensures var first, second := if overwrite then src else es, if overwrite then es else src;
      Lookup(Merged(hash, es, src, overwrite), h, key) ==
        if Lookup(first, h, key).Some? then Lookup(first, h, key) else Lookup(second, h, key)
    decreases |src|
  {
    hide Absorbed, Lookup, Unique, Proper, EnteredKey;
    if src == [] {
      NothingThere<M>(h, key);
    } else {
      var init, e := src[..|src| - 1], src[|src| - 1];
      LastLookup(src, h, key);
      ProperParts(hash, src);
      MergedLookup(hash, es, init, overwrite, h, key);
      ProperEntered(hash, src, e);
      AbsorbedLookup(hash, Merged(hash, es, init, overwrite), e, overwrite, h, key);
      if Proper(hash, es) {
        AbsorbedProper(hash, Merged(hash, es, init, overwrite), e, overwrite);
      }
    }
  }

  /** The elements of src whose keys are not in es, in order. */
  function Missing<M>(es: seq<Entry<M>>, src: seq<Entry<M>>): seq<Entry<M>> {
    if src == [] then []
    else
      var init, e := src[..|src| - 1], src[|src| - 1];
      if Lookup(es, e.h, e.arKey).Some? then Missing(es, init) else Missing(es, init) + [e]
  }

  /** Merging keeps the order of what is there, and what is new comes behind it in the order of the source. */
  lemma {:induction false} MergedOrder<M>(hash: string -> nat, es: seq<Entry<M>>, src: seq<Entry<M>>, overwrite: bool)
    requires Unique(es) && Unique(src) && Proper(hash, src)
    ensures var m := Merged(hash, es, src, overwrite);
      && |es| <= |m| && m[|es|..] == Missing(es, src)
      && forall i :: 0 <= i < |es| ==> m[i].Is(es[i].h, es[i].arKey)
    decreases |src|
  {
    hide Unique, Proper, EnteredKey, Lookup;
    if src != [] {
      var init, e := src[..|src| - 1], src[|src| - 1];
      LastLookup(src, e.h, e.arKey);
      ProperParts(hash, src);
      MergedOrder(hash, es, init, overwrite);
      ProperEntered(hash, src, e);
      MergedLookup(hash, es, init, overwrite, e.h, e.arKey);
      PutBehind(es, Merged(hash, es, init, overwrite), e);
    }
  }

  lemma PutBehind<M>(es: seq<Entry<M>>, m: seq<Entry<M>>, e: Entry<M>)
    requires |es| <= |m| && forall i :: 0 <= i < |es| ==> m[i].Is(es[i].h, es[i].arKey)
    requires Lookup(m, e.h, e.arKey).Some? <==> Lookup(es, e.h, e.arKey).Some?
    ensures Has(m, e.h, e.arKey) <==> Lookup(m, e.h, e.arKey).Some?
    ensures var p := Put(m, e.h, e.arKey, e.data);
      && |es| <= |p| && (forall i :: 0 <= i < |es| ==> p[i].Is(es[i].h, es[i].arKey))
      && p[|es|..] == if Lookup(es, e.h, e.arKey).Some? then m[|es|..] else m[|es|..] + [e]
  {
    var i, j := Find(es, e.h, e.arKey), Find(m, e.h, e.arKey);
    if i < |es| {
      assert m[i].Is(e.h, e.arKey);
    }
  }

  /** A copy has the same elements in the same order. */
  lemma {:induction false} CopiedSame<M>(hash: string -> nat, src: seq<Entry<M>>)
    requires Unique(src) && Proper(hash, src)
    ensures Merged(hash, [], src, true) == src
  {
    MergedOrder(hash, [], src, true);
    AllMissing(src);
  }

  lemma {:induction false} AllMissing<M>(src: seq<Entry<M>>)
    ensures Missing([], src) == src
    decreases |src|
  {
    if src != [] {
      NothingThere<M>(src[|src| - 1].h, src[|src| - 1].arKey);
      AllMissing(src[..|src| - 1]);
    }
  }

  lemma ProperParts<M>(hash: string -> nat, es: seq<Entry<M>>)
    requires Proper(hash, es) && es != []
    ensures Proper(hash, es[..|es| - 1]) && Proper(hash, [es[|es| - 1]]) && es[|es| - 1] in es
  {
  }

  lemma NothingThere<M>(h: nat, key: string)
    ensures Lookup<M>([], h, key) == None && Unique<M>([])
  {
  }

  lemma PutNameLookup<M>(hash: string -> nat, es: seq<Entry<M>>, name: string, v: M, h: nat, key: string)
    requires Unique(es)
    ensures Unique(PutName(hash, es, name, v)) && (Proper(hash, es) ==> Proper(hash, PutName(hash, es, name, v)))
    ensures Lookup(PutName(hash, es, name, v), h, key) == if KeyOf(hash, name) == (h, key) then Some(v) else Lookup(es, h, key)
  {
    var (h1, key1) := KeyOf(hash, name);
    PutLookup(es, h1, key1, v, h, key);
    PutUnique(es, h1, key1, v);
    if Proper(hash, es) {
      PutProper(hash, es, h1, key1, v);
    }
  }

  /** What a class body enters takes precedence over what was there. */
  lemma {:induction false} DeclaredLookup<M>(hash: string -> nat, es: seq<Entry<M>>, ms: seq<Member<M>>, h: nat, key: string)
    requires Unique(es)
    ensures Unique(Declared(hash, es, ms)) && (Proper(hash, es) ==> Proper(hash, Declared(hash, es, ms)))
    ensures Lookup(Declared(hash, es, ms), h, key) ==
      if Lookup(Declared(hash, [], ms), h, key).Some? then Lookup(Declared(hash, [], ms), h, key) else Lookup(es, h, key)
    decreases |ms|
  {
    hide PutName, Lookup, Unique, Proper;
    NothingThere<M>(h, key);
    if ms != [] {
      var n := |ms| - 1;
      DeclaredLookup(hash, es, ms[..n], h, key);
      DeclaredLookup(hash, [], ms[..n], h, key);
      PutNameLookup(hash, Declared(hash, es, ms[..n]), ms[n].name, ms[n].value, h, key);
      PutNameLookup(hash, Declared(hash, [], ms[..n]), ms[n].name, ms[n].value, h, key);
    }
  }

  /** A member of a class: its own declaration of it, or what the parent has. */
  function Member1<M>(own: Option<M>, inherited: Option<M>): Option<M> { if own.Some? then own else inherited }

  /** A method of a class: the constructor may also come from the parent under the class's own name. */
  function Method<M>(own: Option<M>, inherited: Option<M>, isConstructor: bool, parentConstructor: Option<M>): Option<M> {
    if Member1(own, inherited).None? && isConstructor then parentConstructor else Member1(own, inherited)
  }

  lemma ConstructorLookup<M>(hash: string -> nat, es: seq<Entry<M>>, name: string, parent: seq<Entry<M>>, parentName: string,
                             h: nat, key: string)
    requires Unique(es)
    ensures var r := WithConstructor(hash, es, name, parent, parentName);
      Unique(r) && (Proper(hash, es) ==> Proper(hash, r)) &&
      Lookup(r, h, key) ==
        if Lookup(es, h, key).None? && (h, key) == KeyOf(hash, name) then NameIn(hash, parent, parentName) else Lookup(es, h, key)
  {
    hide PutName, Lookup, Unique, Proper;
    if NameIn(hash, parent, parentName).Some? {
      PutNameLookup(hash, es, name, NameIn(hash, parent, parentName).value, h, key);
    }
  }

  lemma ClassLookup<M>(hash: string -> nat, c: Class<M>, parent: seq<Entry<M>>, parentName: string, late: bool, h: nat, key: string)
    requires Unique(parent) && Proper(hash, parent)
    ensures var r := if late then LateFunctions(hash, c, parent, parentName) else EarlyFunctions(hash, c, parent, parentName);
      Unique(r) && Proper(hash, r) &&
      Lookup(r, h, key) == Method(Lookup(Declared(hash, [], c.functions), h, key), Lookup(parent, h, key),
                                  (h, key) == KeyOf(hash, c.name), NameIn(hash, parent, parentName))
  {
    hide Merged, Declared, WithConstructor, Lookup, Unique, Proper, KeyOf, NameIn;
    TablesLookup(hash, c.functions, parent, h, key);
    ConstructorLookup(hash, Declared(hash, Merged(hash, [], parent, true), c.functions), c.name, parent, parentName, h, key);
    ConstructorLookup(hash, Merged(hash, Declared(hash, [], c.functions), parent, false), c.name, parent, parentName, h, key);
  }

  /** Copying the parent and then overriding, or declaring first and then merging without overwriting. */
  lemma TablesLookup<M>(hash: string -> nat, ms: seq<Member<M>>, parent: seq<Entry<M>>, h: nat, key: string)
    requires Unique(parent) && Proper(hash, parent)
    ensures var early := Declared(hash, Merged(hash, [], parent, true), ms);
      var late := Merged(hash, Declared(hash, [], ms), parent, false);
      Unique(early) && Unique(late) && Proper(hash, early) && Proper(hash, late) &&
      Lookup(early, h, key) == Member1(Lookup(Declared(hash, [], ms), h, key), Lookup(parent, h, key)) &&
      Lookup(late, h, key) == Member1(Lookup(Declared(hash, [], ms), h, key), Lookup(parent, h, key))
  {
    hide Merged, Declared, Lookup, Unique, Proper;
    NothingThere<M>(h, key);
    NothingProper<M>(hash);
    MergedLookup(hash, [], parent, true, h, key);
    DeclaredLookup(hash, Merged(hash, [], parent, true), ms, h, key);
    DeclaredLookup(hash, [], ms, h, key);
    MergedLookup(hash, Declared(hash, [], ms), parent, false, h, key);
  }

  lemma TableUnique<M>(t: HashTable<M>)
    requires t.Valid()
    ensures Unique(t.entries)
  {
    t.Distinctly();
  }

  /** Different names are stored under different keys. */
  lemma NamesApart(hash: string -> nat, a: string, b: string)
    ensures KeyOf(hash, a) == KeyOf(hash, b) <==> a == b
  {
    if KeyOf(hash, a) == KeyOf(hash, b) {
      StoredKeyInjective(hash, a + "\0", b + "\0");
      assert a == (a + "\0")[..|a|] && b == (b + "\0")[..|b|];
    }
  }

  /** Declaring enters every member of a class body, a later one of the same name in place of an earlier one. */
  lemma {:induction false} DeclaredOwn<M>(hash: string -> nat, ms: seq<Member<M>>, name: string)
    ensures Stored(hash, Declared(hash, [], ms), name) == Own(ms, name)
    decreases |ms|
  {
    hide PutName, Lookup, Unique, Proper, StoredKey;
    NothingThere<M>(KeyOf(hash, name).0, KeyOf(hash, name).1);
    if ms != [] {
      var n := |ms| - 1;
      DeclaredOwn(hash, ms[..n], name);
      DeclaredLookup(hash, [], ms[..n], 0, "");
      PutNameLookup(hash, Declared(hash, [], ms[..n]), ms[n].name, ms[n].value, KeyOf(hash, name).0, KeyOf(hash, name).1);
      NamesApart(hash, ms[n].name, name);
    }
  }

  /** So each member is there, unless there is a later one of its name. */
  lemma {:induction false} OwnIs<M>(ms: seq<Member<M>>, i: nat)
    requires i < |ms| && forall j :: i < j < |ms| ==> ms[j].name != ms[i].name
    ensures Own(ms, ms[i].name) == Some(ms[i].value)
    decreases |ms|
  {
    if i < |ms| - 1 {
      OwnIs(ms[..|ms| - 1], i);
    }
  }

  lemma DeclaredHasJust<M>(hash: string -> nat, ms: seq<Member<M>>)
    ensures HasJust(hash, Declared(hash, [], ms), ms)
  {
    forall name: string
      ensures Stored(hash, Declared(hash, [], ms), name) == Own(ms, name)
    {
      DeclaredOwn(hash, ms, name);
    }
  }

  lemma ClassHas<M>(hash: string -> nat, c: Class<M>, parent: seq<Entry<M>>, parentName: string, properties: seq<Entry<M>>, late: bool)
    requires Unique(parent) && Proper(hash, parent) && Unique(properties) && Proper(hash, properties)
    ensures HasMethods(hash, if late then LateFunctions(hash, c, parent, parentName) else EarlyFunctions(hash, c, parent, parentName), c, parent, parentName)
    ensures HasOver(hash, if late then LateProperties(hash, c, properties) else EarlyProperties(hash, c, properties), c.properties, properties)
  {
    hide Merged, Declared, WithConstructor, Lookup, Unique, Proper, LateFunctions, EarlyFunctions, StoredKey;
    forall name: string
      ensures Stored(hash, if late then LateFunctions(hash, c, parent, parentName) else EarlyFunctions(hash, c, parent, parentName), name) ==
        if Own(c.functions, name).Some? then Own(c.functions, name)
        else if Stored(hash, parent, name).Some? then Stored(hash, parent, name)
        else if name == c.name then Stored(hash, parent, parentName) else None
      ensures Stored(hash, if late then LateProperties(hash, c, properties) else EarlyProperties(hash, c, properties), name) ==
        if Own(c.properties, name).Some? then Own(c.properties, name) else Stored(hash, properties, name)
    {
      var (h, key) := KeyOf(hash, name);
      ClassLookup(hash, c, parent, parentName, late, h, key);
      DeclaredOwn(hash, c.functions, name);
      DeclaredOwn(hash, c.properties, name);
      NamesApart(hash, name, c.name);
      TablesLookup(hash, c.properties, properties, h, key);
    }
  }

  /** Whichever way its classes are bound, the last class of a chain has the methods and properties it is to have. */
  lemma {:induction false} ChainHas<M>(hash: string -> nat, chain: seq<Class<M>>, late: seq<bool>, name: string)
    requires |late| == |chain| > 0
    ensures Stored(hash, Tables(hash, chain, late).0, name) == Callable(chain, name)
    ensures Stored(hash, Tables(hash, chain, late).1, name) == Property(chain, name)
    decreases |chain|
  {
    hide Merged, Declared, WithConstructor, Stored, Unique, Proper, LateFunctions, EarlyFunctions, LateProperties, EarlyProperties, Own;
    var n := |chain| - 1;
    var c := chain[n];
    if n == 0 {
      DeclaredOwn(hash, c.functions, name);
      DeclaredOwn(hash, c.properties, name);
      assert chain[..0] == [];
    } else {
      ChainHas(hash, chain[..n], late[..n], name);
      ChainHas(hash, chain[..n], late[..n], chain[n - 1].name);
      TablesProper(hash, chain[..n], late[..n]);
      var (fs, ps) := Tables(hash, chain[..n], late[..n]);
      ClassHas(hash, c, fs, chain[n - 1].name, ps, late[n]);
    }
  }

  /** The function and property tables of the last class of a chain, the i-th bound late or early as late[i] says. */
  function Tables<M>(hash: string -> nat, chain: seq<Class<M>>, late: seq<bool>): (seq<Entry<M>>, seq<Entry<M>>)
    requires |late| == |chain| > 0
    decreases |chain|
  {
    var n := |chain| - 1;
    var c := chain[n];
    if n == 0 then (Declared(hash, [], c.functions), Declared(hash, [], c.properties))
    else
      var (fs, ps) := Tables(hash, chain[..n], late[..n]);
      if late[n] then (LateFunctions(hash, c, fs, chain[n - 1].name), LateProperties(hash, c, ps))
      else (EarlyFunctions(hash, c, fs, chain[n - 1].name), EarlyProperties(hash, c, ps))
  }

  ghost predicate SameLookups<M>(es: seq<Entry<M>>, fs: seq<Entry<M>>) {
    forall h, key :: Lookup(es, h, key) == Lookup(fs, h, key)
  }

  lemma {:induction false} TablesProper<M>(hash: string -> nat, chain: seq<Class<M>>, late: seq<bool>)
    requires |late| == |chain| > 0
    ensures var (fs, ps) := Tables(hash, chain, late); Unique(fs) && Unique(ps) && Proper(hash, fs) && Proper(hash, ps)
    decreases |chain|
  {
    hide Merged, Declared, WithConstructor, Lookup, Unique, Proper;
    NothingThere<M>(0, "");
    NothingProper<M>(hash);
    var n := |chain| - 1;
    var c := chain[n];
    if n == 0 {
      DeclaredLookup(hash, [], c.functions, 0, "");
      DeclaredLookup(hash, [], c.properties, 0, "");
    } else {
      TablesProper(hash, chain[..n], late[..n]);
      var (fs, ps) := Tables(hash, chain[..n], late[..n]);
      ClassLookup(hash, c, fs, chain[n - 1].name, late[n], 0, "");
      TablesLookup(hash, c.properties, ps, 0, "");
    }
  }

  /**
   Along an inheritance chain of any length, whichever classes are bound early and whichever late, the last class has
   the same methods, its constructor included, and the same properties.
   */
  lemma {:induction false} BindingAgrees<M>(hash: string -> nat, chain: seq<Class<M>>, late1: seq<bool>, late2: seq<bool>)
    requires |late1| == |late2| == |chain| > 0
    ensures SameLookups(Tables(hash, chain, late1).0, Tables(hash, chain, late2).0)
    ensures SameLookups(Tables(hash, chain, late1).1, Tables(hash, chain, late2).1)
    decreases |chain|
  {
    hide Merged, Declared, WithConstructor, Lookup, Unique, Proper, LateFunctions, EarlyFunctions;
    var n := |chain| - 1;
    var c := chain[n];
    if n > 0 {
      BindingAgrees(hash, chain[..n], late1[..n], late2[..n]);
      TablesProper(hash, chain[..n], late1[..n]);
      TablesProper(hash, chain[..n], late2[..n]);
      var (fs1, ps1) := Tables(hash, chain[..n], late1[..n]);
      var (fs2, ps2) := Tables(hash, chain[..n], late2[..n]);
      forall h, key
        ensures Lookup(Tables(hash, chain, late1).0, h, key) == Lookup(Tables(hash, chain, late2).0, h, key)
        ensures Lookup(Tables(hash, chain, late1).1, h, key) == Lookup(Tables(hash, chain, late2).1, h, key)
      {
        ClassLookup(hash, c, fs1, chain[n - 1].name, late1[n], h, key);
        ClassLookup(hash, c, fs2, chain[n - 1].name, late2[n], h, key);
        TablesLookup(hash, c.properties, ps1, h, key);
        TablesLookup(hash, c.properties, ps2, h, key);
      }
    }
  }

  lemma TablesNext<M>(hash: string -> nat, chain: seq<Class<M>>, late: seq<bool>, i: nat)
    requires |late| == |chain| && 0 < i < |chain|
    ensures var (fs, ps) := Tables(hash, chain[..i], late[..i]); var c := chain[i];
      Tables(hash, chain[..i + 1], late[..i + 1]) ==
        if late[i] then (LateFunctions(hash, c, fs, chain[i - 1].name), LateProperties(hash, c, ps))
        else (EarlyFunctions(hash, c, fs, chain[i - 1].name), EarlyProperties(hash, c, ps))
  {
    hide LateFunctions, EarlyFunctions, LateProperties, EarlyProperties;
    assert chain[..i + 1][..i] == chain[..i] && late[..i + 1][..i] == late[..i];
  }

  /** A whole chain of classes, declared from the root on. */
  method DeclareChain<M>(hash: string -> nat, chain: seq<Class<M>>, late: seq<bool>) returns (ce: ClassEntry<M>)
    requires |late| == |chain| > 0
    ensures ce.Valid() && (ce.function_table.entries, ce.default_properties.entries) == Tables(hash, chain, late)
    ensures forall name: string :: Stored(hash, ce.function_table.entries, name) == Callable(chain, name)
    ensures forall name: string :: Stored(hash, ce.default_properties.entries, name) == Property(chain, name)
  {
    hide HashTable<M>.Valid, EarlyFunctions, LateFunctions, EarlyProperties, LateProperties, Stored, Callable, Property, HasJust, HasOver, HasMethods, Proper;
    ce := DeclareEarly(chain[0], null, hash);
    var i := 1;
    assert chain[..1] == [chain[0]] && late[..1] == [late[0]];
    while i < |chain|
      invariant 1 <= i <= |chain| && ce.Valid() && ce.name == chain[i - 1].name && ce.function_table.hash == hash
      invariant (ce.function_table.entries, ce.default_properties.entries) == Tables(hash, chain[..i], late[..i])
    {
      TablesNext(hash, chain, late, i);
      if late[i] {
        ce := DeclareLate(chain[i], ce, hash);
      } else {
        ce := DeclareEarly(chain[i], ce, hash);
      }
      i := i + 1;
    }
    assert chain[..i] == chain && late[..i] == late;
    forall name: string
      ensures Stored(hash, ce.function_table.entries, name) == Callable(chain, name)
      ensures Stored(hash, ce.default_properties.entries, name) == Property(chain, name)
    {
      ChainHas(hash, chain, late, name);
    }
  }
}
