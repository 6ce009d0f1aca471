/**
 What copy-on-write has to look like: variables with eager copying and explicit reference sets, and the proof
 that the moves on reference-counted zvals look exactly like that.
 */
module RefSets {
  import opened Values
  import opened Zvals

  /** Each variable's value and the set of variables it forms one reference set with, itself included. */
  datatype Vars = Vars(value: map<string, Value>, refs: map<string, set<string>>) {

    /** Reference sets partition the variables, and the members of one set have one value. */
    ghost predicate Coherent() {
      && refs.Keys == value.Keys
      && (forall x :: x in refs ==> x in refs[x])
      && (forall x, y :: x in refs && y in refs[x] ==> y in refs && refs[y] == refs[x] && value[y] == value[x])
    }

    function Get(x: string): Value { if x in value then value[x] else Null }

    /** A variable written to for the first time starts as null, alone in its set. */
    function Touched(x: string): Vars {
      if x in value && x in refs then this else Vars(value[x := Null], refs[x := {x}])
    }

    /** Assignment copies the value into every member of the variable's set, and into nothing else. */
    function Assigned(x: string, v: Value): Vars
      requires x in refs
    {
      this.(value := map y | y in value :: if y in refs[x] then v else value[y])
    }

    /** The variable leaves its set and joins no other. */
    function Detached(x: string): Vars
      requires x in refs
    {
      this.(refs := map y | y in refs :: if y == x then {x} else if y in refs[x] then refs[x] - {x} else refs[y])
    }

    /** x =& y: x leaves its set and joins that of y, taking over its value. */
    function Bound(x: string, y: string): Vars
      requires x in refs && y in refs && y in value
    {
      Vars(value[x := value[y]],
        map z | z in refs :: if z == x || z in refs[y] then refs[y] + {x} else if z in refs[x] then refs[x] - {x} else refs[z])
    }

    function Unset(x: string): Vars {
      Vars(value - {x}, map z | z in refs && z != x :: refs[z] - {x})
    }
  }

  /** No slot dangles. */
  ghost predicate Grounded(m: Mem) {
    forall x :: x in m.symbols ==> m.symbols[x] in m.heap
  }

  /** No other slot points to the zval of x. */
  ghost predicate Alone(m: Mem, x: string)
    requires x in m.symbols
  {
    forall y :: y in m.symbols && y != x ==> m.symbols[y] != m.symbols[x]
  }

  /** The variables that a slot shares its zval with by reference. */
  ghost function RefSet(m: Mem, x: string): set<string>
    requires x in m.symbols && m.symbols[x] in m.heap
  {
    if m.At(x).isRef then set y | y in m.symbols && m.symbols[y] == m.symbols[x] else {x}
  }

  /** The variables as seen through the memory. */
  ghost function View(m: Mem): Vars
    requires Grounded(m)
  {
    Vars(map x | x in m.symbols :: m.At(x).value, map x | x in m.symbols :: RefSet(m, x))
  }

  lemma ViewCoherent(m: Mem)
    requires Grounded(m)
    ensures View(m).Coherent()
  {
  }

  /** The same view, variable by variable. */
  lemma SameView(m: Mem, v: Vars)
    requires Grounded(m) && v.value.Keys == m.symbols.Keys && v.refs.Keys == m.symbols.Keys
    requires forall x :: x in m.symbols ==> v.value[x] == m.At(x).value && v.refs[x] == RefSet(m, x)
    ensures View(m) == v
  {
  }

  lemma DroppedView(m: Mem, x: string)
    requires Grounded(m) && x in m.symbols && (m.At(x).refcount == 1 ==> Alone(m, x))
    ensures Grounded(Dropped(m, x)) && View(Dropped(m, x)) == View(m).Unset(x)
  {
    var d := Dropped(m, x);
    forall y | y in d.symbols
      ensures d.symbols[y] in d.heap && RefSet(d, y) == RefSet(m, y) - {x} && d.At(y).value == m.At(y).value
    {
    }
    SameView(d, View(m).Unset(x));
  }

  /** An empty slot that shares a zval which is no reference: a new variable with that value. */
  lemma AttachedView(m: Mem, x: string, p: Ptr)
    requires Grounded(m) && x !in m.symbols && p in m.heap && !m.heap[p].isRef
    ensures var r := Attached(m, x, p);
      Grounded(r) && View(r) == Vars(View(m).value[x := m.heap[p].value], View(m).refs[x := {x}])
  {
    var r := Attached(m, x, p);
    forall y | y in m.symbols
      ensures RefSet(r, y) == RefSet(m, y) && r.At(y).value == m.At(y).value
    {
    }
    SameView(r, Vars(View(m).value[x := m.heap[p].value], View(m).refs[x := {x}]));
  }

  lemma AttachedNewView(m: Mem, x: string, q: Ptr, v: Value, isRef: bool)
    requires Grounded(m) && x !in m.symbols && q !in m.heap
    ensures var r := AttachedNew(m, x, q, v, isRef);
      Grounded(r) && View(r) == Vars(View(m).value[x := v], View(m).refs[x := {x}])
  {
    var r := AttachedNew(m, x, q, v, isRef);
    forall y | y in m.symbols
      ensures RefSet(r, y) == RefSet(m, y) && r.At(y).value == m.At(y).value
    {
    }
    SameView(r, Vars(View(m).value[x := v], View(m).refs[x := {x}]));
  }

  /** Joining the reference set of y. */
  lemma JoinedView(m: Mem, x: string, y: string)
    requires Grounded(m) && x !in m.symbols && y in m.symbols && m.At(y).isRef
    ensures var r := Attached(m, x, m.symbols[y]); var s := View(m).refs[y] + {x};
      Grounded(r) && View(r) == Vars(View(m).value[x := m.At(y).value],
        map z | z in m.symbols.Keys + {x} :: if z in s then s else View(m).refs[z])
  {
    var r := Attached(m, x, m.symbols[y]);
    var s := View(m).refs[y] + {x};
    forall z | z in r.symbols
      ensures RefSet(r, z) == if z in s then s else RefSet(m, z)
    {
    }
    SameView(r, Vars(View(m).value[x := m.At(y).value],
      map z | z in m.symbols.Keys + {x} :: if z in s then s else View(m).refs[z]));
  }

  /** Writing in place is right when the zval is a reference, or when no other slot shares it. */
  lemma WrittenView(m: Mem, x: string, v: Value)
    requires Grounded(m) && x in m.symbols && (m.At(x).isRef || Alone(m, x))
    ensures var r := m.(heap := m.heap[m.symbols[x] := m.At(x).(value := v)]);
      Grounded(r) && View(r) == View(m).Assigned(x, v)
  {
    var r := m.(heap := m.heap[m.symbols[x] := m.At(x).(value := v)]);
    forall y | y in r.symbols
      ensures RefSet(r, y) == RefSet(m, y) && r.At(y).value == if y in RefSet(m, x) then v else m.At(y).value
    {
    }
    SameView(r, View(m).Assigned(x, v));
  }

  /** Changing a count, or the reference flag of a zval with at most one slot, is invisible. */
  lemma Invisible(m: Mem, p: Ptr, z: Zval, r: Mem)
    requires Grounded(m) && p in m.heap && z.value == m.heap[p].value
    requires z.isRef == m.heap[p].isRef || forall x :: x in m.symbols && m.symbols[x] == p ==> Alone(m, x)
    requires r.symbols == m.symbols && r.heap == m.heap[p := z]
    ensures Grounded(r) && View(r) == View(m)
  {
    forall y | y in r.symbols
      ensures RefSet(r, y) == RefSet(m, y) && r.At(y).value == m.At(y).value
    {
    }
    SameView(r, View(m));
  }

  lemma SameVars(a: Vars, b: Vars)
    requires a.value.Keys == b.value.Keys && a.refs.Keys == b.refs.Keys
    requires forall x :: x in a.value ==> a.value[x] == b.value[x]
    requires forall x :: x in a.refs ==> a.refs[x] == b.refs[x]
    ensures a == b
  {
  }

  lemma Mutual(a: Vars, x: string, z: string)
    requires a.Coherent() && x in a.refs && z in a.refs
    ensures z in a.refs[x] <==> x in a.refs[z]
    ensures z in a.refs[x] ==> a.refs[z] == a.refs[x]
  {
  }

  /** Dropping a variable that is in no set and entering it again with another value amounts to an assignment. */
  lemma ReplacedIsAssigned(a: Vars, x: string, v: Value)
    requires a.Coherent() && x in a.refs && a.refs[x] == {x}
    ensures Vars(a.Unset(x).value[x := v], a.Unset(x).refs[x := {x}]) == a.Assigned(x, v)
  {
    var b := Vars(a.Unset(x).value[x := v], a.Unset(x).refs[x := {x}]);
    forall y | y in a.refs
      ensures b.refs[y] == a.refs[y]
    {
      Mutual(a, x, y);
    }
    SameVars(b, a.Assigned(x, v));
  }

  /** Dropping x and entering it into the set of y amounts to binding x to y. */
  lemma RejoinedIsBound(a: Vars, x: string, y: string)
    requires a.Coherent() && x in a.refs && y in a.refs && x != y
    ensures var u := a.Unset(x); var s := u.refs[y] + {x};
      Vars(u.value[x := u.value[y]], map z | z in u.value.Keys + {x} :: if z in s then s else u.refs[z]) == a.Bound(x, y)
  {
    hide Vars.Coherent;
    var u := a.Unset(x);
    CoherentKeys(a);
    var s := u.refs[y] + {x};
    var b := Vars(u.value[x := u.value[y]], map z | z in u.value.Keys + {x} :: if z in s then s else u.refs[z]);
    forall z | z in a.refs
      ensures b.refs[z] == a.Bound(x, y).refs[z]
    {
      if z != x {
        Mutual(a, y, z);
        Mutual(a, x, z);
      }
    }
    SameVars(b, a.Bound(x, y));
  }

  lemma CoherentKeys(a: Vars)
    requires a.Coherent()
    ensures a.refs.Keys == a.value.Keys
  {
  }

  /** Dropping x and entering it alone amounts to detaching it. */
  lemma ReenteredIsDetached(a: Vars, x: string)
    requires a.Coherent() && x in a.refs
    ensures Vars(a.Unset(x).value[x := a.value[x]], a.Unset(x).refs[x := {x}]) == a.Detached(x)
  {
    forall y | y in a.refs && y != x
      ensures a.Unset(x).refs[y] == a.Detached(x).refs[y]
    {
      Mutual(a, x, y);
    }
  }

  /** Freeing a zval no slot points to is invisible. */
  lemma FreedView(m: Mem, p: Ptr, r: Mem)
    requires Grounded(m) && forall x :: x in m.symbols ==> m.symbols[x] != p
    requires r.symbols == m.symbols && r.heap == m.heap - {p}
    ensures Grounded(r) && View(r) == View(m)
  {
    forall y | y in r.symbols
      ensures RefSet(r, y) == RefSet(m, y) && r.At(y).value == m.At(y).value
    {
    }
    SameView(r, View(m));
  }

  /** Leaving a set of one changes nothing. */
  lemma DetachedAlone(a: Vars, x: string)
    requires a.Coherent() && x in a.refs && a.refs[x] == {x}
    ensures a.Detached(x) == a
  {
    forall y | y in a.refs
      ensures a.Detached(x).refs[y] == a.refs[y]
    {
      Mutual(a, x, y);
    }
    SameVars(a.Detached(x), a);
  }
}
