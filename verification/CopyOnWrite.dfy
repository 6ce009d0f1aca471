/** The opcodes on scalar variables, as zend_execute.c carries them out on shared, reference-counted zvals. */
module CopyOnWrite {
  import opened Values
  import opened Zvals
  import opened RefSets
  import opened CowMoves
  import opened Pendings

  class Variables {
    var heap: map<Ptr, Zval>
    var symbols: map<string, Ptr>
    var locked: map<nat, Ptr>
    var slotOf: map<nat, string>
    var vals: map<nat, Value>
    var garbage: seq<Ptr>

    ghost function Now(): Mem
      reads this
    {
      Mem(heap, symbols, locked, slotOf, vals, garbage)
    }

    constructor ()
      ensures Now().Valid() && locked == map[] && slotOf == map[] && vals == map[] && garbage == []
      ensures Grounded(Now()) && View(Now()) == Vars(map[], map[])
    {
      heap := map[UNINIT := Zval(Null, 1, false)];
      symbols, locked, slotOf, vals, garbage := map[], map[], map[], map[], [];
      new;
      HoldersNone(symbols, UNINIT);
      HoldersNone(locked, UNINIT);
      assert View(Now()).value == map[] && View(Now()).refs == map[];
    }

    /** ALLOC_ZVAL: some address not in use. */
    method Alloc() returns (p: Ptr)
      ensures p !in heap
    {
      FreshExists(heap);
      p :| p !in heap;
    }

    /** A slot gives up its count; the zval is freed with its last one. */
    method Release(x: string)
      requires x in symbols && symbols[x] in heap
      modifies this`heap, this`symbols
      ensures Now() == Dropped(old(Now()), x)
    {
      var p := symbols[x];
      if heap[p].refcount == 1 {
        heap := heap - {p};
      } else {
        heap := heap[p := heap[p].(refcount := heap[p].refcount - 1)];
      }
      symbols := symbols - {x};
    }

    /** The released slot takes a count of another zval. */
    method Share(x: string, p: Ptr)
      requires p in heap
      modifies this`heap, this`symbols
      ensures Now() == Attached(old(Now()), x, p)
    {
      heap := heap[p := heap[p].(refcount := heap[p].refcount + 1)];
      symbols := symbols[x := p];
    }

    /** The released slot gets a zval of its own. */
    method Copy(x: string, v: Value, isRef: bool) returns (q: Ptr)
      modifies this`heap, this`symbols
      ensures q !in old(heap) && Now() == AttachedNew(old(Now()), x, q, v, isRef)
    {
      q := Alloc();
      heap := heap[q := Zval(v, 1, isRef)];
      symbols := symbols[x := q];
    }

    /** zend_assign_to_variable for the slot of variable x: a reference is written to in place. */
    method AssignToVariable(x: string, src: Source)
      requires Now().Valid() && x in symbols && (src.FromVar? ==> src.p in heap)
      modifies this`heap, this`symbols
      ensures Now().Valid() && x in symbols && symbols[x] in heap && old(symbols[x] in heap)
      ensures old(heap[symbols[x]].isRef) ==> symbols == old(symbols)
      ensures !old(heap[symbols[x]].isRef) && src.FromVar? && !old(heap[src.p].isRef) ==> symbols[x] == src.p
      ensures !old(heap[symbols[x]].isRef) && (src.FromVar? ==> old(heap[src.p].isRef)) ==> heap[symbols[x]].refcount == 1
      ensures View(Now()) == View(old(Now())).Assigned(x, SourceValue(old(Now()), src))
      ensures TempsKept(old(Now()), Now(), old(symbols[x])) && OnlyMoved(old(Now()), Now(), x)
      ensures Follows(old(Now()), Now(), Change.Write(x, SourceValue(old(Now()), src)))
    {
      hide Mem.Valid, View, Vars.Assigned, Follows;
      ghost var m := Now();
      ValidGrounded(m);
      var cell := symbols[x];
      var z := heap[cell];
      if z.isRef {
        NotUninit(m, cell);
        if src.FromVar? && src.p == cell {
          SameValueAssigned(m, x);
          SameWritten(m, x);
        } else {
          var v := if src.FromVar? then heap[src.p].value else src.v;
          WrittenView(m, x, v);
          OwnIsWritable(m, x);
          LockedInHeap(m);
          WriteFollows(m, x, v);
          RewrittenValid(m, cell, v, true);
          heap := heap[cell := z.(value := v)];
        }
      } else if z.refcount == 1 {
        AssignToSole(x, src);
      } else {
        AssignToShared(x, src);
      }
    }

    /** The count would fall to zero: the zval is replaced, reused, or kept when it is assigned to itself. */
    method AssignToSole(x: string, src: Source)
      requires Now().Valid() && x in symbols && (src.FromVar? ==> src.p in heap)
      requires symbols[x] in heap && !heap[symbols[x]].isRef && heap[symbols[x]].refcount == 1
      modifies this`heap, this`symbols
      ensures x in symbols && symbols[x] in heap
      ensures src.FromVar? && !old(heap[src.p].isRef) ==> symbols[x] == src.p
      ensures (src.FromVar? ==> old(heap[src.p].isRef)) ==> heap[symbols[x]].refcount == 1
      ensures Now().Valid() && Grounded(old(Now()))
      ensures View(Now()) == View(old(Now())).Assigned(x, SourceValue(old(Now()), src))
      ensures TempsKept(old(Now()), Now(), old(symbols[x])) && OnlyMoved(old(Now()), Now(), x)
      ensures Follows(old(Now()), Now(), Change.Write(x, SourceValue(old(Now()), src)))
    {
      hide Mem.Valid, View, Vars.Assigned, TempsKept, Moves, Follows, OnlyMoved;
      ghost var m := Now();
      ValidGrounded(m);
      var cell := symbols[x];
      SoleSlot(m, x);
      if src.FromVar? && src.p == cell {
        SameValueAssigned(m, x);
        StandsStill(m, x);
      } else if src.FromVar? && !heap[src.p].isRef {
        SharedView(m, x, src.p);
        SharedMoves(m, x, src.p);
        Release(x);
        Share(x, src.p);
      } else {
        var v := if src.FromVar? then heap[src.p].value else src.v;
        WrittenView(m, x, v);
        RewrittenValid(m, cell, v, false);
        SoleMoves(m, x, v);
        heap := heap[cell := Zval(v, 1, false)];
      }
      TempsKeptByDrop(m, x, Now());
      OnlyMovedIs(m, Now(), x, symbols[x]);
      MovesFollow(m, Now(), x, Change.Write(x, SourceValue(m, src)));
    }

    /** Other owners keep the zval: the slot is pointed elsewhere. */
    method AssignToShared(x: string, src: Source)
      requires Now().Valid() && x in symbols && (src.FromVar? ==> src.p in heap)
      requires symbols[x] in heap && !heap[symbols[x]].isRef && heap[symbols[x]].refcount != 1
      modifies this`heap, this`symbols
      ensures x in symbols && symbols[x] in heap
      ensures src.FromVar? && !old(heap[src.p].isRef) ==> symbols[x] == src.p
      ensures (src.FromVar? ==> old(heap[src.p].isRef)) ==> heap[symbols[x]].refcount == 1
      ensures Now().Valid() && Grounded(old(Now()))
      ensures View(Now()) == View(old(Now())).Assigned(x, SourceValue(old(Now()), src))
      ensures TempsKept(old(Now()), Now(), old(symbols[x])) && OnlyMoved(old(Now()), Now(), x)
      ensures Follows(old(Now()), Now(), Change.Write(x, SourceValue(old(Now()), src)))
    {
      hide Mem.Valid, View, Vars.Assigned, TempsKept, Moves, Follows, OnlyMoved;
      ghost var m := Now();
      ValidGrounded(m);
      var cell := symbols[x];
      var v := if src.FromVar? then heap[src.p].value else src.v;
      Release(x);
      if src.FromVar? && !heap[src.p].isRef {
        SharedView(m, x, src.p);
        SharedMoves(m, x, src.p);
        Share(x, src.p);
      } else {
        var q := Copy(x, v, false);
        CopiedView(m, x, q, v);
        CopiedMoves(m, x, q, v);
      }
      TempsKeptByDrop(m, x, Now());
      OnlyMovedIs(m, Now(), x, symbols[x]);
      MovesFollow(m, Now(), x, Change.Write(x, SourceValue(m, src)));
    }

    // Temporaries and garbage

    /** zend_clean_garbage, run before every opcode. */
    method CleanGarbage()
      requires Now().Valid()
      modifies this`heap, this`garbage
      ensures Now().Valid() && garbage == [] && Grounded(old(Now())) && View(Now()) == View(old(Now()))
      ensures LocksKept(old(Now()), Now()) && Follows(old(Now()), Now(), Nothing)
    {
      hide Mem.Valid, View, LocksKept, Follows;
      ghost var m := Now();
      ValidGrounded(m);
      LocksKeptSame(m);
      FollowsSame(m);
      while garbage != []
        invariant Now().Valid() && Grounded(Now()) && View(Now()) == View(m)
        invariant LocksKept(m, Now()) && Follows(m, Now(), Nothing)
        decreases |garbage|
      {
        ghost var before := Now();
        var p := garbage[|garbage| - 1];
        LitterInHeap(before);
        garbage := garbage[..|garbage| - 1];
        heap := if heap[p].refcount == 1 then heap - {p}
          else heap[p := Zval(heap[p].value, heap[p].refcount - 1, heap[p].isRef && heap[p].refcount != 2)];
        TakenValid(before);
        TakenView(before);
        TakenFollows(before);
        LocksKeptAcross(m, before, Now());
        FollowsThen(m, before, Now(), Nothing);
      }
    }

    /** zend_fetch_var_address for reading, with AI_USE_PTR: the temporary holds the zval itself. */
    method FetchR(x: string, t: nat)
      requires Now().Valid() && t !in locked
      modifies this`heap, this`locked
      ensures Now().Valid() && Grounded(old(Now())) && View(Now()) == View(old(Now())) && LocksKept(old(Now()), Now())
      ensures t in locked && locked == old(locked)[t := locked[t]]
      ensures locked[t] in heap && heap[locked[t]].value == View(old(Now())).Get(x)
      ensures Follows(old(Now()), Now(), Nothing) && Reading(Now(), locked[t]) == Read(old(Now()), x)
    {
      hide Mem.Valid, View, Vars.Get, Follows;
      ghost var m := Now();
      GetIs(m, x);
      LockedInHeap(m);
      ReadIs(m, x);
      var p := if x in symbols then symbols[x] else UNINIT;
      LockedIs(m, t, p);
      LockedFollows(m, t, p);
      heap := heap[p := heap[p].(refcount := heap[p].refcount + 1)];
      locked := locked[t := p];
      assert Now() == Locked(m, t, p);
    }

    /** Fetching for writing: a new variable shares the null zval. */
    method Touch(x: string)
      requires Now().Valid()
      modifies this`heap, this`symbols
      ensures Now().Valid() && Grounded(old(Now())) && View(Now()) == View(old(Now())).Touched(x)
      ensures x in symbols && LocksKept(old(Now()), Now()) && Follows(old(Now()), Now(), Nothing)
      ensures forall y :: y in old(symbols) ==> y in symbols && symbols[y] == old(symbols)[y]
    {
      hide Mem.Valid, View, Vars.Touched, Follows, Moves;
      ghost var m := Now();
      ValidGrounded(m);
      LockedInHeap(m);
      NewIsTouched(m, x);
      FollowsSame(m);
      if x !in symbols {
        TouchMoves(m, x);
        MovesFollow(m, Attached(m, x, UNINIT), x, Nothing);
        UninitShared(m);
        AttachedValid(m, x, UNINIT);
        AttachedView(m, x, UNINIT);
        Share(x, UNINIT);
      }
    }

    /** The temporary designates the slot and locks what it points to. */
    method LockSlot(x: string, t: nat)
      requires Now().Valid() && x in symbols && t !in locked
      modifies this`heap, this`locked, this`slotOf
      ensures Now().Valid() && Grounded(old(Now())) && View(Now()) == View(old(Now())) && LocksKept(old(Now()), Now())
      ensures locked == old(locked)[t := symbols[x]] && slotOf == old(slotOf)[t := x] && Follows(old(Now()), Now(), Nothing)
    {
      hide Mem.Valid, View, Follows;
      ghost var m := Now();
      ValidGrounded(m);
      LockedInHeap(m);
      var p := symbols[x];
      LockedIs(m, t, p);
      LockedFollows(m, t, p);
      heap := heap[p := heap[p].(refcount := heap[p].refcount + 1)];
      locked := locked[t := p];
      ghost var m1 := Now();
      assert m1 == Locked(m, t, p);
      SlotsDoNotCount(m1, slotOf[t := x]);
      slotOf := slotOf[t := x];
      SidesFollow(m1, Now());
      FollowsThen(m, m1, Now(), Nothing);
    }

    /** PZVAL_UNLOCK of a temporary that is being used up. */
    method Unlock(t: nat) returns (p: Ptr)
      requires Now().Valid() && t in locked && |garbage| < 2
      modifies this`heap, this`locked, this`slotOf, this`garbage
      ensures Now().Valid() && Grounded(old(Now())) && Grounded(Now()) && View(Now()) == View(old(Now()))
      ensures p == old(locked)[t] && p in heap && NoneFreed(old(Now()), Now())
      ensures SlotsKept(old(Now()), Now()) && LocksKept(old(Now()), Now()) && Follows(old(Now()), Now(), Nothing)
      ensures locked == old(locked) - {t} && slotOf == old(slotOf) - {t} && |garbage| <= |old(garbage)| + 1
    {
      hide Mem.Valid, View, SlotsKept, LocksKept, NoneFreed, Grounded, Follows;
      ghost var m := Now();
      LockedInHeap(m);
      p := locked[t];
      UnlockedIs(m, t);
      UnlockedFollows(m, t);
      locked, slotOf := locked - {t}, slotOf - {t};
      heap := heap[p := heap[p].(refcount := heap[p].refcount - 1)];
      if heap[p].refcount == 0 {
        heap := heap[p := heap[p].(refcount := 1, isRef := false)];
        garbage := garbage + [p];
      }
      assert Now() == Unlocked(m, t);
    }

    /** get_zval_ptr: using up an operand releases its lock. */
    method GetPtr(r: Operand) returns (src: Source)
      requires Tidy(Now()) && Usable(Now(), r) && |garbage| < 2
      modifies this`heap, this`locked, this`slotOf, this`garbage
      ensures Tidy(Now()) && Grounded(old(Now())) && View(Now()) == View(old(Now())) && SlotsKept(old(Now()), Now())
      ensures NoneFreed(old(Now()), Now())
      ensures (src.FromVar? ==> src.p in heap) && SourceValue(Now(), src) == OperandValue(old(Now()), r)
      ensures LocksKept(old(Now()), Now()) && locked == Without(old(locked), r) && slotOf == old(slotOf)
      ensures |garbage| <= |old(garbage)| + 1 && Follows(old(Now()), Now(), Nothing)
    {
      hide Mem.Valid, View, SlotsKept, LocksKept, Anchored, NoneFreed, Follows;
      ghost var m := Now();
      ValidGrounded(m);
      SlotsSame(m);
      FollowsSame(m);
      LocksKeptSame(m);
      NoneFreedSame(m);
      if r.Const? {
        src := FromConst(r.v);
      } else if r.Tmp? {
        src := FromTmp(vals[r.t]);
      } else {
        var p := Unlock(r.t);
        LockUsed(m, Now(), r.t);
        src := FromVar(p);
        SlotsOnly(m, Now(), r.t);
      }
    }

    /** get_zval_ptr_ptr: the slot a temporary designates, which it no longer locks. */
    method GetSlot(t: nat) returns (x: string)
      requires Tidy(Now()) && t in slotOf && |garbage| < 2
      modifies this`heap, this`locked, this`slotOf, this`garbage
      ensures Tidy(Now()) && Grounded(old(Now())) && View(Now()) == View(old(Now())) && SlotsKept(old(Now()), Now())
      ensures x == old(slotOf)[t] && x in symbols && LocksKept(old(Now()), Now()) && NoneFreed(old(Now()), Now())
      ensures locked == old(locked) - {t} && slotOf == old(slotOf) - {t} && |garbage| <= |old(garbage)| + 1
      ensures Follows(old(Now()), Now(), Nothing)
    {
      hide Mem.Valid, View, SlotsKept, LocksKept, NoneFreed, Follows;
      ghost var m := Now();
      x := slotOf[t];
      SlotsSame(m);
      var p := Unlock(t);
      assert SlotsKept(m, Now());
      SymbolsSame(m, Now());
      KeptAnchored(m, Now());
    }

    /** The result of an opcode locks the zval its variable now points to. */
    method LockResult(x: string, out: nat)
      requires Tidy(Now()) && x in symbols && out !in locked
      modifies this`heap, this`locked
      ensures Tidy(Now()) && Grounded(old(Now())) && View(Now()) == View(old(Now()))
      ensures locked == old(locked)[out := symbols[x]] && Usable(Now(), Lock(out))
      ensures x in View(old(Now())).value && OperandValue(Now(), Lock(out)) == View(old(Now())).value[x]
      ensures Follows(old(Now()), Now(), Nothing) && Seen(Now(), Lock(out)) == Read(old(Now()), x)
    {
      hide Mem.Valid, View, Follows;
      ghost var m := Now();
      ValidGrounded(m);
      ViewAt(m, x);
      var p := symbols[x];
      ReadIs(m, x);
      LockedIs(m, out, p);
      LockedFollows(m, out, p);
      heap := heap[p := heap[p].(refcount := heap[p].refcount + 1)];
      locked := locked[out := p];
      assert Now() == Locked(m, out, p);
    }

    // Separation and references

    /** SEPARATE_ZVAL_IF_NOT_REF: afterwards the variable may be written to in place. */
    method Separate(x: string)
      requires Tidy(Now()) && x in symbols && forall u :: u in slotOf ==> slotOf[u] != x
      modifies this`heap, this`symbols
      ensures old(symbols[x] in heap && (heap[symbols[x]].isRef || heap[symbols[x]].refcount == 1)) ==> Now() == old(Now())
      ensures Tidy(Now()) && Grounded(old(Now())) && View(Now()) == View(old(Now()))
      ensures Writable(Now(), x) && symbols.Keys == old(symbols).Keys && LocksKept(old(Now()), Now())
      ensures Follows(old(Now()), Now(), Nothing)
    {
      hide Mem.Valid, View, Writable, LocksKept, OnlyMoved, Anchored, Follows, Moves;
      ghost var m := Now();
      ValidGrounded(m);
      LocksKeptSame(m);
      FollowsSame(m);
      var p := symbols[x];
      if heap[p].isRef || heap[p].refcount == 1 {
        OwnIsWritable(m, x);
        NoneMoved(m, x);
      } else {
        DropFacts(m, x);
        Release(x);
        ghost var d := Now();
        var q := Copy(x, heap[p].value, false);
        SplitView(m, x, q, false);
        CopiedMoves(m, x, q, heap[p].value);
        MovesFollow(m, Now(), x, Nothing);
        LockedInHeap(d);
        CopyIsWritable(d, x, q, heap[p].value, false);
        OnlyMovedIs(m, Now(), x, q);
        SplitLocks(m, x, q, false);
      }
      StillAnchored(m, Now(), x);
      MovedKeys(m, Now(), x);
    }

    /** Overwriting the zval of a variable where it stands. */
    method Write(x: string, v: Value)
      requires Now().Valid() && Writable(Now(), x)
      modifies this`heap
      ensures Now().Valid() && Grounded(old(Now())) && x in View(old(Now())).refs
      ensures View(Now()) == View(old(Now())).Assigned(x, v) && Follows(old(Now()), Now(), Change.Write(x, v))
    {
      hide Mem.Valid, View, Vars.Assigned, Follows;
      ghost var m := Now();
      ValidGrounded(m);
      ViewAt(m, x);
      WrittenView(m, x, v);
      LockedInHeap(m);
      WriteFollows(m, x, v);
      if heap[symbols[x]].isRef {
        NotUninit(m, symbols[x]);
      }
      RewrittenValid(m, symbols[x], v, heap[symbols[x]].isRef);
      heap := heap[symbols[x] := heap[symbols[x]].(value := v)];
    }

    /** The slot's zval becomes a reference, broken away from whatever shares it as a value. */
    method MakeRef(y: string)
      requires Now().Valid() && y in symbols
      modifies this`heap, this`symbols
      ensures Now().Valid() && Grounded(old(Now())) && View(Now()) == View(old(Now())) && OnlyMoved(old(Now()), Now(), y)
      ensures symbols[y] in heap && heap[symbols[y]].isRef && Referred(old(Now()), Now(), y)
    {
      hide Mem.Valid, View, OnlyMoved, Referred;
      ghost var m := Now();
      ValidGrounded(m);
      var p := symbols[y];
      if heap[p].isRef {
        NoneMoved(m, y);
        ReferredStays(m, y);
      } else if heap[p].refcount == 1 {
        FlaggedView(m, y, true);
        ReferredInPlace(m, y);
        NoneMoved(m, y);
        heap := heap[p := heap[p].(isRef := true)];
      } else {
        Release(y);
        var q := Copy(y, heap[p].value, true);
        SplitView(m, y, q, true);
        CountPositive(m, y);
        ReferredByCopy(m, y, q);
        OnlyMovedIs(m, Now(), y, q);
      }
    }

    /** The variable_ptr_ptr != value_ptr_ptr branch of zend_assign_to_variable_reference. */
    method BindTo(x: string, y: string)
      requires Now().Valid() && x in symbols && y in symbols && x != y
      modifies this`heap, this`symbols
      ensures Now().Valid() && Grounded(old(Now())) && x in View(old(Now())).refs && y in View(old(Now())).refs && y in View(old(Now())).value
      ensures View(Now()) == View(old(Now())).Bound(x, y) && symbols.Keys == old(symbols).Keys
      ensures forall z :: z in old(symbols) && z != x && z != y ==> symbols[z] == old(symbols)[z]
      ensures Follows(old(Now()), Now(), Join(x, y))
    {
      hide Mem.Valid, View, Vars.Bound, Vars.Unset, Vars.Coherent, Follows, Referred;
      ghost var m := Now();
      ValidGrounded(m);
      ViewAt(m, x);
      ViewAt(m, y);
      ViewCoherent(m);
      DropFacts(m, x);
      Release(x);
      MakeRef(y);
      ValidGrounded(Now());
      BoundView(View(m), Now(), x, y);
      JoinFollows(m, Now(), x, y);
      Share(x, symbols[y]);
    }

    /** The other branch: a variable bound to itself leaves whatever set it was in. */
    method BindToSelf(x: string)
      requires Now().Valid() && x in symbols
      modifies this`heap, this`symbols
      ensures Now().Valid() && Grounded(old(Now())) && x in View(old(Now())).refs
      ensures View(Now()) == View(old(Now())).Detached(x) && OnlyMoved(old(Now()), Now(), x)
      ensures Follows(old(Now()), Now(), Leave(x))
    {
      hide Mem.Valid, View, Vars.Detached, OnlyMoved, Vars.Coherent, Follows;
      ghost var m := Now();
      ValidGrounded(m);
      ViewAt(m, x);
      var p := symbols[x];
      if heap[p].refcount > 1 {
        Release(x);
        var q := Copy(x, heap[p].value, true);
        SeparatedView(m, x, q, true);
        SplitLeaves(m, x, q);
        OnlyMovedIs(m, Now(), x, q);
      } else {
        OneOwner(m, x);
        ViewCoherent(m);
        DetachedAlone(View(m), x);
        FlaggedView(m, x, true);
        FlagLeaves(m, x);
        NoneMoved(m, x);
        heap := heap[p := heap[p].(isRef := true)];
      }
    }

    /** zend_hash_del on the symbol table with _zval_ptr_dtor: a count that falls to one also ends the reference. */
    method Remove(x: string)
      requires Now().Valid()
      modifies this`heap, this`symbols
      ensures Now().Valid() && Grounded(old(Now())) && View(Now()) == View(old(Now())).Unset(x)
      ensures locked == map[] && garbage == [] ==> Flags(Now()) == UnsetFlags(View(old(Now())), Flags(old(Now())), x)
    {
      hide Mem.Valid, View, Vars.Unset, UnsetFlags;
      ghost var m := Now();
      ValidGrounded(m);
      if x in symbols {
        var p := symbols[x];
        if locked == map[] && garbage == [] {
          RemovedFlags(m, x);
        }
        DropFacts(m, x);
        Release(x);
        ghost var d := Now();
        if p in heap && heap[p].refcount == 1 {
          UnflaggedView(d, p);
          heap := heap[p := heap[p].(isRef := false)];
        }
      } else {
        UnsetNothing(m, x);
        UnsetNoFlag(m, x);
      }
    }

    // Opcodes. Each starts by cleaning up the garbage of the one before.

    method Begin()
      requires Tidy(Now())
      modifies this`heap, this`garbage
      ensures Tidy(Now()) && garbage == [] && Grounded(old(Now())) && View(Now()) == View(old(Now()))
      ensures LocksKept(old(Now()), Now()) && Follows(old(Now()), Now(), Nothing)
    {
      hide Mem.Valid, View, LocksKept, Anchored, Follows;
      ghost var m := Now();
      CleanGarbage();
      UnmovedAnchored(m, Now());
    }

    /** ZEND_ASSIGN */
    method OpAssign(t: nat, r: Operand, used: bool, out: nat)
      requires Tidy(Now()) && t in slotOf && OnlyOne(Now(), t) && Usable(Now(), r) && out !in locked
      modifies this
      ensures Tidy(Now()) && Grounded(old(Now())) && old(slotOf[t]) in View(old(Now())).refs
      ensures View(Now()) == View(old(Now())).Assigned(old(slotOf[t]), OperandValue(old(Now()), r))
      ensures slotOf == old(slotOf) - {t} && LockedAfter(old(locked), locked, t, r, used, out) && vals == old(vals)
      ensures used ==> Usable(Now(), Lock(out)) && OperandValue(Now(), Lock(out)) == OperandValue(old(Now()), r)
      ensures Follows(old(Now()), Now(), Change.Write(old(slotOf[t]), OperandValue(old(Now()), r)))
      ensures used ==> Seen(Now(), Lock(out)) == Read(Now(), old(slotOf[t]))
    {
      hide Mem.Valid, View, LocksKept, SlotsKept, Vars.Assigned, OnlyMoved, TempsKept, NoneFreed, Follows;
      ghost var m := Now();
      Begin();
      ghost var m0 := Now();
      UsableKept(m, m0, r);
      var src := GetPtr(r);
      ghost var m1 := Now();
      FollowsThen(m, m0, m1, Nothing);
      var x := GetSlot(t);
      SourceKept(m1, Now(), src);
      ghost var m2 := Now();
      ValidGrounded(m2);
      ViewAt(m2, x);
      FollowsThen(m, m1, m2, Nothing);
      AssignToVariable(x, src);
      AssignedGet(m2, x, SourceValue(m2, src));
      StillAnchored(m2, Now(), x);
      MovedKeys(m2, Now(), x);
      ghost var m3 := Now();
      FollowsThen(m, m2, m3, Change.Write(x, SourceValue(m2, src)));
      if used {
        LockResult(x, out);
        FollowsMore(m, m3, Now(), Change.Write(x, SourceValue(m2, src)));
        ReadSame(m3, Now(), x);
      }
    }

    /** zend_assign_to_variable_reference, for the same variable as well */
    method BindSlots(x: string, y: string)
      requires Tidy(Now()) && x in symbols && y in symbols && forall u :: u in slotOf ==> slotOf[u] != x && slotOf[u] != y
      modifies this`heap, this`symbols
      ensures Tidy(Now()) && Grounded(old(Now())) && BindReady(View(old(Now())), x, y) && symbols.Keys == old(symbols).Keys
      ensures View(Now()) == BoundTo(View(old(Now())), x, y) && Follows(old(Now()), Now(), BindChange(x, y))
    {
      hide Mem.Valid, View, Vars.Bound, Vars.Detached, OnlyMoved, Anchored, Follows;
      ghost var m := Now();
      ValidGrounded(m);
      ViewAt(m, x);
      ViewAt(m, y);
      if x != y {
        BindTo(x, y);
        TwoMoved(m, Now(), x, y);
      } else {
        BindToSelf(x);
        StillAnchored(m, Now(), x);
        MovedKeys(m, Now(), x);
      }
    }

    /** ZEND_ASSIGN_REF */
    method OpAssignRef(t: nat, u: nat, used: bool, out: nat)
      requires Tidy(Now()) && t in slotOf && u in slotOf && t != u && out !in locked
      requires forall s :: s in slotOf && s != t && s != u ==> slotOf[s] != slotOf[t] && slotOf[s] != slotOf[u]
      modifies this
      ensures Tidy(Now()) && Grounded(old(Now())) && BindReady(View(old(Now())), old(slotOf[t]), old(slotOf[u]))
      ensures View(Now()) == BoundTo(View(old(Now())), old(slotOf[t]), old(slotOf[u]))
      ensures slotOf == old(slotOf) - {t} - {u} && vals == old(vals)
      ensures LockedAfter(old(locked) - {u}, locked, t, Const(Null), used, out)
      ensures used ==> Usable(Now(), Lock(out)) && OperandValue(Now(), Lock(out)) == View(Now()).Get(old(slotOf[t]))
      ensures Follows(old(Now()), Now(), BindChange(old(slotOf[t]), old(slotOf[u])))
      ensures used ==> Seen(Now(), Lock(out)) == Read(Now(), old(slotOf[t]))
    {
      hide Mem.Valid, View, LocksKept, SlotsKept, Vars.Bound, Vars.Detached, OnlyMoved, NoneFreed, Anchored, Vars.Get, Follows, Usable, OperandValue, Seen;
      ghost var m := Now();
      Begin();
      ghost var m0 := Now();
      var y := GetSlot(u);
      ghost var m1 := Now();
      FollowsThen(m, m0, m1, Nothing);
      SlotLeft(m, m1, t, u);
      var x := GetSlot(t);
      ghost var m2 := Now();
      FollowsThen(m, m1, m2, Nothing);
      BindSlots(x, y);
      ghost var m3 := Now();
      FollowsThen(m, m2, m3, BindChange(x, y));
      if used {
        GetIs(m3, x);
        LockResult(x, out);
        GetAt(View(m3), x);
        FollowsMore(m, m3, Now(), BindChange(x, y));
        ReadSame(m3, Now(), x);
      }
    }

    /** The variable, separated if need be, becomes the result of the operator on it and the operand. */
    method Combine(lib: Lib, op: BinOp, x: string, r: Operand)
      requires Tidy(Now()) && x in symbols && (forall u :: u in slotOf ==> slotOf[u] != x)
      requires Usable(Now(), r) && |garbage| < 2
      modifies this`heap, this`symbols, this`locked, this`slotOf, this`garbage
      ensures Tidy(Now()) && Grounded(old(Now())) && x in View(old(Now())).refs && x in symbols
      ensures View(Now()) ==
        View(old(Now())).Assigned(x, lib.binary(op, View(old(Now())).Get(x), OperandValue(old(Now()), r)))
      ensures locked == Without(old(locked), r) && slotOf == old(slotOf)
      ensures Follows(old(Now()), Now(), Change.Write(x, lib.binary(op, View(old(Now())).Get(x), OperandValue(old(Now()), r))))
    {
      hide Mem.Valid, View, LocksKept, SlotsKept, Vars.Assigned, NoneFreed, Writable, Anchored, Vars.Get, OperandValue, Follows;
      ghost var m := Now();
      Separate(x);
      UsableKept(m, Now(), r);
      ghost var m1 := Now();
      var src := GetPtr(r);
      WritableKept(m1, Now(), x);
      WriteReady(Now(), x);
      ghost var m2 := Now();
      FollowsThen(m, m1, m2, Nothing);
      var w := lib.binary(op, heap[symbols[x]].value, if src.FromVar? then heap[src.p].value else src.v);
      Write(x, w);
      FollowsThen(m, m2, Now(), Change.Write(x, w));
      UnmovedAnchored(m2, Now());
    }

    /** ZEND_ASSIGN_ADD and the other binary_assign_op opcodes */
    method OpAssignOp(lib: Lib, op: BinOp, t: nat, r: Operand, used: bool, out: nat)
      requires Tidy(Now()) && t in slotOf && OnlyOne(Now(), t) && Usable(Now(), r) && out !in locked
      modifies this
      ensures Tidy(Now()) && Grounded(old(Now())) && old(slotOf[t]) in View(old(Now())).refs
      ensures var w := lib.binary(op, View(old(Now())).Get(old(slotOf[t])), OperandValue(old(Now()), r));
        View(Now()) == View(old(Now())).Assigned(old(slotOf[t]), w) &&
        (used ==> Usable(Now(), Lock(out)) && OperandValue(Now(), Lock(out)) == w)
      ensures slotOf == old(slotOf) - {t} && LockedAfter(old(locked), locked, t, r, used, out) && vals == old(vals)
      ensures var w := lib.binary(op, View(old(Now())).Get(old(slotOf[t])), OperandValue(old(Now()), r));
        Follows(old(Now()), Now(), Change.Write(old(slotOf[t]), w))
      ensures used ==> Seen(Now(), Lock(out)) == Read(Now(), old(slotOf[t]))
    {
      hide Mem.Valid, View, LocksKept, SlotsKept, Vars.Assigned, NoneFreed, Anchored, Vars.Get, OperandValue, Follows;
      ghost var m := Now();
      Begin();
      UsableKept(m, Now(), r);
      ghost var m1 := Now();
      var x := GetSlot(t);
      UsableKept(m1, Now(), r);
      ghost var m2 := Now();
      FollowsThen(m, m1, m2, Nothing);
      ValidGrounded(m2);
      ghost var w := lib.binary(op, View(m2).Get(x), OperandValue(m2, r));
      AssignedGet(m2, x, w);
      Combine(lib, op, x, r);
      ghost var m3 := Now();
      FollowsThen(m, m2, m3, Change.Write(x, w));
      if used {
        LockResult(x, out);
        FollowsMore(m, m3, Now(), Change.Write(x, w));
        ReadSame(m3, Now(), x);
      }
    }

    /** The variable, separated if need be, is incremented or decremented. */
    method Step(lib: Lib, k: IncDec, x: string) returns (w: Value)
      requires Tidy(Now()) && x in symbols && forall u :: u in slotOf ==> slotOf[u] != x
      modifies this`heap, this`symbols
      ensures Tidy(Now()) && Grounded(old(Now())) && x in View(old(Now())).refs && x in symbols
      ensures w == lib.incDec(k, View(old(Now())).Get(x)) && View(Now()) == View(old(Now())).Assigned(x, w)
      ensures x in View(Now()).value && View(Now()).value[x] == w && Follows(old(Now()), Now(), Change.Write(x, w))
    {
      hide Mem.Valid, View, Vars.Assigned, Writable, Anchored, Vars.Get, Follows;
      ghost var m := Now();
      Separate(x);
      WriteReady(Now(), x);
      ghost var m1 := Now();
      w := lib.incDec(k, heap[symbols[x]].value);
      Write(x, w);
      FollowsThen(m, m1, Now(), Change.Write(x, w));
      UnmovedAnchored(m1, Now());
      AssignedGet(m1, x, w);
    }

    /** ZEND_PRE_INC, ZEND_PRE_DEC, ZEND_POST_INC and ZEND_POST_DEC */
    method OpIncDec(lib: Lib, k: IncDec, t: nat, used: bool, out: nat)
      requires Tidy(Now()) && t in slotOf && OnlyOne(Now(), t) && out !in locked
      modifies this
      ensures Tidy(Now()) && Grounded(old(Now())) && old(slotOf[t]) in View(old(Now())).refs
      ensures var w := View(old(Now())).Get(old(slotOf[t]));
        View(Now()) == View(old(Now())).Assigned(old(slotOf[t]), lib.incDec(k, w)) &&
        (used && (k.PreInc? || k.PreDec?) ==> Usable(Now(), Lock(out)) && OperandValue(Now(), Lock(out)) == lib.incDec(k, w)) &&
        ((k.PostInc? || k.PostDec?) ==> Usable(Now(), Tmp(out)) && OperandValue(Now(), Tmp(out)) == w)
      ensures slotOf == old(slotOf) - {t} && LockedAfter(old(locked), locked, t, Const(Null), used && (k.PreInc? || k.PreDec?), out)
      ensures vals == if k.PostInc? || k.PostDec? then old(vals)[out := View(old(Now())).Get(old(slotOf[t]))] else old(vals)
      ensures Follows(old(Now()), Now(), Change.Write(old(slotOf[t]), lib.incDec(k, View(old(Now())).Get(old(slotOf[t])))))
      ensures used && (k.PreInc? || k.PreDec?) ==> Seen(Now(), Lock(out)) == Read(Now(), old(slotOf[t]))
    {
      hide Mem.Valid, View, LocksKept, SlotsKept, Vars.Assigned, OnlyMoved, NoneFreed, Writable, Anchored, Vars.Get, Follows, Seen;
      ghost var m := Now();
      Begin();
      ghost var m1 := Now();
      var x := GetSlot(t);
      ghost var m2 := Now();
      FollowsThen(m, m1, m2, Nothing);
      GetIs(m2, x);
      if k.Post() {
        ValsDoNotCount(Now(), vals[out := heap[symbols[x]].value]);
        vals := vals[out := heap[symbols[x]].value];
      }
      ghost var m3 := Now();
      UnmovedAnchored(m2, m3);
      SidesFollow(m2, m3);
      FollowsThen(m, m2, m3, Nothing);
      var w := Step(lib, k, x);
      ghost var m5 := Now();
      FollowsThen(m, m3, m5, Change.Write(x, w));
      if !k.Post() && used {
        LockResult(x, out);
        FollowsMore(m, m5, Now(), Change.Write(x, w));
        ReadSame(m5, Now(), x);
      }
    }

    /** Both operands of an operator, used up one after the other. */
    method GetBoth(a: Operand, b: Operand) returns (x: Value, y: Value)
      requires Tidy(Now()) && Usable(Now(), a) && Usable(Now(), b) && (a.Lock? ==> b != a) && garbage == []
      modifies this`heap, this`locked, this`slotOf, this`garbage
      ensures Tidy(Now()) && Grounded(old(Now())) && View(Now()) == View(old(Now())) && LocksKept(old(Now()), Now())
      ensures x == OperandValue(old(Now()), a) && y == OperandValue(old(Now()), b)
      ensures slotOf == old(slotOf) && locked == Without(Without(old(locked), a), b) && Follows(old(Now()), Now(), Nothing)
    {
      hide Mem.Valid, View, LocksKept, SlotsKept, NoneFreed, Anchored, OperandValue, Follows;
      ghost var m := Now();
      var p := GetPtr(a);
      UsableKept(m, Now(), b);
      ghost var m1 := Now();
      var q := GetPtr(b);
      SourceKept(m1, Now(), p);
      LocksKeptAcross(m, m1, Now());
      FollowsThen(m, m1, Now(), Nothing);
      x := if p.FromVar? then heap[p.p].value else p.v;
      y := if q.FromVar? then heap[q.p].value else q.v;
    }

    /** ZEND_ADD and the other binary operators, into a plain temporary */
    method OpBinary(lib: Lib, op: BinOp, a: Operand, b: Operand, out: nat)
      requires Tidy(Now()) && Usable(Now(), a) && Usable(Now(), b) && (a.Lock? ==> b != a)
      modifies this
      ensures Tidy(Now()) && Grounded(old(Now())) && View(Now()) == View(old(Now()))
      ensures Usable(Now(), Tmp(out))
      ensures OperandValue(Now(), Tmp(out)) == lib.binary(op, OperandValue(old(Now()), a), OperandValue(old(Now()), b))
      ensures slotOf == old(slotOf) && locked == Without(Without(old(locked), a), b)
      ensures out in vals && vals == old(vals)[out := vals[out]] && LocksKept(old(Now()), Now())
      ensures Follows(old(Now()), Now(), Nothing)
    {
      hide Mem.Valid, View, LocksKept, Anchored, Follows;
      ghost var m := Now();
      Begin();
      UsableKept(m, Now(), a);
      UsableKept(m, Now(), b);
      ghost var m1 := Now();
      var x, y := GetBoth(a, b);
      ghost var m2 := Now();
      LocksKeptAcross(m, m1, m2);
      ValsDoNotCount(m2, vals[out := lib.binary(op, x, y)]);
      vals := vals[out := lib.binary(op, x, y)];
      UnmovedAnchored(m2, Now());
      ValsApart(m, m2, vals);
      FollowsThen(m, m1, m2, Nothing);
      SidesFollow(m2, Now());
      FollowsThen(m, m2, Now(), Nothing);
    }

    /** ZEND_FETCH_R */
    method OpFetchR(x: string, t: nat)
      requires Tidy(Now()) && t !in locked
      modifies this
      ensures Tidy(Now()) && Grounded(old(Now())) && View(Now()) == View(old(Now())) && LocksKept(old(Now()), Now())
      ensures t in locked && locked == old(locked)[t := locked[t]] && slotOf == old(slotOf) && vals == old(vals)
      ensures Usable(Now(), Lock(t)) && OperandValue(Now(), Lock(t)) == View(old(Now())).Get(x)
      ensures Follows(old(Now()), Now(), Nothing) && Seen(Now(), Lock(t)) == Read(Now(), x)
    {
      hide Mem.Valid, View, LocksKept, Vars.Get, Follows;
      ghost var m := Now();
      Begin();
      ghost var m1 := Now();
      FetchR(x, t);
      FollowsThen(m, m1, Now(), Nothing);
      ReadSame(m1, Now(), x);
      LocksKeptAcross(m, m1, Now());
      KeptAnchored(m1, Now());
    }

    /** ZEND_FETCH_W and ZEND_FETCH_RW */
    method OpFetchW(x: string, t: nat)
      requires Tidy(Now()) && t !in locked
      modifies this
      ensures Tidy(Now()) && Grounded(old(Now())) && View(Now()) == View(old(Now())).Touched(x) && LocksKept(old(Now()), Now())
      ensures x in symbols && locked == old(locked)[t := symbols[x]] && slotOf == old(slotOf)[t := x] && vals == old(vals)
      ensures Follows(old(Now()), Now(), Nothing)
    {
      hide Mem.Valid, View, LocksKept, Vars.Touched, Follows;
      ghost var m := Now();
      Begin();
      ghost var m1 := Now();
      Touch(x);
      ghost var m2 := Now();
      LocksKeptAcross(m, m1, m2);
      FollowsThen(m, m1, m2, Nothing);
      LockSlot(x, t);
      LocksKeptAcross(m, m2, Now());
      FollowsThen(m, m2, Now(), Nothing);
    }

    /** ZEND_UNSET_VAR */
    method OpUnset(x: string)
      requires Tidy(Now()) && slotOf == map[]
      modifies this
      ensures Tidy(Now()) && Grounded(old(Now())) && View(Now()) == View(old(Now())).Unset(x)
      ensures locked == old(locked) && slotOf == map[] && vals == old(vals)
      ensures locked == map[] ==> Flags(Now()) == UnsetFlags(View(old(Now())), Flags(old(Now())), x)
    {
      hide Mem.Valid, View, LocksKept, Vars.Unset, UnsetFlags;
      Begin();
      Remove(x);
    }
  }
}
