/** `prune_pending_core_navigations` drops exactly the oldest evictable entries it has to. */
module NavigationPrune {
  import opened Common
  import opened NavigationModel

  function Overflow(t: Table): nat {
    if |t| > MAX_PENDING_CORE_NAVIGATIONS then |t| - MAX_PENDING_CORE_NAVIGATIONS else 0
  }

  function Min(a: nat, b: nat): nat { if a <= b then a else b }

  lemma EvictStep(t: Table, x: NavId)
    requires x in Evictable(t)
    ensures Evictable(t - {x}) == Evictable(t) - {x}
    ensures |t - {x}| == |t| - 1
    ensures |Evictable(t - {x})| == |Evictable(t)| - 1
  {
    assert (t - {x}).Keys == t.Keys - {x};
    assert |t.Keys - {x}| == |t.Keys| - 1;
  }

  lemma {:induction false} PruneKeeps(t: Table)
    ensures Prune(t).Keys <= t.Keys
    ensures forall id :: id in Prune(t) ==> Prune(t)[id] == t[id]
    ensures forall id :: id in t && id !in Prune(t) ==> id in Evictable(t)
    decreases |t|
  {
    if |t| > MAX_PENDING_CORE_NAVIGATIONS && Evictable(t) != {} {
      var x := Least(Evictable(t));
      EvictStep(t, x);
      PruneKeeps(t - {x});
    }
  }

  lemma {:induction false} PruneCount(t: Table)
    ensures |Prune(t)| == |t| - Min(Overflow(t), |Evictable(t)|)
    decreases |t|
  {
    if |t| > MAX_PENDING_CORE_NAVIGATIONS && Evictable(t) != {} {
      var x := Least(Evictable(t));
      EvictStep(t, x);
      PruneCount(t - {x});
    } else if |t| > MAX_PENDING_CORE_NAVIGATIONS {
      assert |Evictable(t)| == 0;
    }
  }

  lemma {:induction false} PruneOldest(t: Table, gone: NavId, kept: NavId)
    requires gone in t && gone !in Prune(t)
    requires kept in Evictable(t) && kept in Prune(t)
    ensures gone < kept
    decreases |t|
  {
    var x := Least(Evictable(t));
    EvictStep(t, x);
    PruneKeeps(t - {x});
    if gone != x {
      PruneOldest(t - {x}, gone, kept);
    }
  }

  /**
   The removed entries are the k smallest evictable ids, k being the lesser of the
   overflow and the evictable count; every other entry is unchanged.
   */
  lemma {:induction false} PruneExact(t: Table)
    ensures Prune(t).Keys <= t.Keys
    ensures forall id :: id in Prune(t) ==> Prune(t)[id] == t[id]
    ensures t.Keys - Prune(t).Keys <= Evictable(t)
    ensures |t.Keys - Prune(t).Keys| == Min(Overflow(t), |Evictable(t)|)
    ensures forall gone, kept :: gone in t.Keys - Prune(t).Keys && kept in Evictable(t) * Prune(t).Keys ==> gone < kept
    ensures Overflow(t) == if |t| > 1024 then |t| - 1024 else 0
    ensures forall id :: id in Evictable(t) <==>
              id in t && t[id].terminal.Some? && (t[id].abandoned || !t[id].claimed)
  {
    PruneKeeps(t);
    PruneCount(t);
    assert |t.Keys - Prune(t).Keys| == |t.Keys| - |Prune(t).Keys| by {
      assert t.Keys == (t.Keys - Prune(t).Keys) + Prune(t).Keys;
    }
    forall gone, kept | gone in t.Keys - Prune(t).Keys && kept in Evictable(t) * Prune(t).Keys
      ensures gone < kept
    {
      PruneOldest(t, gone, kept);
    }
  }

  /** The evictable entries that pruning would drop before `id`. */
  function Older(t: Table, id: NavId): set<NavId> {
    set x | x in Evictable(t) && x < id
  }

  /** An evictable entry survives pruning exactly when the older ones absorb the whole overflow. */
  lemma {:induction false} PruneSpares(t: Table, id: NavId)
    requires id in Evictable(t)
    ensures id in Prune(t) <==> Overflow(t) <= |Older(t, id)|
    decreases |t|
  {
    if |t| > MAX_PENDING_CORE_NAVIGATIONS {
      var x := Least(Evictable(t));
      EvictStep(t, x);
      if x == id {
        PruneKeeps(t - {x});
        assert Older(t, id) == {};
      } else {
        PruneSpares(t - {x}, id);
        assert Older(t - {x}, id) == Older(t, id) - {x};
      }
    }
  }

  // ------------------------------------------------------------ the blocking waiter

  /** The event that ends a navigation. */
  predicate Terminates(event: Event, id: NavId) {
    match event
    case NavigationSettled(_, x) => x == id
    case NavigationFailed(_, x, _) => x == id
    case NavigationCancelled(_, x, _) => x == id
    case _ => false
  }

  /**
   A waiter whose navigation ends gets the outcome exactly when pruning after that very
   event spares the entry.
   */
  lemma {:induction false} WaiterServed(l: Ledger, id: NavId, event: Event)
    requires id in l.table && !l.table[id].claimed && l.table[id].terminal.None? && Terminates(event, id)
    ensures var t := Note(l, event).table;
            && id in Evictable(t)
            && Wait(l, id, [event]).1 ==
               if Overflow(t) <= |Older(t, id)| then Some(Taken(t[id].committed, t[id].terminal.value)) else None
  {
    var t := Note(l, event).table;
    PruneSpares(t, id);
    PruneKeeps(t);
    assert TakeBlocking(l, id) == (l, None);
    assert [event][1..] == [];
    assert Wait(l, id, [event]) == Wait(Record(l, event), id, []);
  }

  /** With more than 1024 entries and none to evict, the waiter's own outcome is dropped before it can be taken. */
  lemma {:induction false} WaiterLoses(l: Ledger, id: NavId, event: Event)
    requires id in l.table && !l.table[id].claimed && Terminates(event, id)
    requires |l.table| > MAX_PENDING_CORE_NAVIGATIONS && Evictable(l.table) == {}
    ensures Wait(l, id, [event]).1 == None && id !in Wait(l, id, [event]).0.table
  {
    assert id !in Evictable(l.table);
    var t := Note(l, event).table;
    assert t.Keys == l.table.Keys && Evictable(t) == {id};
    assert |t| == |t.Keys| == |l.table|;
    assert Older(t, id) == {};
    WaiterServed(l, id, event);
    PruneSpares(t, id);
    assert [event][1..] == [];
    assert Wait(l, id, [event]) == Wait(Record(l, event), id, []);
  }
}
