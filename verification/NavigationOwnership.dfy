/**
 What every step of the protocol keeps: as long as the engine is lawful, a
 navigation owned by a live socket operation stays claimed and un-abandoned in the
 table until its context is closed, no `expect` fails, and ownership is exclusive.
 */
module NavigationOwnership {
  import opened Common
  import opened NavigationModel
  import opened NavigationAdopt
  import opened NavigationPrune
  import opened NavigationCancel

  ghost predicate EntryOk(l: Ledger, id: NavId)
    requires id in l.table
  {
    && id in l.home && l.home[id] == l.table[id].context
    && l.table[id].context !in l.closed
    && (l.table[id].abandoned ==> l.table[id].claimed)
  }

  ghost predicate TableOk(l: Ledger) {
    forall id :: id in l.table ==> EntryOk(l, id)
  }

  /** A claimed, live entry; or none at all because the context was closed. */
  ghost predicate Guarded(l: Ledger, id: NavId) {
    && id in l.home
    && if id in l.table then l.table[id].claimed && !l.table[id].abandoned else l.home[id] in l.closed
  }

  ghost predicate Sound(l: Ledger, owned: set<NavId>) {
    l.lawful ==> !l.panicked && TableOk(l) && forall id :: id in owned ==> Guarded(l, id)
  }

  ghost function IdSet(op: Operation): set<NavId> {
    set id | id in Ids(op.actions)
  }

  /** The operation's ids are non-empty, distinct and not owned by anybody else. */
  ghost predicate Holds(l: Ledger, others: set<NavId>, op: Operation) {
    l.lawful ==> Ids(op.actions) != [] && Distinct(Ids(op.actions)) && IdSet(op) !! others
  }

  // ------------------------------------------------------------------ events

  lemma TouchSound(l: Ledger, owned: set<NavId>, id: NavId, initial: Entry)
    requires Sound(l, owned) && (initial.abandoned ==> initial.claimed)
    ensures Sound(Touch(l, id, initial), owned)
  {
    if id in owned && id !in l.table {
      assert l.lawful ==> Guarded(l, id);
    }
  }

  lemma UpdateSound(l: Ledger, owned: set<NavId>, id: NavId, e: Entry)
    requires Sound(l, owned) && id in l.table
    requires e.context == l.table[id].context && e.abandoned == l.table[id].abandoned
    requires l.table[id].claimed ==> e.claimed
    ensures Sound(Update(l, id, e), owned)
  {
  }

  lemma NoteSound(l: Ledger, owned: set<NavId>, event: Event)
    requires Sound(l, owned)
    ensures Sound(Note(l, event), owned)
  {
    match event
    case OtherEvent =>
    case NavigationRequested(context, id, predecessor, kind) =>
      TouchSound(l, owned, id, FreshEntry(context, predecessor, kind));
      var t := Touch(l, id, FreshEntry(context, predecessor, kind));
      UpdateSound(t, owned, id, t.table[id].(kind := kind, predecessor := predecessor));
    case NavigationCommitted(context, id) =>
      TouchSound(l, owned, id, FreshEntry(context, None, Regular));
      var t := Touch(l, id, FreshEntry(context, None, Regular));
      UpdateSound(t, owned, id, t.table[id].(committed := true));
    case NavigationSettled(context, id) =>
      TouchSound(l, owned, id, FreshEntry(context, None, Regular));
      var t := Touch(l, id, FreshEntry(context, None, Regular));
      UpdateSound(t, owned, id, t.table[id].(terminal := Some(Settled)));
    case NavigationFailed(context, id, error) =>
      TouchSound(l, owned, id, FreshEntry(context, None, Regular));
      var t := Touch(l, id, FreshEntry(context, None, Regular));
      UpdateSound(t, owned, id, t.table[id].(terminal := Some(Faulted(EngineFault(error)))));
    case NavigationCancelled(context, id, reason) =>
      TouchSound(l, owned, id, FreshEntry(context, None, Regular));
      var t := Touch(l, id, FreshEntry(context, None, Regular));
      UpdateSound(t, owned, id, t.table[id].(terminal := Some(Faulted(CancelledNavigation(id, reason)))));
  }

  lemma PruneSound(l: Ledger, owned: set<NavId>)
    requires Sound(l, owned)
    ensures Sound(PruneLedger(l), owned)
  {
    PruneKeeps(l.table);
    var p := PruneLedger(l);
    if l.lawful {
      forall id | id in owned
        ensures Guarded(p, id)
      {
        assert Guarded(l, id);
        assert id in l.table ==> id !in Evictable(l.table);
      }
      forall id | id in p.table
        ensures EntryOk(p, id)
      {
        assert EntryOk(l, id);
      }
    }
  }

  /** What recording events can and cannot do: unlawfulness is final, abandonment untouched. */
  ghost predicate Later(l: Ledger, r: Ledger) {
    && (r.lawful ==> l.lawful)
    && l.home.Keys <= r.home.Keys
    && r.closed == l.closed
    && (forall id :: id in r.table && r.table[id].abandoned ==> id in l.table && l.table[id].abandoned)
  }

  lemma NoteLater(l: Ledger, event: Event)
    ensures Later(l, Note(l, event))
  {
  }

  lemma PruneLater(l: Ledger, m: Ledger)
    requires Later(l, m)
    ensures Later(l, PruneLedger(m))
  {
    PruneKeeps(m.table);
  }

  lemma RecordSound(l: Ledger, owned: set<NavId>, event: Event)
    requires Sound(l, owned)
    ensures Sound(Record(l, event), owned)
    ensures Later(l, Record(l, event))
  {
    NoteSound(l, owned, event);
    NoteLater(l, event);
    PruneSound(Note(l, event), owned);
    PruneLater(l, Note(l, event));
  }

  lemma {:induction false} RecordAllSound(l: Ledger, owned: set<NavId>, events: seq<Event>)
    requires Sound(l, owned)
    ensures Sound(RecordAll(l, events), owned)
    ensures Later(l, RecordAll(l, events))
    decreases |events|
  {
    if events != [] {
      RecordSound(l, owned, events[0]);
      RecordAllSound(Record(l, events[0]), owned, events[1..]);
    }
  }

  lemma PumpSound(l: Ledger, owned: set<NavId>)
    requires Sound(l, owned)
    ensures Sound(Pump(l).0, owned)
    ensures Later(l, Pump(l).0)
  {
    if l.pumps != [] {
      RecordAllSound(l.(pumps := l.pumps[1..]), owned, l.pumps[0].events);
    }
  }

  lemma RemoveTargetSound(l: Ledger, owned: set<NavId>, context: Ctx)
    requires Sound(l, owned)
    ensures Sound(RemoveTarget(l, context), owned)
    ensures RemoveTarget(l, context).lawful ==> l.lawful
  {
    PumpSound(l, owned);
    var p, r := Pump(l).0, RemoveTarget(l, context);
    if r.lawful {
      forall id | id in owned
        ensures Guarded(r, id)
      {
        assert Guarded(p, id);
        assert id in p.table ==> EntryOk(p, id);
      }
      forall id | id in r.table
        ensures EntryOk(r, id)
      {
        assert EntryOk(p, id);
      }
    }
  }

  // ---------------------------------------------------------------- outcomes

  lemma TakeBlockingSound(l: Ledger, owned: set<NavId>, id: NavId)
    requires Sound(l, owned)
    ensures Sound(TakeBlocking(l, id).0, owned)
    ensures TakeBlocking(l, id).0.lawful == l.lawful
    ensures l.lawful && id in owned ==> TakeBlocking(l, id) == (l, None)
  {
    if l.lawful && id in owned {
      assert Guarded(l, id);
    }
  }

  /** A blocking waiter leaves every owned navigation alone, however long it waits. */
  lemma {:induction false} WaitSound(l: Ledger, owned: set<NavId>, id: NavId, events: seq<Event>)
    requires Sound(l, owned)
    ensures Sound(Wait(l, id, events).0, owned)
    ensures Wait(l, id, events).0.lawful ==> l.lawful
    ensures Wait(l, id, events).0.lawful && id in owned ==> Wait(l, id, events).1 == None
    decreases |events|
  {
    TakeBlockingSound(l, owned, id);
    var (r, taken) := TakeBlocking(l, id);
    if taken.None? && events != [] {
      RecordSound(r, owned, events[0]);
      WaitSound(Record(r, events[0]), owned, id, events[1..]);
    }
  }

  lemma {:induction false} RemoveOutcomesExact(l: Ledger, ids: seq<NavId>)
    requires Distinct(ids) && AllTerminal(l.table, ids)
    ensures RemoveOutcomes(l, ids) == l.(table := l.table - (set id | id in ids))
    decreases |ids|
  {
    if ids == [] {
      assert l.table - (set id | id in ids) == l.table;
    } else {
      var l1 := RemoveOutcome(l, ids[0]).0;
      forall i | 0 <= i < |ids[1..]|
        ensures ids[1..][i] in l1.table && l1.table[ids[1..][i]].terminal.Some?
      {
        assert ids[1..][i] == ids[i + 1] != ids[0];
      }
      RemoveOutcomesExact(l1, ids[1..]);
      assert (set id | id in ids) == {ids[0]} + (set id | id in ids[1..]);
      assert l1.table - (set id | id in ids[1..]) == l.table - (set id | id in ids);
    }
  }

  /** Taking succeeds exactly when everything is claimed and terminal; it reports the last navigation. */
  lemma TakeSocketExact(l: Ledger, ids: seq<NavId>)
    requires Distinct(ids)
    ensures !Ready(l.table, ids) ==> TakeSocket(l, ids) == (l, None)
    ensures Ready(l.table, ids) ==>
              var last := l.table[ids[|ids| - 1]];
              TakeSocket(l, ids) == (l.(table := l.table - (set id | id in ids)),
                                     Some(Taken(last.committed, last.terminal.value)))
  {
    if Ready(l.table, ids) {
      var n := |ids| - 1;
      RemoveOutcomesExact(l, ids[..n]);
      assert ids == ids[..n] + [ids[n]];
      assert ids[n] !in ids[..n];
      assert l.table - (set id | id in ids[..n]) - {ids[n]} == l.table - (set id | id in ids);
    }
  }

  lemma TakeSocketSound(l: Ledger, others: set<NavId>, op: Operation)
    requires Sound(l, others + IdSet(op)) && Holds(l, others, op)
    ensures var (r, result) := TakeSocket(l, Ids(op.actions));
            && (r.lawful ==> l.lawful)
            && Sound(r, others)
            && (result.None? && l.lawful ==> r == l)
  {
    if l.lawful {
      TakeSocketExact(l, Ids(op.actions));
    } else {
      RemoveOutcomesLawful(l, Ids(op.actions)[..if Ids(op.actions) == [] then 0 else |Ids(op.actions)| - 1]);
    }
  }

  lemma {:induction false} RemoveOutcomesLawful(l: Ledger, ids: seq<NavId>)
    ensures RemoveOutcomes(l, ids).lawful == l.lawful
    decreases |ids|
  {
    if ids != [] {
      RemoveOutcomesLawful(RemoveOutcome(l, ids[0]).0, ids[1..]);
    }
  }

  // ---------------------------------------------------------------- adoption

  lemma AdoptStepSound(l: Ledger, others: set<NavId>, op: Operation)
    requires CanAdopt(l.table, op)
    requires Sound(l, others + IdSet(op)) && Holds(l, others, op)
    ensures var l' := l.(table := Claim(l.table, Heir(l.table, op)));
            Sound(l', others + IdSet(AdoptedOp(l.table, op))) && Holds(l', others, AdoptedOp(l.table, op))
  {
    HeirFollows(l.table, op);
    var s := Heir(l.table, op);
    var ids := Ids(op.actions);
    var l' := l.(table := Claim(l.table, s));
    assert IdSet(AdoptedOp(l.table, op)) == IdSet(op) + {s};
    if l.lawful {
      assert EntryOk(l, s);
      assert s in others + IdSet(op) ==> Guarded(l, s);
      assert s in ids ==> s in IdSet(op);
      forall id | id in others + IdSet(op)
        ensures Guarded(l', id)
      {
        assert Guarded(l, id);
      }
    }
  }

  lemma {:induction false} AdoptSound(l: Ledger, others: set<NavId>, op: Operation)
    requires Sound(l, others + IdSet(op)) && Holds(l, others, op)
    ensures var a := AdoptIn(l, op);
            Sound(a.ledger, others + IdSet(a.op)) && Holds(a.ledger, others, a.op) && a.ledger.lawful == l.lawful
    decreases |Unclaimed(l.table)|
  {
    if CanAdopt(l.table, op) && |Ids(op.actions)| < MAX_PENDING_CORE_NAVIGATIONS {
      AdoptStepSound(l, others, op);
      AdoptSound(l.(table := Claim(l.table, Heir(l.table, op))), others, AdoptedOp(l.table, op));
    } else {
      assert l.(table := l.table) == l;
    }
  }

  // ------------------------------------------------------------ cancellation

  /** The closure of an operation never reaches a navigation somebody claimed. */
  lemma ClosureUnclaimed(t: Table, op: Operation, id: NavId)
    requires InClosure(t, op, id)
    ensures id in Ids(op.actions) || (id in t && !t[id].claimed)
  {
    var path :| IsPath(t, op.context, Ids(op.actions), path) && path[|path| - 1] == id;
    if |path| > 1 {
      assert Link(t, op.context, path[|path| - 2], path[|path| - 1]);
    }
  }

  lemma CancelTableSound(l: Ledger, others: set<NavId>, op: Operation)
    requires Sound(l, others + IdSet(op)) && Holds(l, others, op)
    ensures Sound(l.(table := CancelTable(l.table, op)), others)
  {
    var r := l.(table := CancelTable(l.table, op));
    if l.lawful {
      forall id | id in Ids(op.actions) && id in l.table
        ensures l.table[id].claimed
      {
        assert id in IdSet(op);
        assert Guarded(l, id);
      }
      forall id | id in others
        ensures Guarded(r, id) && (id in l.table ==> id in r.table && r.table[id] == l.table[id])
      {
        assert Guarded(l, id);
        CancelTableExact(l.table, op, id);
        if InClosure(l.table, op, id) {
          ClosureUnclaimed(l.table, op, id);
          assert id !in IdSet(op);
        }
      }
      forall id | id in r.table
        ensures EntryOk(r, id)
      {
        CancelTableExact(l.table, op, id);
        assert EntryOk(l, id);
      }
    }
  }

  lemma CancelSound(l: Ledger, others: set<NavId>, op: Operation)
    requires Sound(l, others + IdSet(op)) && Holds(l, others, op)
    ensures Sound(Cancel(l, op), others)
    ensures Cancel(l, op).lawful ==> l.lawful
  {
    PumpSound(l, others + IdSet(op));
    var p := Pump(l).0;
    CancelTableSound(p, others, op);
    var c := p.(table := CancelTable(p.table, op));
    if op.completion.TargetCreate? {
      RemoveTargetSound(c, others, op.context);
      PruneSound(RemoveTarget(c, op.context), others);
    } else {
      PruneSound(c, others);
    }
  }

  /** Cancelling leaves the entries of every other operation exactly as the event pump left them. */
  lemma CancelSpares(l: Ledger, others: set<NavId>, op: Operation, id: NavId)
    requires Sound(l, others + IdSet(op)) && Holds(l, others, op)
    requires !op.completion.TargetCreate? && id in others && Pump(l).0.lawful
    ensures id in Cancel(l, op).table <==> id in Pump(l).0.table
    ensures id in Pump(l).0.table ==> Cancel(l, op).table[id] == Pump(l).0.table[id]
  {
    PumpSound(l, others + IdSet(op));
    var p := Pump(l).0;
    assert Guarded(p, id);
    forall x | x in Ids(op.actions) && x in p.table
      ensures p.table[x].claimed
    {
      assert x in IdSet(op);
      assert Guarded(p, x);
    }
    CancelExact(l, op, id);
    if InClosure(p.table, op, id) {
      ClosureUnclaimed(p.table, op, id);
      assert id !in IdSet(op);
    }
  }

  // ------------------------------------------------------------------- polls

  lemma ConfirmSound(l: Ledger, others: set<NavId>, op: Operation)
    requires Sound(l, others + IdSet(op)) && Holds(l, others, op)
    ensures var a := Confirm(l, op);
            && Sound(a.ledger, others + IdSet(a.op)) && Holds(a.ledger, others, a.op)
            && (a.ledger.lawful ==> l.lawful)
  {
    var (probed, answered) := Probe(l);
    if answered {
      PumpSound(probed, others + IdSet(op));
      AdoptSound(Pump(probed).0, others, op);
    }
  }

  lemma SettleSound(l: Ledger, others: set<NavId>, op: Operation, pumpOk: bool)
    requires Sound(l, others + IdSet(op)) && Holds(l, others, op)
    ensures var a := Settle(l, op, pumpOk);
            && Sound(a.ledger, others + IdSet(a.op)) && Holds(a.ledger, others, a.op)
            && (a.ledger.lawful ==> l.lawful)
  {
    AdoptSound(l, others, op);
    var a := AdoptIn(l, op);
    ConfirmSound(a.ledger, others, a.op);
  }

  lemma DecideSound(l: Ledger, others: set<NavId>, p: Pending, pumpOk: bool, now: nat)
    requires Sound(l, others + IdSet(p.op)) && Holds(l, others, p.op)
    ensures var d := Decide(l, p, pumpOk, now);
            && (d.ledger.lawful ==> l.lawful)
            && Sound(d.ledger, others)
            && (d.verdict.Waiting? ==>
                  Sound(d.ledger, others + IdSet(d.pending.op)) && Holds(d.ledger, others, d.pending.op))
  {
    SettleSound(l, others, p.op, pumpOk);
    var a := Settle(l, p.op, pumpOk);
    CancelSound(a.ledger, others, a.op);
    if pumpOk && a.fault.None? {
      TakeSocketSound(a.ledger, others, a.op);
      var (taken, result) := TakeSocket(a.ledger, Ids(a.op.actions));
      if result.None? {
        if a.ledger.lawful {
          assert taken == a.ledger;
        } else {
          CancelLawful(taken, a.op);
        }
      }
    }
  }

  lemma CancelLawful(l: Ledger, op: Operation)
    requires !l.lawful
    ensures !Cancel(l, op).lawful
  {
    PumpSound(l, {});
    var p := Pump(l).0;
    RemoveTargetSound(p.(table := CancelTable(p.table, op)), {}, op.context);
  }

  lemma PollOneSound(l: Ledger, others: set<NavId>, p: Pending, pumpOk: bool, now: nat)
    requires Sound(l, others + IdSet(p.op)) && Holds(l, others, p.op)
    ensures var r := PollOne(l, p, pumpOk, now);
            && (r.ledger.lawful ==> l.lawful)
            && Sound(r.ledger, others)
            && (r.verdict.Waiting? ==>
                  Sound(r.ledger, others + IdSet(r.pending.op)) && Holds(r.ledger, others, r.pending.op))
  {
    DecideSound(l, others, p, pumpOk, now);
    var d := Decide(l, p, pumpOk, now);
    if !d.verdict.Waiting? {
      FinishSound(d.ledger, others, d.pending.op, d.verdict);
    }
  }

  lemma FinishSound(l: Ledger, others: set<NavId>, op: Operation, verdict: Verdict)
    requires Sound(l, others) && !verdict.Waiting?
    ensures Sound(Finish(l, op, verdict).ledger, others) && !Finish(l, op, verdict).verdict.Waiting?
    ensures Finish(l, op, verdict).ledger.lawful ==> l.lawful
  {
    if op.completion.TargetCreate? {
      RemoveTargetSound(if verdict.Success? then Probe(l).0 else l, others, op.context);
    }
  }

  // ------------------------------------------------------------------- start

  lemma {:induction false} ClaimActionsSound(l: Ledger, owned: set<NavId>, context: Ctx, actions: seq<Action>)
    requires Sound(l, owned)
    requires l.lawful ==> forall id :: id in Ids(actions) && id in l.table ==> !l.table[id].abandoned
    ensures var r := ClaimActions(l, context, actions);
            Sound(r, owned + (set id | id in Ids(actions))) && (r.lawful ==> l.lawful)
    decreases |actions|
  {
    if actions == [] {
      assert owned + (set id | id in Ids(actions)) == owned;
    } else if actions[0].SameDocument? {
      ClaimActionsSound(l, owned, context, actions[1..]);
    } else {
      var id := actions[0].id;
      var initial := FreshEntry(context, None, actions[0].kind).(claimed := true);
      var t := Touch(l, id, initial);
      TouchSound(l, owned, id, initial);
      var c := t.(table := Claim(t.table, id));
      ClaimSound(t, owned, id);
      ClaimActionsSound(c, owned + {id}, context, actions[1..]);
      assert owned + {id} + (set x | x in Ids(actions[1..])) == owned + (set x | x in Ids(actions));
    }
  }

  lemma ClaimSound(l: Ledger, owned: set<NavId>, id: NavId)
    requires Sound(l, owned) && id in l.table
    requires l.lawful ==> !l.table[id].abandoned
    ensures Sound(l.(table := Claim(l.table, id)), owned + {id})
  {
    var r := l.(table := Claim(l.table, id));
    if l.lawful {
      assert EntryOk(l, id);
      forall x | x in r.table
        ensures EntryOk(r, x)
      {
        assert EntryOk(l, x);
      }
      forall x | x in owned
        ensures Guarded(r, x)
      {
        assert Guarded(l, x);
      }
    }
  }

  lemma StartSound(l: Ledger, others: set<NavId>, op: Operation)
    requires Sound(l, others)
    requires Ids(op.actions) != []
    ensures Sound(Start(l, op), others + IdSet(op))
    ensures Holds(Start(l, op), others, op)
    ensures Start(l, op).lawful ==> l.lawful
  {
    PumpSound(l, others);
    var p := Pump(l).0;
    var q := p.(lawful := p.lawful && Fresh(l, Ids(op.actions)));
    if q.lawful {
      forall id | id in Ids(op.actions) && id in q.table
        ensures !q.table[id].abandoned
      {
        assert id in l.table ==> EntryOk(l, id);
      }
      forall id | id in others
        ensures id !in IdSet(op)
      {
        assert Guarded(l, id);
      }
    }
    ClaimActionsSound(q, others, op.context, op.actions);
    PruneSound(ClaimActions(q, op.context, op.actions), others + IdSet(op));
  }
}
