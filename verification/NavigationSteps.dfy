/** Starting, adopting, waiting, dropping a target and disconnecting, spelled out on the entries. */
module NavigationSteps {
  import opened Common
  import opened NavigationModel
  import opened NavigationPrune
  import opened NavigationAdopt
  import opened NavigationRun
  import opened NavigationEvents

  // ------------------------------------------------------------ ids

  /** Only cross-document actions contribute an id, in order. */
  lemma {:induction false} IdsExact(actions: seq<Action>, url: string, id: NavId, kind: Kind)
    ensures Ids([]) == []
    ensures Ids(actions + [SameDocument(url)]) == Ids(actions)
    ensures Ids(actions + [CrossDocument(id, kind)]) == Ids(actions) + [id]
  {
    IdsAppend(actions, [SameDocument(url)]);
    IdsPush(actions, id, kind);
    assert [SameDocument(url)][1..] == [];
    assert Ids([SameDocument(url)]) == [] && Ids(actions) + [] == Ids(actions);
  }

  // ------------------------------------------------------------ starting

  /** The kind of the first action that names the navigation. */
  function KindOf(actions: seq<Action>, id: NavId): Option<Kind> {
    if actions == [] then None
    else if actions[0].CrossDocument? && actions[0].id == id then Some(actions[0].kind)
    else KindOf(actions[1..], id)
  }

  /** What starting leaves of an entry: claimed, and otherwise as it was or new. */
  predicate Started(before: Option<Entry>, context: Ctx, kind: Kind, after: Entry) {
    && after.claimed
    && match before
       case Some(e) =>
         && after.context == e.context && after.predecessor == e.predecessor && after.kind == e.kind
         && after.committed == e.committed && after.terminal == e.terminal && after.abandoned == e.abandoned
       case None =>
         && after.context == context && after.predecessor == None && after.kind == kind
         && !after.committed && after.terminal == None && !after.abandoned
  }

  lemma {:induction false} ClaimActionsExact(l: Ledger, context: Ctx, actions: seq<Action>, id: NavId)
    ensures var t := ClaimActions(l, context, actions).table;
            match KindOf(actions, id)
            case None => Find(t, id) == Find(l.table, id)
            case Some(kind) => id in t && Started(Find(l.table, id), context, kind, t[id])
    decreases |actions|
  {
    if actions != [] {
      if actions[0].SameDocument? {
        ClaimActionsExact(l, context, actions[1..], id);
      } else {
        var t := Touch(l, actions[0].id, FreshEntry(context, None, actions[0].kind).(claimed := true));
        var m := t.(table := Claim(t.table, actions[0].id));
        ClaimActionsExact(m, context, actions[1..], id);
      }
    }
  }

  /** After a start every navigation of the operation is there as said, and the rest is as the events left it. */
  lemma {:induction false} StartExact(l: Ledger, op: Operation, id: NavId)
    requires id in Start(l, op).table
    ensures var before, after := Find(Pump(l).0.table, id), Start(l, op).table[id];
            match KindOf(op.actions, id)
            case None => before == Some(after)
            case Some(kind) => Started(before, op.context, kind, after)
  {
    var p := Pump(l).0;
    var m := p.(lawful := p.lawful && Fresh(l, Ids(op.actions)));
    ClaimActionsExact(m, op.context, op.actions, id);
    PruneKeeps(ClaimActions(m, op.context, op.actions).table);
  }

  /** A start with navigations is queued exactly while fewer than 64 are pending on its connection. */
  lemma StartQueues(s: System, c: Conn, op: Operation, deadline: nat, engine: Engine)
    ensures var t := Apply(s, StartOperation(c, op, deadline, engine));
            Queue(t, c) == if Ids(op.actions) != [] && |Queue(s, c)| < 64
                           then Queue(s, c) + [Pending(s.nextToken, deadline, op)] else Queue(s, c)
  {
  }

  // ------------------------------------------------------------ adopting

  predicate Adopted(t: Table, action: Action) {
    action.CrossDocument? && action.id in t && action.kind == t[action.id].kind
  }

  /** Adoption appends cross-document actions with the kinds the map has for them. */
  lemma {:induction false} AdoptKinds(t: Table, op: Operation)
    ensures var a := Adopt(t, op).op.actions;
            && op.actions <= a
            && forall i :: |op.actions| <= i < |a| ==> Adopted(t, a[i])
    decreases |Unclaimed(t)|
  {
    if CanAdopt(t, op) && |Ids(op.actions)| < MAX_PENDING_CORE_NAVIGATIONS {
      var s, next := Heir(t, op), AdoptedOp(t, op);
      AdoptKinds(Claim(t, s), next);
      var a := Adopt(t, op).op.actions;
      assert next.actions == op.actions + [CrossDocument(s, t[s].kind)];
      assert a[..|next.actions|] == next.actions;
      assert op.actions == next.actions[..|op.actions|] == a[..|op.actions|];
      forall i | |op.actions| <= i < |a|
        ensures Adopted(t, a[i])
      {
        if i == |op.actions| {
          assert a[i] == next.actions[i];
        } else {
          assert Adopted(Claim(t, s), a[i]);
        }
      }
    }
  }

  // ------------------------------------------------------------ waiting

  /** A waiter takes each event as it comes: what it gets from a batch it gets from any longer one. */
  lemma {:induction false} WaitAppend(l: Ledger, id: NavId, a: seq<Event>, b: seq<Event>)
    ensures Wait(l, id, a).1.Some? ==> Wait(l, id, a + b).1 == Wait(l, id, a).1
    ensures Wait(l, id, a).1.None? ==> Wait(l, id, a + b) == Wait(Wait(l, id, a).0, id, b)
    decreases |a|
  {
    var (r, taken) := TakeBlocking(l, id);
    if a == [] {
      assert a + b == b;
      assert taken.None? ==> r == l || l.table == r.table;
    } else if taken.None? {
      assert (a + b)[1..] == a[1..] + b && (a + b)[0] == a[0];
      WaitAppend(Record(r, a[0]), id, a[1..], b);
    }
  }

  // ------------------------------------------------------------ dropping a target

  /** Dropping a target leaves exactly the entries of other contexts, as the events left them. */
  lemma {:induction false} RemoveTargetExact(l: Ledger, context: Ctx, id: NavId)
    ensures var t, r := Pump(l).0.table, RemoveTarget(l, context).table;
            Find(r, id) == if id in t && t[id].context != context then Some(t[id]) else None
    ensures RemoveTarget(l, context).closed == Pump(l).0.closed + {context}
  {
  }

  /** Cancelling a target creation leaves nothing of its context. */
  lemma {:induction false} CancelTargetExact(l: Ledger, op: Operation, id: NavId)
    requires op.completion == TargetCreate && id in Cancel(l, op).table
    ensures Cancel(l, op).table[id].context != op.context && op.context in Cancel(l, op).closed
  {
    var p := Pump(l).0;
    var r := RemoveTarget(p.(table := CancelTable(p.table, op)), op.context);
    PruneKeeps(r.table);
  }

  // ------------------------------------------------------------ pumping and disconnecting

  /** A pump records its whole batch in order and reports the engine's word; without a batch nothing happens. */
  lemma {:induction false} PumpExact(l: Ledger, first: Event, second: Event, ok: bool, later: seq<Batch>)
    ensures Pump(l.(pumps := [])) == (l.(pumps := []), true)
    ensures Pump(l.(pumps := [Batch([first, second], ok)] + later)) ==
            (Record(Record(l.(pumps := later), first), second), ok)
  {
    var batch := Batch([first, second], ok);
    assert ([batch] + later)[1..] == later;
    assert [first, second][1..] == [second] && [second][1..] == [];
    var m := l.(pumps := later);
    assert RecordAll(m, [first, second]) == RecordAll(Record(m, first), [second]);
    assert RecordAll(Record(m, first), [second]) == Record(Record(m, first), second);
  }

  /** Disconnecting takes in events, adopts and cancels what is pending, and takes in events again. */
  lemma {:induction false} DisconnectExact(l: Ledger, p: Pending)
    ensures Disconnect(l, []) == Pump(Pump(l).0).0
    ensures var a := AdoptIn(Pump(l).0, p.op);
            Disconnect(l, [p]) == Pump(Cancel(a.ledger, a.op)).0
  {
    var m := Pump(l).0;
    var a := AdoptIn(m, p.op);
    assert [p][1..] == [];
    assert CancelAll(Cancel(a.ledger, a.op), []) == Cancel(a.ledger, a.op);
  }
}
