/** No claim leaks: whatever is claimed and not abandoned belongs to a pending operation. */
module NavigationClaims {
  import opened Common
  import opened NavigationModel
  import opened NavigationPrune
  import opened NavigationAdopt
  import opened NavigationCancel
  import opened NavigationOwnership
  import opened NavigationRun

  predicate Held(t: Table, id: NavId) { id in t && t[id].claimed && !t[id].abandoned }

  /** Every held entry is in `owned`. */
  ghost predicate Tight(t: Table, owned: set<NavId>) {
    forall id :: Held(t, id) ==> id in owned
  }

  // ------------------------------------------------------------ one operation

  lemma {:induction false} PruneTight(t: Table, owned: set<NavId>)
    requires Tight(t, owned)
    ensures Tight(Prune(t), owned)
  {
    PruneKeeps(t);
    forall id | Held(Prune(t), id)
      ensures id in owned
    {
      assert Held(t, id);
    }
  }

  lemma NoteTight(l: Ledger, owned: set<NavId>, event: Event)
    requires Tight(l.table, owned)
    ensures Tight(Note(l, event).table, owned)
  {
    forall id | Held(Note(l, event).table, id)
      ensures id in owned
    {
      assert Held(l.table, id);
    }
  }

  lemma RecordTight(l: Ledger, owned: set<NavId>, event: Event)
    requires Tight(l.table, owned)
    ensures Tight(Record(l, event).table, owned)
  {
    NoteTight(l, owned, event);
    PruneTight(Note(l, event).table, owned);
  }

  lemma {:induction false} RecordAllTight(l: Ledger, owned: set<NavId>, events: seq<Event>)
    requires Tight(l.table, owned)
    ensures Tight(RecordAll(l, events).table, owned)
    decreases |events|
  {
    if events != [] {
      RecordTight(l, owned, events[0]);
      RecordAllTight(Record(l, events[0]), owned, events[1..]);
    }
  }

  lemma PumpTight(l: Ledger, owned: set<NavId>)
    requires Tight(l.table, owned)
    ensures Tight(Pump(l).0.table, owned)
  {
    if l.pumps != [] {
      RecordAllTight(l.(pumps := l.pumps[1..]), owned, l.pumps[0].events);
    }
  }

  lemma RemoveTargetTight(l: Ledger, owned: set<NavId>, context: Ctx)
    requires Tight(l.table, owned)
    ensures Tight(RemoveTarget(l, context).table, owned)
  {
    PumpTight(l, owned);
    forall id | Held(RemoveTarget(l, context).table, id)
      ensures id in owned
    {
      assert Held(Pump(l).0.table, id);
    }
  }

  lemma {:induction false} WaitTight(l: Ledger, owned: set<NavId>, id: NavId, events: seq<Event>)
    requires Tight(l.table, owned)
    ensures Tight(Wait(l, id, events).0.table, owned)
    decreases |events|
  {
    var (r, taken) := TakeBlocking(l, id);
    assert Tight(r.table, owned) by {
      forall x | Held(r.table, x)
        ensures x in owned
      {
        assert Held(l.table, x);
      }
    }
    if taken.None? && events != [] {
      RecordTight(r, owned, events[0]);
      WaitTight(Record(r, events[0]), owned, id, events[1..]);
    }
  }

  lemma AdoptTight(l: Ledger, others: set<NavId>, op: Operation)
    requires Tight(l.table, others + IdSet(op))
    ensures Tight(AdoptIn(l, op).ledger.table, others + IdSet(AdoptIn(l, op).op))
  {
    AdoptFrame(l.table, op);
    var a := AdoptIn(l, op);
    var before, after := Ids(op.actions), Ids(a.op.actions);
    forall id | Held(a.ledger.table, id)
      ensures id in others + IdSet(a.op)
    {
      if id in after[|before|..] {
        assert id in after;
      } else {
        assert Held(l.table, id);
        assert id in before ==> id in after;
      }
    }
  }

  lemma CancelTableTight(t: Table, others: set<NavId>, op: Operation)
    requires Tight(t, others + IdSet(op))
    ensures Tight(CancelTable(t, op), others)
  {
    GrowFrame(t, op.context, Ids(op.actions));
    var (grown, ids) := Grow(t, op.context, Ids(op.actions));
    forall id | Held(CancelTable(t, op), id)
      ensures id in others
    {
      ConsumeExact(grown, ids, id);
      assert id !in ids;
      assert Held(t, id);
      assert id in Ids(op.actions) ==> id in ids;
    }
  }

  lemma CancelTight(l: Ledger, others: set<NavId>, op: Operation)
    requires Tight(l.table, others + IdSet(op))
    ensures Tight(Cancel(l, op).table, others)
  {
    PumpTight(l, others + IdSet(op));
    var p := Pump(l).0;
    CancelTableTight(p.table, others, op);
    var c := p.(table := CancelTable(p.table, op));
    if op.completion.TargetCreate? {
      RemoveTargetTight(c, others, op.context);
      PruneTight(RemoveTarget(c, op.context).table, others);
    } else {
      PruneTight(c.table, others);
    }
  }

  /** Taking outcomes leaves fewer entries, and none of the ids whose entries were terminal. */
  lemma {:induction false} RemoveOutcomesGone(l: Ledger, ids: seq<NavId>)
    requires forall id :: id in ids && id in l.table ==> l.table[id].terminal.Some?
    ensures var r := RemoveOutcomes(l, ids).table;
            && (forall id :: id in r ==> id in l.table && r[id] == l.table[id])
            && (forall id :: id in ids ==> id !in r)
    decreases |ids|
  {
    if ids != [] {
      RemoveOutcomesGone(RemoveOutcome(l, ids[0]).0, ids[1..]);
      assert ids == [ids[0]] + ids[1..];
    }
  }

  lemma TakeSocketTight(l: Ledger, others: set<NavId>, op: Operation)
    requires Tight(l.table, others + IdSet(op))
    ensures var (r, result) := TakeSocket(l, Ids(op.actions));
            && Tight(r.table, others + IdSet(op))
            && (result.Some? ==> Tight(r.table, others))
  {
    var ids := Ids(op.actions);
    if Ready(l.table, ids) {
      var front, last := ids[..|ids| - 1], ids[|ids| - 1];
      RemoveOutcomesGone(l, front);
      var (r, result) := TakeSocket(l, ids);
      assert ids == front + [last];
      forall id | Held(r.table, id)
        ensures Held(l.table, id) && id !in ids
      {
      }
    }
  }

  lemma ConfirmTight(l: Ledger, others: set<NavId>, op: Operation)
    requires Tight(l.table, others + IdSet(op))
    ensures Tight(Confirm(l, op).ledger.table, others + IdSet(Confirm(l, op).op))
  {
    var probed := Probe(l).0;
    PumpTight(probed, others + IdSet(op));
    AdoptTight(Pump(probed).0, others, op);
  }

  lemma SettleTight(l: Ledger, others: set<NavId>, op: Operation, pumpOk: bool)
    requires Tight(l.table, others + IdSet(op))
    ensures Tight(Settle(l, op, pumpOk).ledger.table, others + IdSet(Settle(l, op, pumpOk).op))
  {
    AdoptTight(l, others, op);
    var a := AdoptIn(l, op);
    ConfirmTight(a.ledger, others, a.op);
  }

  lemma DecideTight(l: Ledger, others: set<NavId>, p: Pending, pumpOk: bool, now: nat)
    requires Tight(l.table, others + IdSet(p.op))
    ensures var d := Decide(l, p, pumpOk, now);
            Tight(d.ledger.table, if d.verdict.Waiting? then others + IdSet(d.pending.op) else others)
  {
    SettleTight(l, others, p.op, pumpOk);
    var a := Settle(l, p.op, pumpOk);
    if !pumpOk || a.fault.Some? {
      CancelTight(a.ledger, others, a.op);
    } else {
      TakeSocketTight(a.ledger, others, a.op);
      CancelTight(TakeSocket(a.ledger, Ids(a.op.actions)).0, others, a.op);
    }
  }

  lemma FinishTight(l: Ledger, others: set<NavId>, op: Operation, verdict: Verdict)
    requires Tight(l.table, others)
    ensures Tight(Finish(l, op, verdict).ledger.table, others)
  {
    RemoveTargetTight(l, others, op.context);
    RemoveTargetTight(Probe(l).0, others, op.context);
  }

  lemma PollOneTight(l: Ledger, others: set<NavId>, p: Pending, pumpOk: bool, now: nat)
    requires Tight(l.table, others + IdSet(p.op))
    ensures var r := PollOne(l, p, pumpOk, now);
            Tight(r.ledger.table, if r.verdict.Waiting? then others + IdSet(r.pending.op) else others)
  {
    DecideTight(l, others, p, pumpOk, now);
    var d := Decide(l, p, pumpOk, now);
    if !d.verdict.Waiting? {
      FinishTight(d.ledger, others, d.pending.op, d.verdict);
    }
  }

  lemma {:induction false} ClaimActionsTight(l: Ledger, owned: set<NavId>, context: Ctx, actions: seq<Action>)
    requires Tight(l.table, owned)
    ensures Tight(ClaimActions(l, context, actions).table, owned + (set id | id in Ids(actions)))
    decreases |actions|
  {
    if actions != [] {
      if actions[0].SameDocument? {
        ClaimActionsTight(l, owned, context, actions[1..]);
      } else {
        var x := actions[0].id;
        var t := Touch(l, x, FreshEntry(context, None, actions[0].kind).(claimed := true));
        var m := t.(table := Claim(t.table, x));
        forall id | Held(m.table, id)
          ensures id in owned + {x}
        {
          assert id == x || Held(l.table, id);
        }
        ClaimActionsTight(m, owned + {x}, context, actions[1..]);
        var rest := set id | id in Ids(actions[1..]);
        assert owned + {x} + rest == owned + (set id | id in Ids(actions));
      }
    }
  }

  lemma StartTight(l: Ledger, owned: set<NavId>, op: Operation)
    requires Tight(l.table, owned)
    ensures Tight(Start(l, op).table, owned + IdSet(op))
  {
    PumpTight(l, owned);
    var p := Pump(l).0;
    var m := p.(lawful := p.lawful && Fresh(l, Ids(op.actions)));
    ClaimActionsTight(m, owned, op.context, op.actions);
    PruneTight(ClaimActions(m, op.context, op.actions).table, owned + IdSet(op));
  }

  // ------------------------------------------------------------ queues and runs

  lemma {:induction false} PollAllTight(s: Sweep, others: set<NavId>, todo: seq<Pending>, pumpOk: bool, now: nat)
    requires Tight(s.ledger.table, others + Owned(s.kept + todo))
    ensures var r := PollAll(s, todo, pumpOk, now);
            Tight(r.ledger.table, others + Owned(r.kept))
    decreases |todo|
  {
    if todo == [] {
      assert s.kept + todo == s.kept;
    } else {
      var p, rest := todo[0], todo[1..];
      var elsewhere := others + Owned(s.kept + rest);
      assert s.kept + todo == s.kept + [p] + rest;
      OwnedSplit(s.kept, p, rest);
      assert others + Owned(s.kept + todo) == elsewhere + IdSet(p.op);
      PollOneTight(s.ledger, elsewhere, p, pumpOk, now);
      var one := PollOne(s.ledger, p, pumpOk, now);
      if one.verdict.Waiting? {
        OwnedSplit(s.kept, one.pending, rest);
        assert others + Owned(s.kept + [one.pending] + rest) == elsewhere + IdSet(one.pending.op);
      }
      PollAllTight(SweepStep(s, one), others, rest, pumpOk, now);
    }
  }

  lemma {:induction false} CancelAllTight(l: Ledger, others: set<NavId>, queue: seq<Pending>)
    requires Tight(l.table, others + Owned(queue))
    ensures Tight(CancelAll(l, queue).table, others)
    decreases |queue|
  {
    if queue == [] {
      assert Owned([]) == {} && others + {} == others;
    } else {
      var p, rest := queue[0], queue[1..];
      assert queue == [] + [p] + rest && [] + rest == rest;
      OwnedSplit([], p, rest);
      assert others + Owned(queue) == others + Owned(rest) + IdSet(p.op);
      AdoptTight(l, others + Owned(rest), p.op);
      var a := AdoptIn(l, p.op);
      CancelTight(a.ledger, others + Owned(rest), a.op);
      CancelAllTight(Cancel(a.ledger, a.op), others, rest);
    }
  }

  /** Everything owned by the pending operations of a system. */
  ghost function Everyones(s: System): set<NavId> {
    set c, id | c in s.queues && id in Owned(s.queues[c]) :: id
  }

  lemma EveryonesSplit(s: System, c: Conn)
    ensures Everyones(s) == Elsewhere(s, c) + Owned(Queue(s, c))
  {
    assert Owned([]) == {};
  }

  lemma EveryonesUpdate(s: System, t: System, c: Conn, q: seq<Pending>)
    requires t.queues == s.queues[c := q]
    ensures Everyones(t) == Elsewhere(s, c) + Owned(q)
  {
    EveryonesSplit(t, c);
    assert forall d :: d != c ==> Queue(t, d) == Queue(s, d);
    forall id
      ensures id in Elsewhere(t, c) <==> id in Elsewhere(s, c)
    {
      ElsewhereQueue(s, c, id);
      ElsewhereQueue(t, c, id);
    }
  }

  lemma StartStepTight(s: System, c: Conn, op: Operation, deadline: nat, engine: Engine)
    requires Tight(s.ledger.table, Everyones(s))
    ensures var t := Apply(s, StartOperation(c, op, deadline, engine));
            Tight(t.ledger.table, Everyones(t))
  {
    var t := Apply(s, StartOperation(c, op, deadline, engine));
    var l, q := Load(s.ledger, engine), Queue(s, c);
    if Ids(op.actions) == [] {
      PumpTight(l, Everyones(s));
    } else {
      StartTight(l, Everyones(s), op);
      if |q| >= MAX_PENDING_SOCKET_NAVIGATIONS {
        CancelTight(Start(l, op), Everyones(s), op);
      } else {
        var p := Pending(s.nextToken, deadline, op);
        EveryonesSplit(s, c);
        EveryonesUpdate(s, t, c, q + [p]);
        assert q + [p] + [] == q + [p] && q + [] == q;
        OwnedSplit(q, p, []);
        assert Everyones(t) == Everyones(s) + IdSet(op);
      }
    }
  }

  lemma PollStepTight(s: System, c: Conn, now: nat, engine: Engine)
    requires Tight(s.ledger.table, Everyones(s))
    ensures var t := Apply(s, PollConnection(c, now, engine));
            Tight(t.ledger.table, Everyones(t))
  {
    var t := Apply(s, PollConnection(c, now, engine));
    var l, q := Load(s.ledger, engine), Queue(s, c);
    EveryonesSplit(s, c);
    PumpTight(l, Everyones(s));
    assert [] + q == q;
    PollAllTight(Sweep(Pump(l).0, [], []), Elsewhere(s, c), q, Pump(l).1, now);
    EveryonesUpdate(s, t, c, Queue(t, c));
  }

  lemma CloseStepTight(s: System, c: Conn, engine: Engine)
    requires Tight(s.ledger.table, Everyones(s))
    ensures var t := Apply(s, CloseConnection(c, engine));
            Tight(t.ledger.table, Everyones(t))
  {
    var t := Apply(s, CloseConnection(c, engine));
    var l, q := Load(s.ledger, engine), Queue(s, c);
    EveryonesSplit(s, c);
    PumpTight(l, Everyones(s));
    CancelAllTight(Pump(l).0, Elsewhere(s, c), q);
    PumpTight(CancelAll(Pump(l).0, q), Elsewhere(s, c));
    EveryonesUpdate(s, t, c, []);
    assert Owned([]) == {};
    assert Elsewhere(s, c) + {} == Elsewhere(s, c);
  }

  lemma ApplyTight(s: System, step: Step)
    requires Tight(s.ledger.table, Everyones(s))
    ensures Tight(Apply(s, step).ledger.table, Everyones(Apply(s, step)))
  {
    match step
    case StartOperation(c, op, deadline, engine) => StartStepTight(s, c, op, deadline, engine);
    case PollConnection(c, now, engine) => PollStepTight(s, c, now, engine);
    case CloseConnection(c, engine) => CloseStepTight(s, c, engine);
    case BlockingWait(id, events) => WaitTight(s.ledger, Everyones(s), id, events);
    case DrainEvents(engine) => PumpTight(Load(s.ledger, engine), Everyones(s));
    case DropTarget(context, engine) => RemoveTargetTight(Load(s.ledger, engine), Everyones(s), context);
  }

  lemma {:induction false} RunTight(steps: seq<Step>)
    ensures Tight(Run(steps).ledger.table, Everyones(Run(steps)))
    decreases |steps|
  {
    if steps != [] {
      RunTight(steps[..|steps| - 1]);
      ApplyTight(Run(steps[..|steps| - 1]), steps[|steps| - 1]);
    }
  }

  /** Some pending operation owns the navigation. */
  ghost predicate HasOwner(s: System, id: NavId) {
    exists c: Conn, i: nat :: Live(s, c, i) && id in Ids(s.queues[c][i].op.actions)
  }

  /** In every run, lawful or not, a claimed entry that is not abandoned belongs to a pending operation. */
  lemma {:induction false} NoClaimLeaks(steps: seq<Step>, id: NavId)
    requires Held(Run(steps).ledger.table, id)
    ensures HasOwner(Run(steps), id)
  {
    RunTight(steps);
    var s := Run(steps);
    var c :| c in s.queues && id in Owned(s.queues[c]);
    var p :| p in s.queues[c] && id in IdSet(p.op);
    var i :| 0 <= i < |s.queues[c]| && s.queues[c][i] == p;
    assert Live(s, c, i);
  }

  /** In every lawful run an entry is claimed and not abandoned exactly when a pending operation owns it. */
  lemma {:induction false} ClaimsExact(steps: seq<Step>, id: NavId)
    requires Run(steps).ledger.lawful && id in Run(steps).ledger.table
    ensures Held(Run(steps).ledger.table, id) <==> HasOwner(Run(steps), id)
  {
    var s := Run(steps);
    if Held(s.ledger.table, id) {
      NoClaimLeaks(steps, id);
    }
    if HasOwner(s, id) {
      var c: Conn, i: nat :| Live(s, c, i) && id in Ids(s.queues[c][i].op.actions);
      OwnershipHolds(steps, c, i, c, i, id);
    }
  }
}
