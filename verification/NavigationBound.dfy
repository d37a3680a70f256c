/** The size of the pending-navigation map over whole runs. */
module NavigationBound {
  import opened Common
  import opened NavigationModel
  import opened NavigationAdopt
  import opened NavigationRun

  /** At most 1024 entries, or nothing that pruning could drop. */
  predicate Bounded(t: Table) {
    |t| <= MAX_PENDING_CORE_NAVIGATIONS || Evictable(t) == {}
  }

  /** Some entries of `t`, none of them easier to evict. */
  ghost predicate Shrinks(t: Table, r: Table) {
    && r.Keys <= t.Keys
    && forall id :: id in Evictable(r) ==> id in Evictable(t)
  }

  lemma ShrinksBounded(t: Table, r: Table)
    requires Bounded(t) && Shrinks(t, r)
    ensures Bounded(r)
  {
    SubsetCount(r.Keys, t.Keys);
    if Evictable(t) == {} {
      assert Evictable(r) == {};
    }
  }

  lemma {:induction false} SubsetCount(a: set<NavId>, b: set<NavId>)
    requires a <= b
    ensures |a| <= |b|
  {
    if a != {} {
      var x :| x in a;
      SubsetCount(a - {x}, b - {x});
    }
  }

  lemma {:induction false} PruneBounded(t: Table)
    ensures Bounded(Prune(t))
    decreases |t|
  {
    if |t| > MAX_PENDING_CORE_NAVIGATIONS && Evictable(t) != {} {
      PruneBounded(t - {Least(Evictable(t))});
    }
  }

  lemma {:induction false} RecordAllBounded(l: Ledger, events: seq<Event>)
    requires Bounded(l.table)
    ensures Bounded(RecordAll(l, events).table)
    decreases |events|
  {
    if events != [] {
      PruneBounded(Note(l, events[0]).table);
      RecordAllBounded(Record(l, events[0]), events[1..]);
    }
  }

  lemma PumpBounded(l: Ledger)
    requires Bounded(l.table)
    ensures Bounded(Pump(l).0.table)
  {
    if l.pumps != [] {
      RecordAllBounded(l.(pumps := l.pumps[1..]), l.pumps[0].events);
    }
  }

  lemma RemoveTargetBounded(l: Ledger, context: Ctx)
    requires Bounded(l.table)
    ensures Bounded(RemoveTarget(l, context).table)
  {
    PumpBounded(l);
    ShrinksBounded(Pump(l).0.table, RemoveTarget(l, context).table);
  }

  lemma RemoveOutcomeBounded(l: Ledger, id: NavId)
    requires Bounded(l.table)
    ensures Bounded(RemoveOutcome(l, id).0.table)
  {
    ShrinksBounded(l.table, RemoveOutcome(l, id).0.table);
  }

  lemma {:induction false} RemoveOutcomesBounded(l: Ledger, ids: seq<NavId>)
    requires Bounded(l.table)
    ensures Bounded(RemoveOutcomes(l, ids).table)
    decreases |ids|
  {
    if ids != [] {
      RemoveOutcomeBounded(l, ids[0]);
      RemoveOutcomesBounded(RemoveOutcome(l, ids[0]).0, ids[1..]);
    }
  }

  lemma TakeSocketBounded(l: Ledger, ids: seq<NavId>)
    requires Bounded(l.table)
    ensures Bounded(TakeSocket(l, ids).0.table)
  {
    if Ready(l.table, ids) {
      RemoveOutcomesBounded(l, ids[..|ids| - 1]);
      RemoveOutcomeBounded(RemoveOutcomes(l, ids[..|ids| - 1]), ids[|ids| - 1]);
    }
  }

  lemma {:induction false} WaitBounded(l: Ledger, id: NavId, events: seq<Event>)
    requires Bounded(l.table)
    ensures Bounded(Wait(l, id, events).0.table)
    decreases |events|
  {
    RemoveOutcomeBounded(l, id);
    var (r, taken) := TakeBlocking(l, id);
    if taken.None? && events != [] {
      PruneBounded(Note(r, events[0]).table);
      WaitBounded(Record(r, events[0]), id, events[1..]);
    }
  }

  lemma AdoptBounded(l: Ledger, op: Operation)
    requires Bounded(l.table)
    ensures Bounded(AdoptIn(l, op).ledger.table)
  {
    AdoptFrame(l.table, op);
    ShrinksBounded(l.table, AdoptIn(l, op).ledger.table);
  }

  lemma CancelBounded(l: Ledger, op: Operation)
    ensures Bounded(Cancel(l, op).table)
  {
    var p := Pump(l).0;
    var c := p.(table := CancelTable(p.table, op));
    PruneBounded((if op.completion.TargetCreate? then RemoveTarget(c, op.context) else c).table);
  }

  lemma SettleBounded(l: Ledger, op: Operation, pumpOk: bool)
    requires Bounded(l.table)
    ensures Bounded(Settle(l, op, pumpOk).ledger.table)
  {
    AdoptBounded(l, op);
    var a := AdoptIn(l, op);
    var probed := Probe(a.ledger).0;
    PumpBounded(probed);
    AdoptBounded(Pump(probed).0, a.op);
  }

  lemma TimeoutBounded(l: Ledger, op: Operation)
    requires Bounded(l.table)
    ensures var taken := TakeSocket(l, Ids(op.actions)).0;
            Bounded(taken.table) && Bounded(Cancel(taken, op).table)
  {
    TakeSocketBounded(l, Ids(op.actions));
    CancelBounded(TakeSocket(l, Ids(op.actions)).0, op);
  }

  lemma DecideBounded(l: Ledger, p: Pending, pumpOk: bool, now: nat)
    requires Bounded(l.table)
    ensures Bounded(Decide(l, p, pumpOk, now).ledger.table)
  {
    SettleBounded(l, p.op, pumpOk);
    var a := Settle(l, p.op, pumpOk);
    if !pumpOk || a.fault.Some? {
      CancelBounded(a.ledger, a.op);
    } else {
      TimeoutBounded(a.ledger, a.op);
    }
  }

  lemma FinishBounded(l: Ledger, op: Operation, verdict: Verdict)
    requires Bounded(l.table)
    ensures Bounded(Finish(l, op, verdict).ledger.table)
  {
    RemoveTargetBounded(l, op.context);
    RemoveTargetBounded(Probe(l).0, op.context);
  }

  lemma PollOneBounded(l: Ledger, p: Pending, pumpOk: bool, now: nat)
    requires Bounded(l.table)
    ensures Bounded(PollOne(l, p, pumpOk, now).ledger.table)
  {
    DecideBounded(l, p, pumpOk, now);
    var d := Decide(l, p, pumpOk, now);
    FinishBounded(d.ledger, d.pending.op, d.verdict);
  }

  lemma {:induction false} PollAllBounded(s: Sweep, todo: seq<Pending>, pumpOk: bool, now: nat)
    requires Bounded(s.ledger.table)
    ensures Bounded(PollAll(s, todo, pumpOk, now).ledger.table)
    decreases |todo|
  {
    if todo != [] {
      PollOneBounded(s.ledger, todo[0], pumpOk, now);
      PollAllBounded(SweepStep(s, PollOne(s.ledger, todo[0], pumpOk, now)), todo[1..], pumpOk, now);
    }
  }

  lemma {:induction false} CancelAllBounded(l: Ledger, queue: seq<Pending>)
    requires Bounded(l.table)
    ensures Bounded(CancelAll(l, queue).table)
    decreases |queue|
  {
    if queue != [] {
      var a := AdoptIn(l, queue[0].op);
      CancelBounded(a.ledger, a.op);
      CancelAllBounded(Cancel(a.ledger, a.op), queue[1..]);
    }
  }

  lemma ApplyBounded(s: System, step: Step)
    requires Bounded(s.ledger.table)
    ensures Bounded(Apply(s, step).ledger.table)
  {
    match step
    case StartOperation(c, op, deadline, engine) =>
      var l := Load(s.ledger, engine);
      PumpBounded(l);
      var p := Pump(l).0;
      PruneBounded(
        ClaimActions(p.(lawful := p.lawful && Fresh(l, Ids(op.actions))), op.context, op.actions).table);
      CancelBounded(Start(l, op), op);
    case PollConnection(c, now, engine) =>
      var l := Load(s.ledger, engine);
      PumpBounded(l);
      PollAllBounded(Sweep(Pump(l).0, [], []), Queue(s, c), Pump(l).1, now);
    case CloseConnection(c, engine) =>
      var l := Load(s.ledger, engine);
      PumpBounded(l);
      CancelAllBounded(Pump(l).0, Queue(s, c));
      PumpBounded(CancelAll(Pump(l).0, Queue(s, c)));
    case BlockingWait(id, events) => WaitBounded(s.ledger, id, events);
    case DrainEvents(engine) => PumpBounded(Load(s.ledger, engine));
    case DropTarget(context, engine) => RemoveTargetBounded(Load(s.ledger, engine), context);
  }

  /** In every run, lawful or not, the map stays within 1024 entries unless none of them may be dropped. */
  lemma {:induction false} TableBounded(steps: seq<Step>)
    ensures Bounded(Run(steps).ledger.table)
    ensures |Run(steps).ledger.table| <= 1024 || Evictable(Run(steps).ledger.table) == {}
    decreases |steps|
  {
    if steps != [] {
      TableBounded(steps[..|steps| - 1]);
      ApplyBounded(Run(steps[..|steps| - 1]), steps[|steps| - 1]);
    }
  }
}
