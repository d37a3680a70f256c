/** Every outcome in the map, and so every answer, goes back to an event of that very navigation. */
module NavigationHistory {
  import opened Common
  import opened NavigationModel
  import opened NavigationPrune
  import opened NavigationAdopt
  import opened NavigationCancel
  import opened NavigationPoll
  import opened NavigationRun

  /** Some recorded event of the navigation reported this outcome. */
  ghost predicate OutcomeHeard(heard: set<Event>, id: NavId, outcome: Outcome) {
    match outcome
    case Settled => exists c :: NavigationSettled(c, id) in heard
    case Faulted(EngineFault(message)) => exists c :: NavigationFailed(c, id, message) in heard
    case Faulted(CancelledNavigation(x, reason)) => x == id && exists c :: NavigationCancelled(c, id, reason) in heard
    case Faulted(_) => false
  }

  ghost predicate CommitHeard(heard: set<Event>, id: NavId) { exists c :: NavigationCommitted(c, id) in heard }

  /** Every outcome and commit flag in the map was reported by an event. */
  ghost predicate Grounded(l: Ledger) {
    forall id :: id in l.table ==>
      && (l.table[id].terminal.Some? ==> OutcomeHeard(l.heard, id, l.table[id].terminal.value))
      && (l.table[id].committed ==> CommitHeard(l.heard, id))
  }

  /** Nothing was forgotten, and no entry has gained an outcome or a commit. */
  ghost predicate Derives(l: Ledger, m: Ledger) {
    && l.heard <= m.heard
    && forall id :: id in m.table ==>
         || (m.table[id].terminal.None? && !m.table[id].committed)
         || (&& id in l.table && m.table[id].terminal == l.table[id].terminal
             && m.table[id].committed == l.table[id].committed)
  }

  lemma HeardMore(heard: set<Event>, more: set<Event>, id: NavId, outcome: Outcome)
    requires heard <= more
    ensures OutcomeHeard(heard, id, outcome) ==> OutcomeHeard(more, id, outcome)
    ensures CommitHeard(heard, id) ==> CommitHeard(more, id)
  {
  }

  lemma DerivesGrounded(l: Ledger, m: Ledger)
    requires Grounded(l) && Derives(l, m)
    ensures Grounded(m)
  {
    forall id | id in m.table
      ensures m.table[id].terminal.Some? ==> OutcomeHeard(m.heard, id, m.table[id].terminal.value)
      ensures m.table[id].committed ==> CommitHeard(m.heard, id)
    {
      if m.table[id].terminal.Some? {
        HeardMore(l.heard, m.heard, id, m.table[id].terminal.value);
      } else {
        HeardMore(l.heard, m.heard, id, Settled);
      }
    }
  }

  // ------------------------------------------------------------ every operation

  lemma NoteGrounded(l: Ledger, event: Event)
    requires Grounded(l)
    ensures Grounded(Note(l, event))
  {
    var m := Note(l, event);
    forall id | id in m.table
      ensures m.table[id].terminal.Some? ==> OutcomeHeard(m.heard, id, m.table[id].terminal.value)
      ensures m.table[id].committed ==> CommitHeard(m.heard, id)
    {
      assert event in m.heard;
      if id in l.table {
        HeardMore(l.heard, m.heard, id, if l.table[id].terminal.Some? then l.table[id].terminal.value else Settled);
      }
    }
  }

  lemma {:induction false} PruneGrounded(l: Ledger)
    requires Grounded(l)
    ensures Grounded(PruneLedger(l))
  {
    PruneKeeps(l.table);
    DerivesGrounded(l, PruneLedger(l));
  }

  lemma RecordGrounded(l: Ledger, event: Event)
    requires Grounded(l)
    ensures Grounded(Record(l, event))
  {
    NoteGrounded(l, event);
    PruneGrounded(Note(l, event));
  }

  lemma {:induction false} RecordAllGrounded(l: Ledger, events: seq<Event>)
    requires Grounded(l)
    ensures Grounded(RecordAll(l, events))
    decreases |events|
  {
    if events != [] {
      RecordGrounded(l, events[0]);
      RecordAllGrounded(Record(l, events[0]), events[1..]);
    }
  }

  lemma PumpGrounded(l: Ledger)
    requires Grounded(l)
    ensures Grounded(Pump(l).0)
  {
    if l.pumps != [] {
      RecordAllGrounded(l.(pumps := l.pumps[1..]), l.pumps[0].events);
    }
  }

  lemma RemoveTargetGrounded(l: Ledger, context: Ctx)
    requires Grounded(l)
    ensures Grounded(RemoveTarget(l, context))
  {
    PumpGrounded(l);
    DerivesGrounded(Pump(l).0, RemoveTarget(l, context));
  }

  lemma {:induction false} WaitGrounded(l: Ledger, id: NavId, events: seq<Event>)
    requires Grounded(l)
    ensures Grounded(Wait(l, id, events).0)
    decreases |events|
  {
    var (r, taken) := TakeBlocking(l, id);
    DerivesGrounded(l, r);
    if taken.None? && events != [] {
      RecordGrounded(r, events[0]);
      WaitGrounded(Record(r, events[0]), id, events[1..]);
    }
  }

  lemma {:induction false} AdoptGrounded(l: Ledger, op: Operation)
    requires Grounded(l)
    ensures Grounded(AdoptIn(l, op).ledger)
  {
    AdoptFrame(l.table, op);
    DerivesGrounded(l, AdoptIn(l, op).ledger);
  }

  lemma {:induction false} CancelTableGrounded(l: Ledger, op: Operation)
    requires Grounded(l)
    ensures Grounded(l.(table := CancelTable(l.table, op)))
  {
    var t, r := l.table, CancelTable(l.table, op);
    GrowFrame(t, op.context, Ids(op.actions));
    var (grown, ids) := Grow(t, op.context, Ids(op.actions));
    forall id | id in r
      ensures id in t && r[id].terminal == t[id].terminal && r[id].committed == t[id].committed
    {
      ConsumeExact(grown, ids, id);
    }
    DerivesGrounded(l, l.(table := r));
  }

  lemma CancelGrounded(l: Ledger, op: Operation)
    requires Grounded(l)
    ensures Grounded(Cancel(l, op))
  {
    PumpGrounded(l);
    var p := Pump(l).0;
    CancelTableGrounded(p, op);
    var c := p.(table := CancelTable(p.table, op));
    if op.completion.TargetCreate? {
      RemoveTargetGrounded(c, op.context);
      PruneGrounded(RemoveTarget(c, op.context));
    } else {
      PruneGrounded(c);
    }
  }

  lemma {:induction false} RemoveOutcomesGrounded(l: Ledger, ids: seq<NavId>)
    requires Grounded(l)
    ensures Grounded(RemoveOutcomes(l, ids))
    decreases |ids|
  {
    if ids != [] {
      DerivesGrounded(l, RemoveOutcome(l, ids[0]).0);
      RemoveOutcomesGrounded(RemoveOutcome(l, ids[0]).0, ids[1..]);
    }
  }

  lemma {:induction false} TakeSocketGrounded(l: Ledger, ids: seq<NavId>)
    requires Grounded(l)
    ensures Grounded(TakeSocket(l, ids).0)
  {
    if Ready(l.table, ids) {
      var front := RemoveOutcomes(l, ids[..|ids| - 1]);
      RemoveOutcomesGrounded(l, ids[..|ids| - 1]);
      DerivesGrounded(front, TakeClaimed(front, ids[|ids| - 1]).0);
    }
  }

  lemma SettleGrounded(l: Ledger, op: Operation, pumpOk: bool)
    requires Grounded(l)
    ensures Grounded(Settle(l, op, pumpOk).ledger)
  {
    AdoptGrounded(l, op);
    var a := AdoptIn(l, op);
    var probed := Probe(a.ledger).0;
    DerivesGrounded(a.ledger, probed);
    PumpGrounded(probed);
    AdoptGrounded(Pump(probed).0, a.op);
  }

  lemma TimeoutGrounded(l: Ledger, op: Operation)
    requires Grounded(l)
    ensures var taken := TakeSocket(l, Ids(op.actions)).0;
            && Grounded(taken) && Grounded(Cancel(taken, op)) && Grounded(Cancel(taken, op).(panicked := true))
  {
    TakeSocketGrounded(l, Ids(op.actions));
    var taken := TakeSocket(l, Ids(op.actions)).0;
    CancelGrounded(taken, op);
    DerivesGrounded(Cancel(taken, op), Cancel(taken, op).(panicked := true));
  }

  lemma DecideGrounded(l: Ledger, p: Pending, pumpOk: bool, now: nat)
    requires Grounded(l)
    ensures Grounded(Decide(l, p, pumpOk, now).ledger)
  {
    SettleGrounded(l, p.op, pumpOk);
    var a := Settle(l, p.op, pumpOk);
    if !pumpOk || a.fault.Some? {
      CancelGrounded(a.ledger, a.op);
    } else {
      TimeoutGrounded(a.ledger, a.op);
    }
  }

  lemma FinishGrounded(l: Ledger, op: Operation, verdict: Verdict)
    requires Grounded(l)
    ensures Grounded(Finish(l, op, verdict).ledger)
  {
    var probed := Probe(l).0;
    DerivesGrounded(l, probed);
    RemoveTargetGrounded(l, op.context);
    RemoveTargetGrounded(probed, op.context);
  }

  lemma PollOneGrounded(l: Ledger, p: Pending, pumpOk: bool, now: nat)
    requires Grounded(l)
    ensures Grounded(PollOne(l, p, pumpOk, now).ledger)
  {
    DecideGrounded(l, p, pumpOk, now);
    var d := Decide(l, p, pumpOk, now);
    FinishGrounded(d.ledger, d.pending.op, d.verdict);
  }

  lemma {:induction false} PollAllGrounded(s: Sweep, todo: seq<Pending>, pumpOk: bool, now: nat)
    requires Grounded(s.ledger)
    ensures Grounded(PollAll(s, todo, pumpOk, now).ledger)
    decreases |todo|
  {
    if todo != [] {
      PollOneGrounded(s.ledger, todo[0], pumpOk, now);
      PollAllGrounded(SweepStep(s, PollOne(s.ledger, todo[0], pumpOk, now)), todo[1..], pumpOk, now);
    }
  }

  lemma {:induction false} CancelAllGrounded(l: Ledger, queue: seq<Pending>)
    requires Grounded(l)
    ensures Grounded(CancelAll(l, queue))
    decreases |queue|
  {
    if queue != [] {
      AdoptGrounded(l, queue[0].op);
      var a := AdoptIn(l, queue[0].op);
      CancelGrounded(a.ledger, a.op);
      CancelAllGrounded(Cancel(a.ledger, a.op), queue[1..]);
    }
  }

  lemma {:induction false} ClaimActionsGrounded(l: Ledger, context: Ctx, actions: seq<Action>)
    requires Grounded(l)
    ensures Grounded(ClaimActions(l, context, actions))
    decreases |actions|
  {
    if actions != [] {
      if actions[0].SameDocument? {
        ClaimActionsGrounded(l, context, actions[1..]);
      } else {
        var t := Touch(l, actions[0].id, FreshEntry(context, None, actions[0].kind).(claimed := true));
        var m := t.(table := Claim(t.table, actions[0].id));
        DerivesGrounded(l, m);
        ClaimActionsGrounded(m, context, actions[1..]);
      }
    }
  }

  lemma StartGrounded(l: Ledger, op: Operation)
    requires Grounded(l)
    ensures Grounded(Start(l, op))
  {
    PumpGrounded(l);
    var p := Pump(l).0;
    var m := p.(lawful := p.lawful && Fresh(l, Ids(op.actions)));
    DerivesGrounded(p, m);
    ClaimActionsGrounded(m, op.context, op.actions);
    PruneGrounded(ClaimActions(m, op.context, op.actions));
  }

  // ------------------------------------------------------------ runs and answers

  lemma ApplyGrounded(s: System, step: Step)
    requires Grounded(s.ledger)
    ensures Grounded(Apply(s, step).ledger)
  {
    match step
    case StartOperation(c, op, deadline, engine) =>
      var l := Load(s.ledger, engine);
      DerivesGrounded(s.ledger, l);
      PumpGrounded(l);
      StartGrounded(l, op);
      CancelGrounded(Start(l, op), op);
    case PollConnection(c, now, engine) =>
      var l := Load(s.ledger, engine);
      DerivesGrounded(s.ledger, l);
      PumpGrounded(l);
      PollAllGrounded(Sweep(Pump(l).0, [], []), Queue(s, c), Pump(l).1, now);
    case CloseConnection(c, engine) =>
      var l := Load(s.ledger, engine);
      DerivesGrounded(s.ledger, l);
      PumpGrounded(l);
      CancelAllGrounded(Pump(l).0, Queue(s, c));
      PumpGrounded(CancelAll(Pump(l).0, Queue(s, c)));
    case BlockingWait(id, events) => WaitGrounded(s.ledger, id, events);
    case DrainEvents(engine) =>
      DerivesGrounded(s.ledger, Load(s.ledger, engine));
      PumpGrounded(Load(s.ledger, engine));
    case DropTarget(context, engine) =>
      DerivesGrounded(s.ledger, Load(s.ledger, engine));
      RemoveTargetGrounded(Load(s.ledger, engine), context);
  }

  /** In every run, lawful or not, every outcome and commit flag in the map was reported by an event. */
  lemma {:induction false} RunGrounded(steps: seq<Step>)
    ensures Grounded(Run(steps).ledger)
    decreases |steps|
  {
    if steps != [] {
      RunGrounded(steps[..|steps| - 1]);
      ApplyGrounded(Run(steps[..|steps| - 1]), steps[|steps| - 1]);
    }
  }

  /** A success needs a `NavigationSettled` event of the operation's last navigation, and its flag a commit. */
  lemma SuccessHeard(l: Ledger, p: Pending, pumpOk: bool, now: nat, committed: bool)
    requires Grounded(l) && PollOne(l, p, pumpOk, now).verdict == Success(committed)
    ensures var a := Settle(l, p.op, pumpOk);
            var ids := Ids(a.op.actions);
            && ids != []
            && OutcomeHeard(a.ledger.heard, ids[|ids| - 1], Settled)
            && (committed ==> CommitHeard(a.ledger.heard, ids[|ids| - 1]))
  {
    SuccessOnly(l, p, pumpOk, now, committed);
    SettleGrounded(l, p.op, pumpOk);
  }

  /** The faults settling itself may raise. */
  predicate Procedural(fault: Fault) {
    fault == SuccessorLimitExceeded || fault == ContextUnavailable || fault == EventPumpFailed
  }

  lemma SettleProcedural(l: Ledger, op: Operation, pumpOk: bool)
    ensures Settle(l, op, pumpOk).fault.Some? ==> Procedural(Settle(l, op, pumpOk).fault.value)
  {
    AdoptStops(l.table, op);
    var a := AdoptIn(l, op);
    AdoptStops(Pump(Probe(a.ledger).0).0.table, a.op);
  }

  /** A fault that is the server's own, a timeout after the deadline, or what an event of the last id reported. */
  ghost predicate Accounted(heard: set<Event>, ids: seq<NavId>, p: Pending, now: nat, fault: Fault) {
    || Procedural(fault)
    || (now >= p.deadline && ids != [] && fault == TimedOut(ids[|ids| - 1], p.op.context))
    || (ids != [] && OutcomeHeard(heard, ids[|ids| - 1], Faulted(fault)))
  }

  /** Every failure that is answered has one of these three grounds. */
  lemma FailureHeard(l: Ledger, p: Pending, pumpOk: bool, now: nat, fault: Fault)
    requires Grounded(l) && PollOne(l, p, pumpOk, now).verdict == Failure(fault)
    ensures var a := Settle(l, p.op, pumpOk);
            Accounted(a.ledger.heard, Ids(a.op.actions), p, now, fault)
  {
    SettleKeeps(l, p.op, pumpOk);
    var d := Decide(l, p, pumpOk, now);
    if d.verdict == Failure(fault) {
      DecideFailure(l, p, pumpOk, now, fault);
    } else {
      FinishFault(d.ledger, d.pending.op, d.verdict, fault);
    }
  }

  lemma FinishFault(l: Ledger, op: Operation, verdict: Verdict, fault: Fault)
    requires Finish(l, op, verdict).verdict == Failure(fault) && verdict != Failure(fault)
    ensures fault == ContextUnavailable
  {
  }

  /** Where a failed decision can come from. */
  lemma FailureCases(l: Ledger, p: Pending, pumpOk: bool, now: nat, fault: Fault)
    requires Decide(l, p, pumpOk, now).verdict == Failure(fault)
    ensures var a := Settle(l, p.op, pumpOk);
            var ids := Ids(a.op.actions);
            var taken := TakeSocket(a.ledger, ids).1;
            || fault == EventPumpFailed || a.fault == Some(fault)
            || (now >= p.deadline && ids != [] && fault == TimedOut(ids[|ids| - 1], a.op.context))
            || (taken.Some? && taken.value.outcome == Faulted(fault))
  {
    var a := Settle(l, p.op, pumpOk);
    var d := Decide(l, p, pumpOk, now);
    if !pumpOk {
      assert d.verdict == Failure(EventPumpFailed);
    } else if a.fault.Some? {
      assert d.verdict == Failure(a.fault.value);
    }
  }

  lemma TakenHeard(l: Ledger, ids: seq<NavId>, fault: Fault)
    requires Grounded(l) && TakeSocket(l, ids).1.Some? && TakeSocket(l, ids).1.value.outcome == Faulted(fault)
    ensures ids != [] && OutcomeHeard(l.heard, ids[|ids| - 1], Faulted(fault))
  {
    TakeSocketOnly(l, ids);
  }

  lemma DecideFailure(l: Ledger, p: Pending, pumpOk: bool, now: nat, fault: Fault)
    requires Grounded(l) && Decide(l, p, pumpOk, now).verdict == Failure(fault)
    ensures var a := Settle(l, p.op, pumpOk);
            Accounted(a.ledger.heard, Ids(a.op.actions), p, now, fault)
  {
    FailureCases(l, p, pumpOk, now, fault);
    SettleProcedural(l, p.op, pumpOk);
    SettleKeeps(l, p.op, pumpOk);
    SettleGrounded(l, p.op, pumpOk);
    var a := Settle(l, p.op, pumpOk);
    var taken := TakeSocket(a.ledger, Ids(a.op.actions)).1;
    if taken.Some? && taken.value.outcome == Faulted(fault) {
      TakenHeard(a.ledger, Ids(a.op.actions), fault);
    }
  }

  /** In every run nothing is answered as timed out before its deadline. */
  lemma TimeoutOnlyAfter(l: Ledger, p: Pending, pumpOk: bool, now: nat, id: NavId, context: Ctx)
    requires Grounded(l) && PollOne(l, p, pumpOk, now).verdict == Failure(TimedOut(id, context))
    ensures now >= p.deadline
  {
    FailureHeard(l, p, pumpOk, now, TimedOut(id, context));
    var a := Settle(l, p.op, pumpOk);
    TimeoutAccounted(a.ledger.heard, Ids(a.op.actions), p, now, id, context);
  }

  lemma TimeoutAccounted(heard: set<Event>, ids: seq<NavId>, p: Pending, now: nat, id: NavId, context: Ctx)
    requires Accounted(heard, ids, p, now, TimedOut(id, context))
    ensures now >= p.deadline
  {
  }

  // ------------------------------------------------------------ nothing goes unheard

  lemma RecordHears(l: Ledger, event: Event)
    ensures Record(l, event).heard == l.heard + {event}
  {
  }

  lemma EventsCons(events: seq<Event>)
    requires events != []
    ensures (set e | e in events) == {events[0]} + (set e | e in events[1..])
  {
    assert events == [events[0]] + events[1..];
  }

  lemma {:induction false} RecordAllHeard(l: Ledger, events: seq<Event>)
    ensures RecordAll(l, events).heard == l.heard + (set e | e in events)
    decreases |events|
  {
    if events != [] {
      RecordHears(l, events[0]);
      RecordAllHeard(Record(l, events[0]), events[1..]);
      EventsCons(events);
    }
  }

  /** The events of the batch that comes next. */
  function Next(l: Ledger): set<Event> {
    if l.pumps == [] then {} else set e | e in l.pumps[0].events
  }

  lemma PumpHears(l: Ledger)
    ensures Pump(l).0.heard == l.heard + Next(l)
  {
    if l.pumps != [] {
      RecordAllHeard(l.(pumps := l.pumps[1..]), l.pumps[0].events);
    }
  }

  lemma CancelHears(l: Ledger, op: Operation)
    ensures l.heard + Next(l) <= Cancel(l, op).heard
  {
    PumpHears(l);
    var p := Pump(l).0;
    PumpHears(p.(table := CancelTable(p.table, op)));
  }

  /** Cancelling, dropping a target, starting and the second look all take in the next batch of events. */
  lemma StepsHear(l: Ledger, op: Operation, context: Ctx)
    ensures l.heard + Next(l) <= Cancel(l, op).heard
    ensures RemoveTarget(l, context).heard == l.heard + Next(l)
    ensures Start(l, op).heard == l.heard + Next(l)
    ensures Probe(l).1 ==> Confirm(l, op).ledger.heard == l.heard + Next(l)
  {
    CancelHears(l, op);
    PumpHears(l);
    var p := Pump(l).0;
    PumpHears(Probe(l).0);
    ClaimActionsHeard(p.(lawful := p.lawful && Fresh(l, Ids(op.actions))), op.context, op.actions);
  }

  lemma {:induction false} ClaimActionsHeard(l: Ledger, context: Ctx, actions: seq<Action>)
    ensures ClaimActions(l, context, actions).heard == l.heard
    decreases |actions|
  {
    if actions != [] {
      if actions[0].SameDocument? {
        ClaimActionsHeard(l, context, actions[1..]);
      } else {
        var t := Touch(l, actions[0].id, FreshEntry(context, None, actions[0].kind).(claimed := true));
        ClaimActionsHeard(t.(table := Claim(t.table, actions[0].id)), context, actions[1..]);
      }
    }
  }
}
