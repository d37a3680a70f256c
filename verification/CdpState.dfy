/**
 The ledger as the server keeps it: one object whose map is rewritten in place by
 loops. Every method is proved to compute the function of the same operation in
 `NavigationModel`, so every theorem about those functions is a theorem about it.
 */
module CdpState {
  import opened Common
  import opened NavigationModel

  class CdpState {
    var pending: map<NavId, Entry>
    var pumps: seq<Batch>
    var probes: seq<bool>
    var panicked: bool
    ghost var home: map<NavId, Ctx>
    ghost var closed: set<Ctx>
    ghost var lawful: bool
    ghost var heard: set<Event>

    ghost function View(): Ledger
      reads this
    {
      Ledger(pending, pumps, probes, home, closed, lawful, panicked, heard)
    }

    constructor ()
      ensures View() == Ledger(map[], [], [], map[], {}, true, false, {})
    {
      pending, pumps, probes, panicked := map[], [], [], false;
      home, closed, lawful, heard := map[], {}, true, {};
    }

    method PrunePendingCoreNavigations()
      modifies this`pending
      ensures View() == PruneLedger(old(View()))
    {
      while |pending| > MAX_PENDING_CORE_NAVIGATIONS
        invariant Prune(pending) == Prune(old(pending))
        decreases |pending|
      {
        var candidates := Evictable(pending);
        if candidates == {} {
          break;
        }
        pending := pending - {Least(candidates)};
      }
    }

    /** `entry(id).or_insert(initial)`. */
    method OrInsert(id: NavId, initial: Entry)
      modifies this`pending, this`home, this`lawful
      ensures View() == Touch(old(View()), id, initial)
    {
      if id !in pending {
        lawful := lawful && initial.context !in closed && (id in home ==> home[id] == initial.context);
        home := home[id := initial.context];
        pending := pending[id := initial];
      }
    }

    method RecordCoreEvent(event: Event)
      modifies this`pending, this`home, this`lawful, this`heard
      ensures View() == Record(old(View()), event)
    {
      match event {
        case NavigationRequested(context, id, predecessor, kind) =>
          OrInsert(id, FreshEntry(context, predecessor, kind));
          pending := pending[id := pending[id].(kind := kind, predecessor := predecessor)];
        case NavigationCommitted(context, id) =>
          OrInsert(id, FreshEntry(context, None, Regular));
          pending := pending[id := pending[id].(committed := true)];
        case NavigationSettled(context, id) =>
          OrInsert(id, FreshEntry(context, None, Regular));
          pending := pending[id := pending[id].(terminal := Some(Settled))];
        case NavigationFailed(context, id, error) =>
          OrInsert(id, FreshEntry(context, None, Regular));
          pending := pending[id := pending[id].(terminal := Some(Faulted(EngineFault(error))))];
        case NavigationCancelled(context, id, reason) =>
          OrInsert(id, FreshEntry(context, None, Regular));
          pending := pending[id := pending[id].(terminal := Some(Faulted(CancelledNavigation(id, reason))))];
        case OtherEvent =>
      }
      heard := heard + {event};
      assert View() == Note(old(View()), event);
      PrunePendingCoreNavigations();
    }

    method PumpCoreEvents() returns (ok: bool)
      modifies this`pending, this`home, this`lawful, this`heard, this`pumps
      ensures (View(), ok) == Pump(old(View()))
    {
      ok := true;
      if pumps != [] {
        var batch := pumps[0];
        pumps := pumps[1..];
        ghost var begun := View();
        var i := 0;
        while i < |batch.events|
          invariant 0 <= i <= |batch.events|
          invariant RecordAll(View(), batch.events[i..]) == RecordAll(begun, batch.events)
          invariant pumps == begun.pumps && probes == begun.probes
          invariant panicked == begun.panicked && closed == begun.closed
        {
          assert batch.events[i..][1..] == batch.events[i + 1..];
          RecordCoreEvent(batch.events[i]);
          i := i + 1;
        }
        ok := batch.ok;
      }
    }

    method ContextState() returns (answered: bool)
      modifies this`probes
      ensures (View(), answered) == Probe(old(View()))
    {
      answered := true;
      if probes != [] {
        answered := probes[0];
        probes := probes[1..];
      }
    }

    method RemoveFailedTarget(context: Ctx)
      modifies this`pending, this`home, this`lawful, this`heard, this`pumps, this`closed
      ensures View() == RemoveTarget(old(View()), context)
    {
      var _ := PumpCoreEvents();
      pending := map id | id in pending && pending[id].context != context :: pending[id];
      closed := closed + {context};
    }

    method RemoveNavigationOutcome(id: NavId) returns (taken: Option<Taken>)
      modifies this`pending, this`panicked
      ensures (View(), taken) == RemoveOutcome(old(View()), id)
    {
      if id in pending && pending[id].terminal.Some? {
        taken := Some(Taken(pending[id].committed, pending[id].terminal.value));
        pending := pending - {id};
      } else {
        panicked := true;
        taken := None;
      }
    }

    method TakeNavigationOutcome(id: NavId) returns (taken: Option<Taken>)
      modifies this`pending, this`panicked
      ensures (View(), taken) == TakeBlocking(old(View()), id)
    {
      if id !in pending || pending[id].claimed || pending[id].terminal.None? {
        return None;
      }
      taken := RemoveNavigationOutcome(id);
    }

    method TakeSocketNavigationOutcome(id: NavId) returns (taken: Option<Taken>)
      modifies this`pending, this`panicked
      ensures (View(), taken) == TakeClaimed(old(View()), id)
    {
      if id !in pending || !pending[id].claimed || pending[id].terminal.None? {
        return None;
      }
      taken := RemoveNavigationOutcome(id);
    }

    method TakeSocketOperationOutcome(ids: seq<NavId>) returns (taken: Option<Taken>)
      modifies this`pending, this`panicked
      ensures (View(), taken) == TakeSocket(old(View()), ids)
    {
      if !Ready(pending, ids) {
        return None;
      }
      var superseded := ids[..|ids| - 1];
      for i := 0 to |superseded|
        invariant RemoveOutcomes(View(), superseded[i..]) == RemoveOutcomes(old(View()), superseded)
        invariant View() == old(View()).(table := pending, panicked := panicked)
      {
        assert superseded[i..][1..] == superseded[i + 1..];
        var _ := RemoveNavigationOutcome(superseded[i]);
      }
      taken := TakeSocketNavigationOutcome(ids[|ids| - 1]);
    }

    /** `events` are those that arrive before the deadline. */
    method WaitForNavigation(id: NavId, events: seq<Event>) returns (taken: Option<Taken>)
      modifies this`pending, this`home, this`lawful, this`heard, this`panicked
      ensures (View(), taken) == Wait(old(View()), id, events)
    {
      taken := None;
      var i := 0;
      while true
        invariant 0 <= i <= |events|
        invariant Wait(View(), id, events[i..]) == Wait(old(View()), id, events)
        decreases |events| - i
      {
        taken := TakeNavigationOutcome(id);
        if taken.Some? || i == |events| {
          return;
        }
        assert events[i..][1..] == events[i + 1..];
        RecordCoreEvent(events[i]);
        i := i + 1;
      }
    }

    /** The search part of one turn of `adopt_active_socket_successor`. */
    method FindSuccessor(op: Operation) returns (successor: Option<NavId>)
      ensures successor.Some? <==> CanAdopt(pending, op)
      ensures successor.Some? ==> successor.value == Heir(pending, op)
    {
      var ids := Ids(op.actions);
      if !AllTerminal(pending, ids) || ids == [] {
        return None;
      }
      var successors := SuccessorsOf(pending, op.context, ids[|ids| - 1]);
      if successors == {} {
        return None;
      }
      var least := Least(successors);
      successor := if pending[least].claimed then None else Some(least);
    }

    method AdoptActiveSocketSuccessor(op: Operation) returns (adopted: Operation, fault: Option<Fault>)
      modifies this`pending
      ensures Settling(View(), adopted, fault) == AdoptIn(old(View()), op)
    {
      adopted := op;
      while true
        invariant Adopt(pending, adopted) == Adopt(old(pending), op)
        decreases |Unclaimed(pending)|
      {
        var successor := FindSuccessor(adopted);
        if successor.None? {
          return adopted, None;
        }
        if |Ids(adopted.actions)| >= MAX_PENDING_CORE_NAVIGATIONS {
          return adopted, Some(SuccessorLimitExceeded);
        }
        var entry := pending[successor.value];
        var action := CrossDocument(successor.value, entry.kind);
        pending := Claim(pending, successor.value);
        adopted := adopted.(actions := adopted.actions + [action]);
        if entry.terminal.None? {
          NotYetAdoptable(pending, adopted, action);
          return adopted, None;
        }
      }
    }

    /** An operation whose last navigation is not terminal adopts nothing. */
    static lemma NotYetAdoptable(t: Table, op: Operation, action: Action)
      requires action.CrossDocument? && |op.actions| > 0 && op.actions[|op.actions| - 1] == action
      requires action.id in t && t[action.id].terminal.None?
      ensures !CanAdopt(t, op)
    {
      LastId(op.actions);
    }

    static lemma {:induction false} LastId(actions: seq<Action>)
      requires |actions| > 0 && actions[|actions| - 1].CrossDocument?
      ensures Ids(actions) != [] && Ids(actions)[|Ids(actions)| - 1] == actions[|actions| - 1].id
    {
      if |actions| > 1 {
        LastId(actions[1..]);
      }
    }

    method AbandonNavigationIds(ids: seq<NavId>)
      modifies this`pending
      ensures |ids| == 1 && ids[0] in old(pending) && old(pending)[ids[0]].terminal.None?
              ==> pending == ConsumeOne(old(pending), ids[0])
      ensures |ids| == 1 && ids[0] !in old(pending) ==> pending == old(pending)
      ensures pending.Keys == old(pending).Keys
      ensures forall id :: id in pending ==>
                pending[id] == if id in ids && old(pending)[id].claimed
                               then old(pending)[id].(abandoned := true) else old(pending)[id]
    {
      for i := 0 to |ids|
        invariant pending.Keys == old(pending).Keys
        invariant forall id :: id in pending ==>
                    pending[id] == if id in ids[..i] && old(pending)[id].claimed
                                   then old(pending)[id].(abandoned := true) else old(pending)[id]
      {
        var id := ids[i];
        if id in pending && pending[id].claimed {
          pending := pending[id := pending[id].(abandoned := true)];
        }
        assert ids[..i + 1] == ids[..i] + [id];
      }
      assert ids[..|ids|] == ids;
      if |ids| == 1 {
        assert ids == [ids[0]];
      }
    }

    method CancelAndConsumeSocketOperation(op: Operation)
      modifies this`pending, this`home, this`lawful, this`heard, this`pumps, this`closed
      ensures View() == Cancel(old(View()), op)
    {
      var _ := PumpCoreEvents();
      ghost var pumped := View();
      var ids := Ids(op.actions);
      while Heirs(pending, op.context, ids) != {}
        invariant Grow(pending, op.context, ids) == Grow(pumped.table, op.context, Ids(op.actions))
        invariant View() == pumped.(table := pending)
        decreases |Unclaimed(pending)|
      {
        var successor := Least(Heirs(pending, op.context, ids));
        pending := Claim(pending, successor);
        ids := ids + [successor];
      }
      ghost var grown := pending;
      for i := 0 to |ids|
        invariant Consume(pending, ids[i..]) == Consume(grown, ids)
        invariant View() == pumped.(table := pending)
      {
        assert ids[i..][1..] == ids[i + 1..];
        var terminal := ids[i] in pending && pending[ids[i]].terminal.Some?;
        if terminal {
          pending := pending - {ids[i]};
        } else {
          AbandonNavigationIds([ids[i]]);
        }
      }
      if op.completion.TargetCreate? {
        RemoveFailedTarget(op.context);
      }
      PrunePendingCoreNavigations();
    }

    /** The claiming part of starting an operation whose dispatch already produced `op`. */
    method StartSocketOperation(op: Operation)
      modifies this`pending, this`home, this`lawful, this`heard, this`pumps
      ensures View() == Start(old(View()), op)
    {
      ghost var begun := View();
      var _ := PumpCoreEvents();
      lawful := lawful && Fresh(begun, Ids(op.actions));
      ghost var dispatched := View();
      for i := 0 to |op.actions|
        invariant ClaimActions(View(), op.context, op.actions[i..])
                  == ClaimActions(dispatched, op.context, op.actions)
      {
        assert op.actions[i..][1..] == op.actions[i + 1..];
        if op.actions[i].CrossDocument? {
          var id := op.actions[i].id;
          OrInsert(id, FreshEntry(op.context, None, op.actions[i].kind).(claimed := true));
          pending := pending[id := pending[id].(claimed := true)];
        }
      }
      PrunePendingCoreNavigations();
    }

    method SettleSocketOperation(op: Operation, pumpOk: bool) returns (settled: Operation, fault: Option<Fault>)
      modifies this`pending, this`home, this`lawful, this`heard, this`pumps, this`probes
      ensures Settling(View(), settled, fault) == Settle(old(View()), op, pumpOk)
    {
      settled, fault := AdoptActiveSocketSuccessor(op);
      if pumpOk && fault.None? && Ready(pending, Ids(settled.actions)) {
        var answered := ContextState();
        if !answered {
          return settled, Some(ContextUnavailable);
        }
        var ok := PumpCoreEvents();
        if !ok {
          return settled, Some(EventPumpFailed);
        }
        settled, fault := AdoptActiveSocketSuccessor(settled);
      }
    }

    method DecideSocketOperation(p: Pending, pumpOk: bool, now: nat) returns (q: Pending, verdict: Verdict)
      modifies this
      ensures Polled(View(), q, verdict) == Decide(old(View()), p, pumpOk, now)
    {
      var settled, fault := SettleSocketOperation(p.op, pumpOk);
      q := p.(op := settled);
      var ids := Ids(settled.actions);
      if !pumpOk {
        CancelAndConsumeSocketOperation(settled);
        return q, Failure(EventPumpFailed);
      }
      if fault.Some? {
        CancelAndConsumeSocketOperation(settled);
        return q, Failure(fault.value);
      }
      var taken := TakeSocketOperationOutcome(ids);
      if taken.Some? {
        verdict := match taken.value.outcome
                   case Settled => Success(taken.value.committed)
                   case Faulted(f) => Failure(f);
      } else if now >= p.deadline {
        CancelAndConsumeSocketOperation(settled);
        if ids == [] {
          panicked := true;
          verdict := Failure(EventPumpFailed);
        } else {
          verdict := Failure(TimedOut(ids[|ids| - 1], settled.context));
        }
      } else {
        verdict := Waiting;
      }
    }

    method PollSocketOperations(queue: seq<Pending>, now: nat) returns (kept: seq<Pending>, answers: seq<Answer>)
      modifies this
      ensures Sweep(View(), kept, answers) == Poll(old(View()), queue, now)
    {
      var pumpOk := PumpCoreEvents();
      ghost var begun := Sweep(View(), [], []);
      kept, answers := [], [];
      for i := 0 to |queue|
        invariant PollAll(Sweep(View(), kept, answers), queue[i..], pumpOk, now) == PollAll(begun, queue, pumpOk, now)
      {
        assert queue[i..][1..] == queue[i + 1..];
        ghost var before := View();
        var q, verdict := DecideSocketOperation(queue[i], pumpOk, now);
        if verdict.Waiting? {
          kept := kept + [q];
        } else {
          verdict := FinishSocketOperation(q.op, verdict);
          answers := answers + [Answer(q.token, verdict)];
        }
      }
    }

    /** The completion handlers; the answer may turn out an error after all. */
    method FinishSocketOperation(op: Operation, outcome: Verdict) returns (verdict: Verdict)
      modifies this
      ensures Finished(View(), verdict) == Finish(old(View()), op, outcome)
    {
      verdict := outcome;
      if outcome.Success? {
        if !Queries(op.completion) {
          return;
        }
        var answered := ContextState();
        if answered {
          return;
        }
        verdict := Failure(ContextUnavailable);
      }
      if op.completion.TargetCreate? {
        RemoveFailedTarget(op.context);
      }
    }

    /** The clean-up when a connection ends. */
    method CloseConnection(queue: seq<Pending>)
      modifies this
      ensures View() == Disconnect(old(View()), queue)
    {
      var _ := PumpCoreEvents();
      ghost var begun := View();
      for i := 0 to |queue|
        invariant CancelAll(View(), queue[i..]) == CancelAll(begun, queue)
      {
        assert queue[i..][1..] == queue[i + 1..];
        var adopted, _ := AdoptActiveSocketSuccessor(queue[i].op);
        CancelAndConsumeSocketOperation(adopted);
      }
      var _ := PumpCoreEvents();
    }
  }
}
