/** The answer to one polled operation, case by case, and what it does to the map. */
module NavigationVerdict {
  import opened Common
  import opened NavigationModel
  import opened NavigationAdopt
  import opened NavigationOwnership
  import opened NavigationPoll
  import opened NavigationClaims
  import opened NavigationEvents

  // ------------------------------------------------------------ settling

  /** The next answer of the engine about a context, and whether the next pump works. */
  predicate NextAnswers(l: Ledger) { l.probes == [] || l.probes[0] }
  predicate NextPumps(l: Ledger) { l.pumps == [] || l.pumps[0].ok }

  /** Which fault settling raises, and when. */
  lemma {:induction false} SettleFault(l: Ledger, op: Operation, pumpOk: bool)
    ensures var first := Adopt(l.table, op);
            var a := Settle(l, op, pumpOk);
            if first.fault.Some? then a.fault == Some(SuccessorLimitExceeded)
            else if !pumpOk || !Ready(first.table, Ids(first.op.actions)) then a.fault == None
            else if !NextAnswers(l) then a.fault == Some(ContextUnavailable)
            else if !NextPumps(l) then a.fault == Some(EventPumpFailed)
            else a.fault == None || a.fault == Some(SuccessorLimitExceeded)
  {
    AdoptStops(l.table, op);
    var first := AdoptIn(l, op);
    var probed := Probe(first.ledger).0;
    AdoptStops(Pump(probed).0.table, first.op);
  }

  /** Once settled without a fault, no successor of the last navigation is left to adopt. */
  lemma SettleStops(l: Ledger, op: Operation, pumpOk: bool)
    ensures var a := Settle(l, op, pumpOk);
            a.fault.None? ==> !CanAdopt(a.ledger.table, a.op)
  {
    AdoptStops(l.table, op);
    var first := AdoptIn(l, op);
    var probed := Probe(first.ledger).0;
    AdoptStops(Pump(probed).0.table, first.op);
  }

  /** So a success is never answered while the last navigation has an unclaimed smallest successor. */
  lemma SuccessIsFinal(l: Ledger, p: Pending, pumpOk: bool, now: nat, committed: bool)
    requires PollOne(l, p, pumpOk, now).verdict == Success(committed)
    ensures var a := Settle(l, p.op, pumpOk);
            var ids := Ids(a.op.actions);
            var heirs := SuccessorsOf(a.ledger.table, a.op.context, ids[|ids| - 1]);
            heirs == {} || a.ledger.table[Least(heirs)].claimed
  {
    SuccessOnly(l, p, pumpOk, now, committed);
    SettleStops(l, p.op, pumpOk);
  }

  // ------------------------------------------------------------ the verdict

  /** Every navigation is claimed and terminal, and the last is listed once, as it is when ids are distinct. */
  predicate Takeable(t: Table, ids: seq<NavId>) { Ready(t, ids) && ids[|ids| - 1] !in ids[..|ids| - 1] }

  lemma TakeableDistinct(t: Table, ids: seq<NavId>)
    requires Distinct(ids)
    ensures Takeable(t, ids) <==> Ready(t, ids)
  {
  }

  /** With ids repeated or not, when an outcome is taken and which. */
  lemma {:induction false} TakeSocketWhen(l: Ledger, ids: seq<NavId>)
    ensures TakeSocket(l, ids).1 ==
            if Takeable(l.table, ids) then
              Some(Taken(l.table[ids[|ids| - 1]].committed, l.table[ids[|ids| - 1]].terminal.value))
            else None
    ensures TakeSocket(l, ids).0.probes == l.probes
  {
    RemoveOutcomesProbes(l, ids);
    if Ready(l.table, ids) {
      var front, last := ids[..|ids| - 1], ids[|ids| - 1];
      RemoveOutcomesGone(l, front);
      if last !in front {
        RemoveOutcomesSpares(l, front, last);
      }
    }
  }

  lemma {:induction false} RemoveOutcomesSpares(l: Ledger, ids: seq<NavId>, id: NavId)
    requires id in l.table && id !in ids
    ensures id in RemoveOutcomes(l, ids).table && RemoveOutcomes(l, ids).table[id] == l.table[id]
    decreases |ids|
  {
    if ids != [] {
      RemoveOutcomesSpares(RemoveOutcome(l, ids[0]).0, ids[1..], id);
    }
  }

  /** The decision on any operation, before its completion handler runs; the last fault goes with a panic. */
  lemma DecideExact(l: Ledger, p: Pending, pumpOk: bool, now: nat)
    ensures var a := Settle(l, p.op, pumpOk);
            var ids := Ids(a.op.actions);
            Decide(l, p, pumpOk, now).verdict ==
            if !pumpOk then Failure(EventPumpFailed)
            else if a.fault.Some? then Failure(a.fault.value)
            else if Takeable(a.ledger.table, ids) then
              match a.ledger.table[ids[|ids| - 1]].terminal.value
              case Faulted(fault) => Failure(fault)
              case Settled => Success(a.ledger.table[ids[|ids| - 1]].committed)
            else if now < p.deadline then Waiting
            else if ids != [] then Failure(TimedOut(ids[|ids| - 1], p.op.context))
            else Failure(EventPumpFailed)
    ensures var d := Decide(l, p, pumpOk, now);
            && d.pending.op.completion == p.op.completion
            && (d.verdict.Success? ==> d.ledger.probes == Settle(l, p.op, pumpOk).ledger.probes)
  {
    var a := Settle(l, p.op, pumpOk);
    SettleKeeps(l, p.op, pumpOk);
    TakeSocketWhen(a.ledger, Ids(a.op.actions));
  }

  lemma FinishVerdict(l: Ledger, op: Operation, verdict: Verdict)
    ensures Finish(l, op, verdict).verdict ==
            if verdict.Success? && Queries(op.completion) && !NextAnswers(l) then Failure(ContextUnavailable)
            else verdict
  {
  }

  /** The verdict on any operation, in the order in which it is decided. */
  lemma VerdictExact(l: Ledger, p: Pending, pumpOk: bool, now: nat)
    ensures var a := Settle(l, p.op, pumpOk);
            var ids := Ids(a.op.actions);
            PollOne(l, p, pumpOk, now).verdict ==
            if !pumpOk then Failure(EventPumpFailed)
            else if a.fault.Some? then Failure(a.fault.value)
            else if Takeable(a.ledger.table, ids) then
              match a.ledger.table[ids[|ids| - 1]].terminal.value
              case Faulted(fault) => Failure(fault)
              case Settled =>
                if Queries(p.op.completion) && !NextAnswers(a.ledger) then Failure(ContextUnavailable)
                else Success(a.ledger.table[ids[|ids| - 1]].committed)
            else if now < p.deadline then Waiting
            else if ids != [] then Failure(TimedOut(ids[|ids| - 1], p.op.context))
            else Failure(EventPumpFailed)
  {
    DecideExact(l, p, pumpOk, now);
    var d := Decide(l, p, pumpOk, now);
    FinishVerdict(d.ledger, d.pending.op, d.verdict);
  }

  /** An operation is left waiting exactly when nothing failed, it cannot be taken and time remains. */
  lemma WaitsExactly(l: Ledger, p: Pending, pumpOk: bool, now: nat)
    ensures var a := Settle(l, p.op, pumpOk);
            PollOne(l, p, pumpOk, now).verdict == Waiting <==>
            pumpOk && a.fault.None? && !Takeable(a.ledger.table, Ids(a.op.actions)) && now < p.deadline
    ensures var a := Settle(l, p.op, pumpOk);
            Distinct(Ids(a.op.actions)) ==>
              (PollOne(l, p, pumpOk, now).verdict == Waiting <==>
               pumpOk && a.fault.None? && !Ready(a.ledger.table, Ids(a.op.actions)) && now < p.deadline)
  {
    VerdictExact(l, p, pumpOk, now);
    var a := Settle(l, p.op, pumpOk);
    if Distinct(Ids(a.op.actions)) {
      TakeableDistinct(a.ledger.table, Ids(a.op.actions));
    }
  }

  /** What is left of the map: untouched while waiting, without the operation's entries once they were taken. */
  lemma VerdictEffect(l: Ledger, p: Pending, pumpOk: bool, now: nat)
    requires Distinct(Ids(Settle(l, p.op, pumpOk).op.actions)) && Ids(Settle(l, p.op, pumpOk).op.actions) != []
    ensures var a := Settle(l, p.op, pumpOk);
            var ids := Ids(a.op.actions);
            var d := Decide(l, p, pumpOk, now);
            if !pumpOk || a.fault.Some? then d.ledger == Cancel(a.ledger, a.op)
            else if Ready(a.ledger.table, ids) then d.ledger.table == a.ledger.table - (set id | id in ids)
            else if now < p.deadline then d.ledger == a.ledger
            else d.ledger == Cancel(a.ledger, a.op)
  {
    var a := Settle(l, p.op, pumpOk);
    TakeSocketExact(a.ledger, Ids(a.op.actions));
  }

  /** The completion handlers: who loses a target, and whose map is left alone. */
  lemma FinishExact(l: Ledger, op: Operation, verdict: Verdict)
    requires !verdict.Waiting?
    ensures var f := Finish(l, op, verdict);
            var asks := op.completion in [PageNavigate, TargetCreate, HistoryTraversal];
            && f.verdict ==
               (if verdict.Success? && asks && !NextAnswers(l) then Failure(ContextUnavailable) else verdict)
            && (op.completion != TargetCreate ==> f.ledger.table == l.table && f.ledger.closed == l.closed)
            && (op.completion == TargetCreate && f.verdict.Success? ==> f.ledger.table == l.table)
            && (op.completion == TargetCreate && f.verdict.Failure? ==>
                  && op.context in f.ledger.closed
                  && forall id :: id in f.ledger.table ==> f.ledger.table[id].context != op.context)
  {
  }

  // ------------------------------------------------------------ polls

  lemma {:induction false} AllFail(s: Sweep, todo: seq<Pending>, now: nat, i: nat)
    requires i < |todo|
    ensures var r := PollAll(s, todo, false, now);
            && r.kept == s.kept && |r.answers| == |s.answers| + |todo|
            && r.answers[|s.answers| + i] == Answer(todo[i].token, Failure(EventPumpFailed))
            && r.answers[..|s.answers|] == s.answers
    decreases |todo|
  {
    var one := PollOne(s.ledger, todo[0], false, now);
    PollOneKeeps(s.ledger, todo[0], false, now);
    assert one.verdict == Failure(EventPumpFailed);
    var next := SweepStep(s, one);
    if |todo| > 1 {
      AllFail(next, todo[1..], now, if i == 0 then 0 else i - 1);
      var r := PollAll(next, todo[1..], false, now);
      assert r.answers[..|next.answers|][..|s.answers|] == s.answers;
      assert r.answers[|s.answers|] == r.answers[..|next.answers|][|s.answers|] == next.answers[|s.answers|];
    } else {
      assert PollAll(next, todo[1..], false, now) == next;
    }
  }

  /** A pump that fails answers every pending operation with that failure. */
  lemma {:induction false} PumpFailureAnswersAll(l: Ledger, queue: seq<Pending>, now: nat, i: nat)
    requires l.pumps != [] && !l.pumps[0].ok && i < |queue|
    ensures var r := Poll(l, queue, now);
            && r.kept == [] && |r.answers| == |queue|
            && r.answers[i] == Answer(queue[i].token, Failure(EventPumpFailed))
  {
    AllFail(Sweep(Pump(l).0, [], []), queue, now, i);
  }

  // ------------------------------------------------------------ events and answers

  /** A held entry is still held, with what the events reported about it since. */
  predicate Follows(t: Table, events: seq<Event>, r: Table, id: NavId) {
    && Held(t, id) && Held(r, id)
    && r[id].terminal == (if LastReport(events, id).Some? then LastReport(events, id) else t[id].terminal)
    && r[id].committed == (t[id].committed || CommitHeard(events, id))
  }

  lemma {:induction false} ReportsAppend(a: seq<Event>, b: seq<Event>, id: NavId)
    ensures LastReport(a + b, id) == if LastReport(b, id).Some? then LastReport(b, id) else LastReport(a, id)
    ensures CommitHeard(a + b, id) <==> CommitHeard(a, id) || CommitHeard(b, id)
    decreases |b|
  {
    if b == [] {
      assert a + b == a;
    } else {
      var front, last := b[..|b| - 1], b[|b| - 1];
      ReportsAppend(a, front, id);
      assert b == front + [last] && a + b == (a + front) + [last];
      assert (a + b)[..|a + b| - 1] == a + front;
      CommitLast(front, last, id);
      CommitLast(a + front, last, id);
    }
  }

  lemma FollowsOn(t: Table, a: seq<Event>, r: Table, b: seq<Event>, s: Table, id: NavId)
    requires Follows(t, a, r, id) && Follows(r, b, s, id)
    ensures Follows(t, a + b, s, id)
  {
    ReportsAppend(a, b, id);
  }

  /** The events of the batch that comes next. */
  function Coming(l: Ledger): seq<Event> { if l.pumps == [] then [] else l.pumps[0].events }

  lemma PumpFollows(l: Ledger, id: NavId)
    requires Held(l.table, id)
    ensures Follows(l.table, Coming(l), Pump(l).0.table, id)
  {
    if l.pumps != [] {
      BatchHeld(l.(pumps := l.pumps[1..]), l.pumps[0].events, id);
    }
  }

  lemma {:induction false} AdoptFollows(t: Table, op: Operation, id: NavId)
    requires Held(t, id)
    ensures Follows(t, [], Adopt(t, op).table, id)
  {
    AdoptFrame(t, op);
  }

  /** The events settling takes in: a batch if it has a second look and the context answers, else none. */
  function Looked(l: Ledger, op: Operation, pumpOk: bool): seq<Event> {
    var a := Adopt(l.table, op);
    if pumpOk && a.fault.None? && Ready(a.table, Ids(a.op.actions)) && NextAnswers(l) then Coming(l) else []
  }

  lemma {:induction false} ConfirmFollows(l: Ledger, op: Operation, id: NavId)
    requires Held(l.table, id)
    ensures Follows(l.table, if NextAnswers(l) then Coming(l) else [], Confirm(l, op).ledger.table, id)
  {
    var probed := Probe(l).0;
    var pumped := Pump(probed).0;
    PumpFollows(probed, id);
    AdoptFollows(pumped.table, op, id);
    assert Coming(l) + [] == Coming(l);
    FollowsOn(l.table, Coming(l), pumped.table, [], Adopt(pumped.table, op).table, id);
  }

  lemma {:induction false} SettleFollows(l: Ledger, op: Operation, pumpOk: bool, id: NavId)
    requires Held(l.table, id)
    ensures Follows(l.table, Looked(l, op, pumpOk), Settle(l, op, pumpOk).ledger.table, id)
  {
    AdoptFollows(l.table, op, id);
    var first := AdoptIn(l, op);
    var looked := Looked(l, op, pumpOk);
    if pumpOk && first.fault.None? && Ready(first.ledger.table, Ids(first.op.actions)) {
      ConfirmFollows(first.ledger, first.op, id);
      assert [] + looked == looked;
      FollowsOn(l.table, [], first.ledger.table, looked, Settle(l, op, pumpOk).ledger.table, id);
    }
  }

  lemma {:induction false} PollSingle(l: Ledger, p: Pending, now: nat)
    ensures var (m, ok) := Pump(l);
            Poll(l, [p], now) == SweepStep(Sweep(m, [], []), PollOne(m, p, ok, now))
  {
    var (m, ok) := Pump(l);
    var next := SweepStep(Sweep(m, [], []), PollOne(m, p, ok, now));
    assert [p][1..] == [];
    assert PollAll(next, [], ok, now) == next;
  }

  /** All the events one poll of a single operation takes in before it decides. */
  function Received(l: Ledger, op: Operation): seq<Event> { Coming(l) + Looked(Pump(l).0, op, NextPumps(l)) }

  lemma {:induction false} SettledOutcome(l: Ledger, op: Operation, id: NavId)
    requires Held(l.table, id)
    ensures Follows(l.table, Received(l, op), Settle(Pump(l).0, op, NextPumps(l)).ledger.table, id)
  {
    var m := Pump(l).0;
    PumpFollows(l, id);
    SettleFollows(m, op, NextPumps(l), id);
    FollowsOn(l.table, Coming(l), m.table, Looked(m, op, NextPumps(l)),
              Settle(m, op, NextPumps(l)).ledger.table, id);
  }

  lemma TakenVerdict(l: Ledger, p: Pending, now: nat, id: NavId, report: Outcome, committed: bool)
    requires var a := Settle(l, p.op, true);
             var ids := Ids(a.op.actions);
             && a.fault.None? && ids != [] && Distinct(ids) && ids[|ids| - 1] == id && Ready(a.ledger.table, ids)
             && a.ledger.table[id].terminal == Some(report) && a.ledger.table[id].committed == committed
    ensures PollOne(l, p, true, now).verdict ==
            match report
            case Faulted(fault) => Failure(fault)
            case Settled =>
              if Queries(p.op.completion) && !NextAnswers(Settle(l, p.op, true).ledger) then Failure(ContextUnavailable)
              else Success(committed)
  {
    var a := Settle(l, p.op, true);
    TakeableDistinct(a.ledger.table, Ids(a.op.actions));
    VerdictExact(l, p, true, now);
  }

  /** The operation's last navigation was held before, and settling leaves everything ready. */
  ghost predicate Takes(l: Ledger, op: Operation, id: NavId) {
    var a := Settle(Pump(l).0, op, true);
    var ids := Ids(a.op.actions);
    && NextPumps(l) && Held(l.table, id)
    && a.fault.None? && ids != [] && Distinct(ids) && ids[|ids| - 1] == id && Ready(a.ledger.table, ids)
  }

  lemma {:induction false} VerdictFollowsEvents(l: Ledger, p: Pending, now: nat, id: NavId, report: Outcome)
    requires Takes(l, p.op, id) && LastReport(Received(l, p.op), id) == Some(report)
    ensures PollOne(Pump(l).0, p, true, now).verdict ==
            match report
            case Faulted(fault) => Failure(fault)
            case Settled =>
              if Queries(p.op.completion) && !NextAnswers(Settle(Pump(l).0, p.op, true).ledger)
              then Failure(ContextUnavailable)
              else Success(l.table[id].committed || CommitHeard(Received(l, p.op), id))
  {
    SettledOutcome(l, p.op, id);
    TakenVerdict(Pump(l).0, p, now, id, report, l.table[id].committed || CommitHeard(Received(l, p.op), id));
  }

  /**
   A poll that takes an operation whose last navigation was held before answers with what the
   last terminal event of that navigation reported, whichever of the two pumps brought it.
   */
  lemma {:induction false} AnswerFollowsEvents(l: Ledger, p: Pending, now: nat, id: NavId, report: Outcome)
    requires Takes(l, p.op, id) && LastReport(Received(l, p.op), id) == Some(report)
    ensures Poll(l, [p], now).answers ==
            [Answer(p.token,
                    match report
                    case Faulted(fault) => Failure(fault)
                    case Settled =>
                      if Queries(p.op.completion) && !NextAnswers(Settle(Pump(l).0, p.op, true).ledger)
                      then Failure(ContextUnavailable)
                      else Success(l.table[id].committed || CommitHeard(Received(l, p.op), id)))]
  {
    VerdictFollowsEvents(l, p, now, id, report);
    PollOneKeeps(Pump(l).0, p, true, now);
    PollSingle(l, p, now);
  }
}
