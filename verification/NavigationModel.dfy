/**
 The pending-navigation ledger of the CDP server, as values.

 `Ledger.table` is `pending_core_navigations`. The engine is an environment:
 `pumps` holds what successive event pumps deliver and `probes` the answers of
 successive context-state queries. The further components only observe:

 - `home` remembers, for every navigation ever entered, the context it was entered with;
 - `closed` collects the contexts dropped by `remove_failed_target`;
 - `lawful` stays true while the engine keeps its promises (fresh identifiers for newly
   started navigations; an entry is only ever created for an open context, and
   re-created under the context it had before);
 - `panicked` records a failed `expect`;
 - `heard` collects the events recorded so far.
 */
module NavigationModel {
  import opened Common

  type NavId = nat
  type Ctx = nat

  const MAX_PENDING_CORE_NAVIGATIONS: nat := 1024
  const MAX_PENDING_SOCKET_NAVIGATIONS: nat := 64

  datatype Kind = Regular | ContentReplacement(replacedDocument: nat)

  datatype Fault =
    | EngineFault(message: string)
    | CancelledNavigation(id: NavId, reason: string)
    | TimedOut(lastId: NavId, context: Ctx)
    | SuccessorLimitExceeded
    | ContextUnavailable
    | EventPumpFailed

  datatype Outcome = Settled | Faulted(fault: Fault)

  datatype Entry = Entry(
    context: Ctx,
    predecessor: Option<NavId>,
    kind: Kind,
    committed: bool,
    terminal: Option<Outcome>,
    claimed: bool,
    abandoned: bool)

  type Table = map<NavId, Entry>

  datatype Event =
    | NavigationRequested(context: Ctx, id: NavId, predecessor: Option<NavId>, kind: Kind)
    | NavigationCommitted(context: Ctx, id: NavId)
    | NavigationSettled(context: Ctx, id: NavId)
    | NavigationFailed(context: Ctx, id: NavId, error: string)
    | NavigationCancelled(context: Ctx, id: NavId, reason: string)
    | OtherEvent

  /** What one pump of the event queue yields: the events, then success or an error. */
  datatype Batch = Batch(events: seq<Event>, ok: bool)

  datatype Ledger = Ledger(
    table: Table,
    pumps: seq<Batch>,
    probes: seq<bool>,
    home: map<NavId, Ctx>,
    closed: set<Ctx>,
    lawful: bool,
    panicked: bool,
    heard: set<Event>)

  datatype Action = SameDocument(url: string) | CrossDocument(id: NavId, kind: Kind)

  datatype Completion = PageNavigate | PageReload | TargetCreate | HistoryTraversal | DispatchCompletion

  /** `StartedSocketOperation`. */
  datatype Operation = Operation(context: Ctx, actions: seq<Action>, completion: Completion)

  /** `PendingCdpOperation`; `token` identifies the request being answered. */
  datatype Pending = Pending(token: nat, deadline: nat, op: Operation)

  /** `cross_document_ids`. */
  function Ids(actions: seq<Action>): seq<NavId> {
    if actions == [] then []
    else if actions[0].CrossDocument? then [actions[0].id] + Ids(actions[1..])
    else Ids(actions[1..])
  }

  ghost predicate Distinct(ids: seq<NavId>) {
    forall i, j :: 0 <= i < j < |ids| ==> ids[i] != ids[j]
  }

  // ----------------------------------------------------------------- events

  function FreshEntry(context: Ctx, predecessor: Option<NavId>, kind: Kind): Entry {
    Entry(context, predecessor, kind, false, None, false, false)
  }

  /** `entry(id).or_insert(initial)`. */
  function Touch(l: Ledger, id: NavId, initial: Entry): (r: Ledger)
    ensures id in r.table
  {
    if id in l.table then l
    else l.(table := l.table[id := initial],
            home := l.home[id := initial.context],
            lawful := l.lawful && initial.context !in l.closed
                      && (id in l.home ==> l.home[id] == initial.context))
  }

  /** Entries `prune_pending_core_navigations` may drop. */
  function Evictable(t: Table): set<NavId> {
    set id | id in t && t[id].terminal.Some? && (!t[id].claimed || t[id].abandoned)
  }

  function Prune(t: Table): (r: Table)
    decreases |t|
  {
    if |t| > MAX_PENDING_CORE_NAVIGATIONS && Evictable(t) != {} then
      Prune(t - {Least(Evictable(t))})
    else t
  }

  function Update(l: Ledger, id: NavId, e: Entry): Ledger {
    l.(table := l.table[id := e])
  }

  /** `record_core_event` before its final prune. */
  function Note(l: Ledger, event: Event): Ledger {
    Entered(l, event).(heard := l.heard + {event})
  }

  function Entered(l: Ledger, event: Event): Ledger {
    match event
    case NavigationRequested(context, id, predecessor, kind) =>
      var t := Touch(l, id, FreshEntry(context, predecessor, kind));
      Update(t, id, t.table[id].(kind := kind, predecessor := predecessor))
    case NavigationCommitted(context, id) =>
      var t := Touch(l, id, FreshEntry(context, None, Regular));
      Update(t, id, t.table[id].(committed := true))
    case NavigationSettled(context, id) =>
      var t := Touch(l, id, FreshEntry(context, None, Regular));
      Update(t, id, t.table[id].(terminal := Some(Settled)))
    case NavigationFailed(context, id, error) =>
      var t := Touch(l, id, FreshEntry(context, None, Regular));
      Update(t, id, t.table[id].(terminal := Some(Faulted(EngineFault(error)))))
    case NavigationCancelled(context, id, reason) =>
      var t := Touch(l, id, FreshEntry(context, None, Regular));
      Update(t, id, t.table[id].(terminal := Some(Faulted(CancelledNavigation(id, reason)))))
    case OtherEvent => l
  }

  function PruneLedger(l: Ledger): Ledger { l.(table := Prune(l.table)) }

  function Record(l: Ledger, event: Event): Ledger { PruneLedger(Note(l, event)) }

  function RecordAll(l: Ledger, events: seq<Event>): Ledger
    decreases |events|
  {
    if events == [] then l else RecordAll(Record(l, events[0]), events[1..])
  }

  /** `pump_core_events`: the flag is false when the engine reported an error. */
  function Pump(l: Ledger): (Ledger, bool) {
    if l.pumps == [] then (l, true)
    else (RecordAll(l.(pumps := l.pumps[1..]), l.pumps[0].events), l.pumps[0].ok)
  }

  /** `context_state`, reduced to whether the engine still answers for the context. */
  function Probe(l: Ledger): (Ledger, bool) {
    if l.probes == [] then (l, true) else (l.(probes := l.probes[1..]), l.probes[0])
  }

  /** `remove_failed_target`, as far as navigations are concerned. */
  function RemoveTarget(l: Ledger, context: Ctx): Ledger {
    var p := Pump(l).0;
    p.(table := map id | id in p.table && p.table[id].context != context :: p.table[id],
       closed := p.closed + {context})
  }

  // --------------------------------------------------------------- outcomes

  datatype Taken = Taken(committed: bool, outcome: Outcome)

  /** `remove_navigation_outcome`, whose two `expect`s may panic. */
  function RemoveOutcome(l: Ledger, id: NavId): (Ledger, Option<Taken>) {
    if id in l.table && l.table[id].terminal.Some? then
      (l.(table := l.table - {id}), Some(Taken(l.table[id].committed, l.table[id].terminal.value)))
    else (l.(panicked := true), None)
  }

  /** `take_navigation_outcome`: the blocking waiter's view. */
  function TakeBlocking(l: Ledger, id: NavId): (Ledger, Option<Taken>) {
    if id !in l.table || l.table[id].claimed || l.table[id].terminal.None? then (l, None)
    else RemoveOutcome(l, id)
  }

  /** `wait_for_navigation` against the events that arrive before its deadline. */
  function Wait(l: Ledger, id: NavId, events: seq<Event>): (Ledger, Option<Taken>)
    decreases |events|
  {
    var (r, taken) := TakeBlocking(l, id);
    if taken.Some? || events == [] then (r, taken)
    else Wait(Record(r, events[0]), id, events[1..])
  }

  /** `socket_navigation_ids_are_terminal`. */
  predicate Ready(t: Table, ids: seq<NavId>) {
    ids != [] && forall i :: 0 <= i < |ids| ==>
      ids[i] in t && t[ids[i]].claimed && t[ids[i]].terminal.Some?
  }

  function RemoveOutcomes(l: Ledger, ids: seq<NavId>): Ledger
    decreases |ids|
  {
    if ids == [] then l else RemoveOutcomes(RemoveOutcome(l, ids[0]).0, ids[1..])
  }

  /** `take_socket_navigation_outcome`. */
  function TakeClaimed(l: Ledger, id: NavId): (Ledger, Option<Taken>) {
    if id !in l.table || !l.table[id].claimed || l.table[id].terminal.None? then (l, None)
    else RemoveOutcome(l, id)
  }

  /** `take_socket_operation_outcome`. */
  function TakeSocket(l: Ledger, ids: seq<NavId>): (Ledger, Option<Taken>) {
    if !Ready(l.table, ids) then (l, None)
    else TakeClaimed(RemoveOutcomes(l, ids[..|ids| - 1]), ids[|ids| - 1])
  }

  // --------------------------------------------------------------- adoption

  function Unclaimed(t: Table): set<NavId> {
    set id | id in t && !t[id].claimed
  }

  function Claim(t: Table, id: NavId): (r: Table)
    requires id in t
    ensures r.Keys == t.Keys
    ensures !t[id].claimed ==> Unclaimed(r) == Unclaimed(t) - {id} && |Unclaimed(r)| < |Unclaimed(t)|
  {
    var r := t[id := t[id].(claimed := true)];
    assert !t[id].claimed ==> Unclaimed(r) == Unclaimed(t) - {id};
    r
  }

  predicate AllTerminal(t: Table, ids: seq<NavId>) {
    forall i :: 0 <= i < |ids| ==> ids[i] in t && t[ids[i]].terminal.Some?
  }

  function SuccessorsOf(t: Table, context: Ctx, id: NavId): set<NavId> {
    set s | s in t && t[s].context == context && t[s].predecessor == Some(id)
  }

  /** Whether every navigation is terminal and the last has an unclaimed smallest successor. */
  predicate CanAdopt(t: Table, op: Operation) {
    var ids := Ids(op.actions);
    && ids != []
    && AllTerminal(t, ids)
    && SuccessorsOf(t, op.context, ids[|ids| - 1]) != {}
    && !t[Least(SuccessorsOf(t, op.context, ids[|ids| - 1]))].claimed
  }

  function Heir(t: Table, op: Operation): (s: NavId)
    requires CanAdopt(t, op)
    ensures s in t && !t[s].claimed
  {
    Least(SuccessorsOf(t, op.context, Ids(op.actions)[|Ids(op.actions)| - 1]))
  }

  function AdoptedOp(t: Table, op: Operation): Operation
    requires CanAdopt(t, op)
  {
    op.(actions := op.actions + [CrossDocument(Heir(t, op), t[Heir(t, op)].kind)])
  }

  datatype Adoption = Adoption(table: Table, op: Operation, fault: Option<Fault>)

  /** `adopt_active_socket_successor`. */
  function Adopt(t: Table, op: Operation): Adoption
    decreases |Unclaimed(t)|
  {
    if !CanAdopt(t, op) then Adoption(t, op, None)
    else if |Ids(op.actions)| >= MAX_PENDING_CORE_NAVIGATIONS then
      Adoption(t, op, Some(SuccessorLimitExceeded))
    else Adopt(Claim(t, Heir(t, op)), AdoptedOp(t, op))
  }

  // ------------------------------------------------------------ cancellation

  /** Unclaimed same-context entries whose predecessor is already collected. */
  function Heirs(t: Table, context: Ctx, ids: seq<NavId>): set<NavId> {
    set id | id in t && t[id].context == context && t[id].predecessor.Some?
             && t[id].predecessor.value in ids && !t[id].claimed
  }

  /** The claiming loop of `cancel_and_consume_socket_operation`. */
  function Grow(t: Table, context: Ctx, ids: seq<NavId>): (Table, seq<NavId>)
    decreases |Unclaimed(t)|
  {
    if Heirs(t, context, ids) == {} then (t, ids)
    else
      var s := Least(Heirs(t, context, ids));
      Grow(Claim(t, s), context, ids + [s])
  }

  /** Remove a terminal entry, or tombstone a claimed one. */
  function ConsumeOne(t: Table, id: NavId): Table {
    if id !in t then t
    else if t[id].terminal.Some? then t - {id}
    else if t[id].claimed then t[id := t[id].(abandoned := true)]
    else t
  }

  function Consume(t: Table, ids: seq<NavId>): Table
    decreases |ids|
  {
    if ids == [] then t else Consume(ConsumeOne(t, ids[0]), ids[1..])
  }

  function CancelTable(t: Table, op: Operation): Table {
    var (grown, ids) := Grow(t, op.context, Ids(op.actions));
    Consume(grown, ids)
  }

  /** `cancel_and_consume_socket_operation`. */
  function Cancel(l: Ledger, op: Operation): Ledger {
    var p := Pump(l).0;
    var c := p.(table := CancelTable(p.table, op));
    PruneLedger(if op.completion.TargetCreate? then RemoveTarget(c, op.context) else c)
  }

  // ------------------------------------------------------------------- polls

  datatype Verdict = Waiting | Success(committed: bool) | Failure(fault: Fault)

  datatype Polled = Polled(ledger: Ledger, pending: Pending, verdict: Verdict)

  datatype Settling = Settling(ledger: Ledger, op: Operation, fault: Option<Fault>)

  function AdoptIn(l: Ledger, op: Operation): Settling {
    var a := Adopt(l.table, op);
    Settling(l.(table := a.table), a.op, a.fault)
  }

  /** The second look taken once every navigation of an operation is terminal. */
  function Confirm(l: Ledger, op: Operation): Settling {
    var (probed, answered) := Probe(l);
    if !answered then Settling(probed, op, Some(ContextUnavailable))
    else
      var (pumped, ok) := Pump(probed);
      if !ok then Settling(pumped, op, Some(EventPumpFailed)) else AdoptIn(pumped, op)
  }

  function Settle(l: Ledger, op: Operation, pumpOk: bool): Settling {
    var a := AdoptIn(l, op);
    if pumpOk && a.fault.None? && Ready(a.ledger.table, Ids(a.op.actions)) then Confirm(a.ledger, a.op) else a
  }

  /** How the outcome of one operation is decided, before its completion handler runs. */
  function Decide(l: Ledger, p: Pending, pumpOk: bool, now: nat): Polled {
    var a := Settle(l, p.op, pumpOk);
    var q := p.(op := a.op);
    var ids := Ids(a.op.actions);
    if !pumpOk then Polled(Cancel(a.ledger, a.op), q, Failure(EventPumpFailed))
    else if a.fault.Some? then Polled(Cancel(a.ledger, a.op), q, Failure(a.fault.value))
    else
      var (taken, result) := TakeSocket(a.ledger, ids);
      if result.Some? then
        Polled(taken, q, match result.value.outcome
                         case Settled => Success(result.value.committed)
                         case Faulted(fault) => Failure(fault))
      else if now >= p.deadline then
        if ids == [] then Polled(Cancel(taken, a.op).(panicked := true), q, Failure(EventPumpFailed))
        else Polled(Cancel(taken, a.op), q, Failure(TimedOut(ids[|ids| - 1], a.op.context)))
      else Polled(taken, q, Waiting)
  }

  /** Completion handlers that query the context after a success, and answer with an error if that fails. */
  predicate Queries(completion: Completion) {
    completion.PageNavigate? || completion.TargetCreate? || completion.HistoryTraversal?
  }

  datatype Finished = Finished(ledger: Ledger, verdict: Verdict)

  /** The completion handlers, as far as navigations and the kind of answer are concerned. */
  function Finish(l: Ledger, op: Operation, verdict: Verdict): Finished {
    if verdict.Success? && Queries(op.completion) then
      var (probed, answered) := Probe(l);
      if answered then Finished(probed, verdict)
      else
        Finished(if op.completion.TargetCreate? then RemoveTarget(probed, op.context) else probed,
                 Failure(ContextUnavailable))
    else Finished(if op.completion.TargetCreate? then RemoveTarget(l, op.context) else l, verdict)
  }

  function PollOne(l: Ledger, p: Pending, pumpOk: bool, now: nat): Polled {
    var d := Decide(l, p, pumpOk, now);
    if d.verdict.Waiting? then d
    else
      var f := Finish(d.ledger, d.pending.op, d.verdict);
      Polled(f.ledger, d.pending, f.verdict)
  }

  datatype Answer = Answer(token: nat, verdict: Verdict)

  datatype Sweep = Sweep(ledger: Ledger, kept: seq<Pending>, answers: seq<Answer>)

  /** Keep a waiting operation at the back of the queue, or answer it. */
  function SweepStep(s: Sweep, r: Polled): Sweep {
    if r.verdict.Waiting? then Sweep(r.ledger, s.kept + [r.pending], s.answers)
    else Sweep(r.ledger, s.kept, s.answers + [Answer(r.pending.token, r.verdict)])
  }

  function PollAll(s: Sweep, todo: seq<Pending>, pumpOk: bool, now: nat): Sweep
    decreases |todo|
  {
    if todo == [] then s
    else PollAll(SweepStep(s, PollOne(s.ledger, todo[0], pumpOk, now)), todo[1..], pumpOk, now)
  }

  /** `poll_socket_operations`. */
  function Poll(l: Ledger, queue: seq<Pending>, now: nat): Sweep {
    var (p, ok) := Pump(l);
    PollAll(Sweep(p, [], []), queue, ok, now)
  }

  // -------------------------------------------------- start and disconnection

  /** The claiming loop at the end of `start_socket_operation`. */
  function ClaimActions(l: Ledger, context: Ctx, actions: seq<Action>): Ledger
    decreases |actions|
  {
    if actions == [] then l
    else if actions[0].SameDocument? then ClaimActions(l, context, actions[1..])
    else
      var initial := FreshEntry(context, None, actions[0].kind).(claimed := true);
      var t := Touch(l, actions[0].id, initial);
      ClaimActions(t.(table := Claim(t.table, actions[0].id)), context, actions[1..])
  }

  /** Identifiers the engine hands to a new operation are new and pairwise distinct. */
  ghost predicate Fresh(l: Ledger, ids: seq<NavId>) {
    Distinct(ids) && forall i :: 0 <= i < |ids| ==> ids[i] !in l.home
  }

  /** `start_socket_operation` once the command produced `op`: dispatch (pumping events), claim, prune. */
  ghost function Start(l: Ledger, op: Operation): Ledger {
    var p := Pump(l).0;
    PruneLedger(ClaimActions(p.(lawful := p.lawful && Fresh(l, Ids(op.actions))), op.context, op.actions))
  }

  function CancelAll(l: Ledger, queue: seq<Pending>): Ledger
    decreases |queue|
  {
    if queue == [] then l
    else
      var a := AdoptIn(l, queue[0].op);
      CancelAll(Cancel(a.ledger, a.op), queue[1..])
  }

  /** The clean-up at the end of `handle_connection`. */
  function Disconnect(l: Ledger, queue: seq<Pending>): Ledger {
    Pump(CancelAll(Pump(l).0, queue)).0
  }
}
