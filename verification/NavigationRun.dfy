/**
 Whole runs of the server: any interleaving of started operations, polls,
 disconnections, blocking waits, event drains and target removals, over any number
 of connections, against any engine.
 */
module NavigationRun {
  import opened Common
  import opened NavigationModel
  import opened NavigationOwnership

  type Conn = nat

  /** What the engine delivers while one step executes. */
  datatype Engine = Engine(pumps: seq<Batch>, probes: seq<bool>)

  datatype Step =
    | StartOperation(conn: Conn, op: Operation, deadline: nat, engine: Engine)
    | PollConnection(conn: Conn, now: nat, engine: Engine)
    | CloseConnection(conn: Conn, engine: Engine)
    | BlockingWait(id: NavId, events: seq<Event>)
    | DrainEvents(engine: Engine)
    | DropTarget(context: Ctx, engine: Engine)

  datatype System = System(
    ledger: Ledger,
    queues: map<Conn, seq<Pending>>,
    answers: seq<Answer>,
    nextToken: nat)

  function Initial(): System {
    System(Ledger(map[], [], [], map[], {}, true, false, {}), map[], [], 0)
  }

  function Queue(s: System, c: Conn): seq<Pending> {
    if c in s.queues then s.queues[c] else []
  }

  function Load(l: Ledger, e: Engine): Ledger { l.(pumps := e.pumps, probes := e.probes) }

  ghost function Apply(s: System, step: Step): System {
    match step
    case StartOperation(c, op, deadline, engine) =>
      var l := Load(s.ledger, engine);
      if Ids(op.actions) == [] then s.(ledger := Pump(l).0)
      else if |Queue(s, c)| >= MAX_PENDING_SOCKET_NAVIGATIONS then s.(ledger := Cancel(Start(l, op), op))
      else System(Start(l, op),
                  s.queues[c := Queue(s, c) + [Pending(s.nextToken, deadline, op)]],
                  s.answers, s.nextToken + 1)
    case PollConnection(c, now, engine) =>
      var r := Poll(Load(s.ledger, engine), Queue(s, c), now);
      System(r.ledger, s.queues[c := r.kept], s.answers + r.answers, s.nextToken)
    case CloseConnection(c, engine) =>
      s.(ledger := Disconnect(Load(s.ledger, engine), Queue(s, c)), queues := s.queues[c := []])
    case BlockingWait(id, events) => s.(ledger := Wait(s.ledger, id, events).0)
    case DrainEvents(engine) => s.(ledger := Pump(Load(s.ledger, engine)).0)
    case DropTarget(context, engine) => s.(ledger := RemoveTarget(Load(s.ledger, engine), context))
  }

  ghost function Run(steps: seq<Step>): System
    decreases |steps|
  {
    if steps == [] then Initial() else Apply(Run(steps[..|steps| - 1]), steps[|steps| - 1])
  }

  // --------------------------------------------------------------- ownership

  ghost function Owned(q: seq<Pending>): set<NavId> {
    set p, id | p in q && id in IdSet(p.op) :: id
  }

  ghost function Elsewhere(s: System, c: Conn): set<NavId> {
    set d, id | d in s.queues && d != c && id in Owned(s.queues[d]) :: id
  }

  ghost predicate OwnsApart(others: set<NavId>, p: Pending) {
    Ids(p.op.actions) != [] && Distinct(Ids(p.op.actions)) && IdSet(p.op) !! others
  }

  /** Operations of one queue own non-empty, distinct, mutually disjoint ids outside `others`. */
  ghost predicate Exclusive(others: set<NavId>, q: seq<Pending>) {
    && (forall i :: 0 <= i < |q| ==> OwnsApart(others, q[i]))
    && (forall i, j :: 0 <= i < j < |q| ==> IdSet(q[i].op) !! IdSet(q[j].op))
  }

  ghost predicate QueueSafe(l: Ledger, others: set<NavId>, q: seq<Pending>) {
    Sound(l, others + Owned(q)) && (l.lawful ==> Exclusive(others, q))
  }

  ghost predicate Safe(s: System) {
    && (forall c :: QueueSafe(s.ledger, Elsewhere(s, c), Queue(s, c)))
  }

  lemma OwnedSplit(a: seq<Pending>, p: Pending, b: seq<Pending>)
    ensures Owned(a + [p] + b) == Owned(a + b) + IdSet(p.op)
  {
    var q, r := a + [p] + b, a + b;
    forall x | x in q
      ensures x in r || x == p
    {
    }
    forall x | x in r || x == p
      ensures x in q
    {
      assert q[|a|] == p;
    }
  }

  lemma OwnedElement(q: seq<Pending>, i: nat, id: NavId)
    requires i < |q| && id in IdSet(q[i].op)
    ensures id in Owned(q)
  {
    assert q[i] in q;
  }

  /** An operation in the middle of a queue, seen as one operation against all the others. */
  lemma TakeOut(l: Ledger, others: set<NavId>, a: seq<Pending>, p: Pending, b: seq<Pending>)
    requires QueueSafe(l, others, a + [p] + b)
    ensures Sound(l, others + Owned(a + b) + IdSet(p.op))
    ensures Holds(l, others + Owned(a + b), p.op)
    ensures l.lawful ==> Exclusive(others, a + b)
  {
    OwnedSplit(a, p, b);
    assert others + Owned(a + [p] + b) == others + Owned(a + b) + IdSet(p.op);
    if l.lawful {
      MiddleApart(others, a, p, b);
      ExclusiveWithout(others, a, p, b);
    }
  }

  lemma MiddleApart(others: set<NavId>, a: seq<Pending>, p: Pending, b: seq<Pending>)
    requires Exclusive(others, a + [p] + b)
    ensures OwnsApart(others + Owned(a + b), p)
  {
    var q, r := a + [p] + b, a + b;
    assert q[|a|] == p;
    forall k | 0 <= k < |r|
      ensures IdSet(r[k].op) !! IdSet(p.op)
    {
      assert r[k] == q[if k < |a| then k else k + 1];
    }
  }

  lemma ExclusiveWithout(others: set<NavId>, a: seq<Pending>, p: Pending, b: seq<Pending>)
    requires Exclusive(others, a + [p] + b)
    ensures Exclusive(others, a + b)
  {
    var q, r := a + [p] + b, a + b;
    assert forall i :: 0 <= i < |r| ==> r[i] == q[if i < |a| then i else i + 1];
  }

  lemma ExclusiveWith(others: set<NavId>, a: seq<Pending>, p: Pending, b: seq<Pending>)
    requires Exclusive(others, a + b) && OwnsApart(others, p)
    requires forall i :: 0 <= i < |a + b| ==> IdSet((a + b)[i].op) !! IdSet(p.op)
    ensures Exclusive(others, a + [p] + b)
  {
    var q, r := a + [p] + b, a + b;
    forall i | 0 <= i < |q|
      ensures OwnsApart(others, q[i])
    {
      assert q[i] == if i < |a| then r[i] else if i == |a| then p else r[i - 1];
    }
    forall i, j | 0 <= i < j < |q|
      ensures IdSet(q[i].op) !! IdSet(q[j].op)
    {
      assert q[i] == if i < |a| then r[i] else if i == |a| then p else r[i - 1];
      assert q[j] == if j < |a| then r[j] else if j == |a| then p else r[j - 1];
    }
  }

  /** The converse: an operation that holds its ids against everybody else joins the queue. */
  lemma PutIn(l: Ledger, others: set<NavId>, a: seq<Pending>, p: Pending, b: seq<Pending>)
    requires Sound(l, others + Owned(a + b) + IdSet(p.op))
    requires Holds(l, others + Owned(a + b), p.op)
    requires l.lawful ==> Exclusive(others, a + b)
    ensures QueueSafe(l, others, a + [p] + b)
  {
    var q, r := a + [p] + b, a + b;
    OwnedSplit(a, p, b);
    assert others + Owned(q) == others + Owned(r) + IdSet(p.op);
    if l.lawful {
      forall i | 0 <= i < |r|
        ensures IdSet(r[i].op) !! IdSet(p.op)
      {
        assert r[i] in r;
        assert IdSet(r[i].op) <= Owned(r);
      }
      ExclusiveWith(others, a, p, b);
    }
  }

  lemma {:induction false} PollAllSafe(s: Sweep, others: set<NavId>, todo: seq<Pending>, pumpOk: bool, now: nat)
    requires QueueSafe(s.ledger, others, s.kept + todo)
    ensures var r := PollAll(s, todo, pumpOk, now);
            QueueSafe(r.ledger, others, r.kept) && (r.ledger.lawful ==> s.ledger.lawful)
    decreases |todo|
  {
    if todo == [] {
      assert s.kept + todo == s.kept;
    } else {
      var p, rest := todo[0], todo[1..];
      assert s.kept + todo == s.kept + [p] + rest;
      TakeOut(s.ledger, others, s.kept, p, rest);
      PollOneSound(s.ledger, others + Owned(s.kept + rest), p, pumpOk, now);
      var one := PollOne(s.ledger, p, pumpOk, now);
      if one.verdict.Waiting? {
        PutIn(one.ledger, others, s.kept, one.pending, rest);
      }
      PollAllSafe(SweepStep(s, one), others, rest, pumpOk, now);
    }
  }

  lemma PollSafe(l: Ledger, others: set<NavId>, queue: seq<Pending>, now: nat)
    requires QueueSafe(l, others, queue)
    ensures var r := Poll(l, queue, now);
            QueueSafe(r.ledger, others, r.kept) && (r.ledger.lawful ==> l.lawful)
  {
    PumpSound(l, others + Owned(queue));
    assert [] + queue == queue;
    PollAllSafe(Sweep(Pump(l).0, [], []), others, queue, Pump(l).1, now);
  }

  lemma {:induction false} CancelAllSafe(l: Ledger, others: set<NavId>, queue: seq<Pending>)
    requires QueueSafe(l, others, queue)
    ensures var r := CancelAll(l, queue);
            QueueSafe(r, others, []) && (r.lawful ==> l.lawful)
    decreases |queue|
  {
    if queue != [] {
      var p, rest := queue[0], queue[1..];
      assert queue == [] + [p] + rest && [] + rest == rest;
      TakeOut(l, others, [], p, rest);
      AdoptSound(l, others + Owned(rest), p.op);
      var a := AdoptIn(l, p.op);
      CancelSound(a.ledger, others + Owned(rest), a.op);
      CancelAllSafe(Cancel(a.ledger, a.op), others, rest);
    }
  }

  lemma StartSafe(l: Ledger, others: set<NavId>, queue: seq<Pending>, p: Pending)
    requires QueueSafe(l, others, queue) && Ids(p.op.actions) != []
    ensures var r := Start(l, p.op);
            && QueueSafe(r, others, queue + [p])
            && QueueSafe(Cancel(r, p.op), others, queue)
            && (r.lawful ==> l.lawful) && (Cancel(r, p.op).lawful ==> l.lawful)
  {
    var r := Start(l, p.op);
    assert queue + [] == queue && queue + [p] + [] == queue + [p];
    StartSound(l, others + Owned(queue), p.op);
    PutIn(r, others, queue, p, []);
    CancelSound(r, others + Owned(queue), p.op);
  }

  // -------------------------------------------------------------------- runs

  /** Installing a new ledger and queue for one connection keeps all connections safe. */
  lemma Install(s: System, c: Conn, l: Ledger, q: seq<Pending>, t: System)
    requires Safe(s)
    requires l.lawful ==> s.ledger.lawful
    requires QueueSafe(l, Elsewhere(s, c), q)
    requires t.ledger == l && Queue(t, c) == q
    requires forall d :: d != c ==> Queue(t, d) == Queue(s, d)
    ensures Safe(t)
  {
    assert Elsewhere(t, c) == Elsewhere(s, c) by {
      forall d | d != c
        ensures d in t.queues && Owned(t.queues[d]) != {} <==> d in s.queues && Owned(s.queues[d]) != {}
      {
        assert Queue(t, d) == Queue(s, d);
        assert Owned([]) == {};
      }
      forall id
        ensures id in Elsewhere(t, c) <==> id in Elsewhere(s, c)
      {
        ElsewhereQueue(s, c, id);
        ElsewhereQueue(t, c, id);
      }
    }
    forall d
      ensures QueueSafe(t.ledger, Elsewhere(t, d), Queue(t, d))
    {
      if d != c {
        InstallOther(s, c, l, q, t, d);
      }
    }
  }

  lemma ElsewhereQueue(s: System, c: Conn, id: NavId)
    ensures id in Elsewhere(s, c) <==> exists d :: d != c && id in Owned(Queue(s, d))
  {
    assert Owned([]) == {};
    if id in Elsewhere(s, c) {
      var d :| d in s.queues && d != c && id in Owned(s.queues[d]);
      assert id in Owned(Queue(s, d));
    }
    if d :| d != c && id in Owned(Queue(s, d)) {
      assert d in s.queues;
    }
  }

  lemma InstallOther(s: System, c: Conn, l: Ledger, q: seq<Pending>, t: System, d: Conn)
    requires Safe(s) && d != c
    requires l.lawful ==> s.ledger.lawful
    requires QueueSafe(l, Elsewhere(s, c), q)
    requires t.ledger == l && Queue(t, c) == q
    requires forall e :: e != c ==> Queue(t, e) == Queue(s, e)
    ensures QueueSafe(t.ledger, Elsewhere(t, d), Queue(t, d))
  {
    var mine := Queue(s, d);
    forall id
      ensures id in Elsewhere(t, d) + Owned(mine) ==> id in Elsewhere(s, c) + Owned(q)
      ensures id in Elsewhere(t, d) ==> id in Elsewhere(s, d) || id in Owned(q)
      ensures id in Owned(mine) ==> id in Elsewhere(s, c)
    {
      ElsewhereQueue(t, d, id);
      ElsewhereQueue(s, c, id);
      ElsewhereQueue(s, d, id);
    }
    assert QueueSafe(s.ledger, Elsewhere(s, d), mine);
    if l.lawful {
      forall i | 0 <= i < |mine|
        ensures IdSet(mine[i].op) !! Elsewhere(t, d)
      {
        forall id | id in IdSet(mine[i].op)
          ensures id !in Elsewhere(t, d)
        {
          OwnedElement(mine, i, id);
          NotOwnedTwice(Elsewhere(s, c), q, id);
        }
      }
    }
  }

  lemma NotOwnedTwice(others: set<NavId>, q: seq<Pending>, id: NavId)
    requires Exclusive(others, q) && id in others
    ensures id !in Owned(q)
  {
  }

  lemma StartStepSafe(s: System, c: Conn, op: Operation, deadline: nat, engine: Engine)
    requires Safe(s)
    ensures var t := Apply(s, StartOperation(c, op, deadline, engine));
            Safe(t) && (t.ledger.lawful ==> s.ledger.lawful)
  {
    var t := Apply(s, StartOperation(c, op, deadline, engine));
    var l := Load(s.ledger, engine);
    assert QueueSafe(s.ledger, Elsewhere(s, c), Queue(s, c));
    if Ids(op.actions) == [] {
      PumpSound(l, Elsewhere(s, c) + Owned(Queue(s, c)));
    } else {
      StartSafe(l, Elsewhere(s, c), Queue(s, c), Pending(s.nextToken, deadline, op));
    }
    Install(s, c, t.ledger, Queue(t, c), t);
  }

  lemma ApplySafe(s: System, step: Step)
    requires Safe(s)
    ensures Safe(Apply(s, step))
    ensures Apply(s, step).ledger.lawful ==> s.ledger.lawful
  {
    var t := Apply(s, step);
    match step
    case StartOperation(c, op, deadline, engine) =>
      StartStepSafe(s, c, op, deadline, engine);
    case PollConnection(c, now, engine) =>
      assert QueueSafe(s.ledger, Elsewhere(s, c), Queue(s, c));
      PollSafe(Load(s.ledger, engine), Elsewhere(s, c), Queue(s, c), now);
      Install(s, c, t.ledger, Queue(t, c), t);
    case CloseConnection(c, engine) =>
      CloseSafe(s, c, engine);
      Install(s, c, t.ledger, Queue(t, c), t);
    case BlockingWait(id, events) =>
      assert QueueSafe(s.ledger, Elsewhere(s, 0), Queue(s, 0));
      WaitSound(s.ledger, Elsewhere(s, 0) + Owned(Queue(s, 0)), id, events);
      Install(s, 0, t.ledger, Queue(s, 0), t);
    case DrainEvents(engine) =>
      assert QueueSafe(s.ledger, Elsewhere(s, 0), Queue(s, 0));
      PumpSound(Load(s.ledger, engine), Elsewhere(s, 0) + Owned(Queue(s, 0)));
      Install(s, 0, t.ledger, Queue(s, 0), t);
    case DropTarget(context, engine) =>
      assert QueueSafe(s.ledger, Elsewhere(s, 0), Queue(s, 0));
      RemoveTargetSound(Load(s.ledger, engine), Elsewhere(s, 0) + Owned(Queue(s, 0)), context);
      Install(s, 0, t.ledger, Queue(s, 0), t);
  }

  lemma CloseSafe(s: System, c: Conn, engine: Engine)
    requires Safe(s)
    ensures var l := Disconnect(Load(s.ledger, engine), Queue(s, c));
            QueueSafe(l, Elsewhere(s, c), []) && (l.lawful ==> s.ledger.lawful)
  {
    var others, q, l := Elsewhere(s, c), Queue(s, c), Load(s.ledger, engine);
    assert QueueSafe(s.ledger, others, q);
    PumpSound(l, others + Owned(q));
    CancelAllSafe(Pump(l).0, others, q);
    PumpSound(CancelAll(Pump(l).0, q), others + Owned([]));
  }

  lemma {:induction false} RunSafe(steps: seq<Step>)
    ensures Safe(Run(steps))
    decreases |steps|
  {
    if steps == [] {
      forall c
        ensures Elsewhere(Initial(), c) + Owned(Queue(Initial(), c)) == {}
      {
      }
    } else {
      RunSafe(steps[..|steps| - 1]);
      ApplySafe(Run(steps[..|steps| - 1]), steps[|steps| - 1]);
    }
  }

  /** A live operation: position `i` of connection `c`'s queue. */
  ghost predicate Live(s: System, c: Conn, i: nat) {
    c in s.queues && i < |s.queues[c]|
  }

  /** In every run against a lawful engine no `expect` has failed, whether or not anything is pending. */
  lemma {:induction false} NeverPanics(steps: seq<Step>)
    requires Run(steps).ledger.lawful
    ensures !Run(steps).ledger.panicked
  {
    RunSafe(steps);
    assert QueueSafe(Run(steps).ledger, Elsewhere(Run(steps), 0), Queue(Run(steps), 0));
  }

  /**
   In every run against a lawful engine: no `expect` has failed; each navigation owned by a
   live operation is claimed and un-abandoned, or its context was closed; and no navigation
   is owned by two live operations, or twice by one.
   */
  lemma {:induction false} OwnershipHolds(steps: seq<Step>, c: Conn, i: nat, d: Conn, j: nat, id: NavId)
    requires Run(steps).ledger.lawful
    requires Live(Run(steps), c, i) && id in Ids(Run(steps).queues[c][i].op.actions)
    ensures !Run(steps).ledger.panicked
    ensures Guarded(Run(steps).ledger, id)
    ensures Distinct(Ids(Run(steps).queues[c][i].op.actions))
    ensures Live(Run(steps), d, j) && id in Ids(Run(steps).queues[d][j].op.actions) ==> c == d && i == j
  {
    var s := Run(steps);
    RunSafe(steps);
    assert QueueSafe(s.ledger, Elsewhere(s, c), Queue(s, c));
    assert id in IdSet(s.queues[c][i].op);
    OwnedElement(s.queues[c], i, id);
    if Live(s, d, j) && id in Ids(s.queues[d][j].op.actions) {
      assert id in IdSet(s.queues[d][j].op);
      OwnedElement(s.queues[d], j, id);
      if id in Elsewhere(s, c) {
        NotOwnedTwice(Elsewhere(s, c), Queue(s, c), id);
      }
    }
  }

  /** Whatever arrives while it waits, a blocking waiter never takes a live operation's navigation. */
  lemma {:induction false} WaiterNeverSteals(steps: seq<Step>, c: Conn, i: nat, id: NavId, events: seq<Event>)
    requires Live(Run(steps), c, i) && id in Ids(Run(steps).queues[c][i].op.actions)
    requires Run(steps + [BlockingWait(id, events)]).ledger.lawful
    ensures Wait(Run(steps).ledger, id, events).1 == None
  {
    var s := Run(steps);
    RunSafe(steps);
    assert (steps + [BlockingWait(id, events)])[..|steps|] == steps;
    assert QueueSafe(s.ledger, Elsewhere(s, c), Queue(s, c));
    assert id in IdSet(s.queues[c][i].op);
    OwnedElement(s.queues[c], i, id);
    WaitSound(s.ledger, Elsewhere(s, c) + Owned(Queue(s, c)), id, events);
  }
}
