/** A run in which the engine keeps all its promises, so that the claims about lawful runs speak of something. */
module NavigationExample {
  import opened Common
  import opened NavigationModel
  import opened NavigationRun

  function Requested(): Entry { FreshEntry(7, None, Regular) }
  function Claimed(): Entry { Requested().(claimed := true) }
  function Landed(): Entry { Claimed().(committed := true, terminal := Some(Settled)) }

  /** The events behind such an entry. */
  function Heard(e: Entry): set<Event> {
    {NavigationRequested(7, 1, None, Regular)}
    + (if e.committed then {NavigationCommitted(7, 1)} else {})
    + (if e.terminal.Some? then {NavigationSettled(7, 1)} else {})
  }

  function Holding(e: Entry): Ledger { Ledger(map[1 := e], [], [], map[1 := 7], {}, true, false, Heard(e)) }

  function Navigate(): Operation { Operation(7, [CrossDocument(1, Regular)], PageNavigate) }

  function Opening(): Step {
    StartOperation(0, Navigate(), 10, Engine([Batch([NavigationRequested(7, 1, None, Regular)], true)], []))
  }

  function Polling(): Step {
    PollConnection(0, 0, Engine([Batch([NavigationCommitted(7, 1), NavigationSettled(7, 1)], true)], [true, true]))
  }

  lemma SmallPrune(l: Ledger)
    requires |l.table| <= 1
    ensures PruneLedger(l) == l
  {
  }

  lemma Requests()
    ensures Pump(Load(Initial().ledger, Opening().engine)).0 == Holding(Requested())
  {
    var event := NavigationRequested(7, 1, None, Regular);
    var l := Initial().ledger;
    assert Note(l, event) == Holding(Requested());
    SmallPrune(Holding(Requested()));
    assert RecordAll(l, [event]) == RecordAll(Record(l, event), [event][1..]);
  }

  lemma Starts()
    ensures Start(Load(Initial().ledger, Opening().engine), Navigate()) == Holding(Claimed())
  {
    var l := Load(Initial().ledger, Opening().engine);
    Requests();
    var h := Holding(Requested());
    var actions := [CrossDocument(1, Regular)];
    assert Ids(actions) == [1] by {
      assert actions[1..] == [];
    }
    assert Fresh(l, Ids(actions));
    assert Claim(h.table, 1) == map[1 := Claimed()];
    assert ClaimActions(h, 7, actions) == Holding(Claimed()) by {
      assert actions[1..] == [];
      assert Touch(h, 1, FreshEntry(7, None, Regular).(claimed := true)) == h;
    }
    SmallPrune(Holding(Claimed()));
  }

  lemma Settles()
    ensures Pump(Load(Holding(Claimed()), Polling().engine)) == (Holding(Landed()).(probes := [true, true]), true)
  {
    var l := Holding(Claimed()).(probes := [true, true]);
    var committed, settled := NavigationCommitted(7, 1), NavigationSettled(7, 1);
    var middle := Holding(Claimed().(committed := true)).(probes := [true, true]);
    assert Note(l, committed) == middle by {
      assert map[1 := Claimed()][1 := Claimed().(committed := true)] == middle.table;
    }
    assert Note(middle, settled) == Holding(Landed()).(probes := [true, true]) by {
      assert middle.table[1 := Landed()] == Holding(Landed()).table;
    }
    SmallPrune(middle);
    SmallPrune(Holding(Landed()).(probes := [true, true]));
    var events := [committed, settled];
    assert events[1..] == [settled] && [settled][1..] == [];
    assert RecordAll(l, events) == RecordAll(Record(l, committed), events[1..]);
  }

  lemma NoSuccessor(l: Ledger)
    requires l.table == Holding(Landed()).table
    ensures AdoptIn(l, Navigate()) == Settling(l, Navigate(), None)
    ensures Ids(Navigate().actions) == [1] && Ready(l.table, [1])
  {
    assert Navigate().actions[1..] == [];
    assert SuccessorsOf(l.table, 7, 1) == {};
  }

  lemma Takes(l: Ledger)
    requires l.table == Holding(Landed()).table
    ensures TakeSocket(l, [1]) == (l.(table := map[]), Some(Taken(true, Settled)))
  {
    NoSuccessor(l);
    assert [1][..0] == [];
    assert l.table - {1} == map[];
  }

  lemma Answers()
    ensures var p := Pending(0, 10, Navigate());
            PollOne(Holding(Landed()).(probes := [true, true]), p, true, 0) ==
            Polled(Holding(Landed()).(table := map[]), p, Success(true))
  {
    var l := Holding(Landed()).(probes := [true, true]);
    var m := Holding(Landed()).(probes := [true]);
    NoSuccessor(l);
    NoSuccessor(m);
    assert [true, true][1..] == [true] && [true][1..] == [];
    assert Probe(l) == (m, true);
    assert Settle(l, Navigate(), true) == Settling(m, Navigate(), None);
    Takes(m);
    assert Probe(m.(table := map[])) == (Holding(Landed()).(table := map[]), true);
  }

  function Queued(): Pending { Pending(0, 10, Navigate()) }

  function Opened(): System { System(Holding(Claimed()), map[0 := [Queued()]], [], 1) }

  lemma OpeningStep()
    ensures Apply(Initial(), Opening()) == Opened()
  {
    Starts();
    NoSuccessor(Holding(Landed()));
    assert Queue(Initial(), 0) + [Queued()] == [Queued()];
    assert Initial().queues[0 := [Queued()]] == map[0 := [Queued()]];
  }

  lemma {:induction false} Sweeps(l: Ledger)
    requires l == Holding(Landed()).(probes := [true, true])
    ensures PollAll(Sweep(l, [], []), [Queued()], true, 0) ==
            Sweep(Holding(Landed()).(table := map[]), [], [Answer(0, Success(true))])
  {
    Answers();
    var one := PollOne(l, Queued(), true, 0);
    assert SweepStep(Sweep(l, [], []), one) == Sweep(one.ledger, [], [Answer(0, Success(true))]);
    assert [Queued()][1..] == [];
  }

  lemma PollingStep()
    ensures Apply(Opened(), Polling()).ledger.lawful
    ensures Apply(Opened(), Polling()).answers == [Answer(0, Success(true))]
  {
    Settles();
    Sweeps(Pump(Load(Holding(Claimed()), Polling().engine)).0);
  }

  /** One navigation is started, settles and is answered with success, lawfully. */
  lemma LawfulRun()
    ensures Run([Opening(), Polling()]).ledger.lawful
    ensures Run([Opening(), Polling()]).answers == [Answer(0, Success(true))]
  {
    var steps := [Opening(), Polling()];
    assert steps[..1] == [Opening()] && [Opening()][..0] == [];
    assert Run([Opening()]) == Apply(Run([]), Opening());
    OpeningStep();
    PollingStep();
  }
}
