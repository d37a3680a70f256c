/** One poll conserves operations, and reports success only for a settled last navigation. */
module NavigationPoll {
  import opened Common
  import opened NavigationModel
  import opened NavigationAdopt
  import opened NavigationOwnership

  function Tokens(q: seq<Pending>): seq<nat> {
    if q == [] then [] else [q[0].token] + Tokens(q[1..])
  }

  function AnswerTokens(a: seq<Answer>): seq<nat> {
    if a == [] then [] else [a[0].token] + AnswerTokens(a[1..])
  }

  /** The elements of `s` at the positions where `mask` equals `wanted`. */
  function Select<T>(s: seq<T>, mask: seq<bool>, wanted: bool): seq<T>
    requires |mask| == |s|
  {
    if s == [] then []
    else (if mask[0] == wanted then [s[0]] else []) + Select(s[1..], mask[1..], wanted)
  }

  lemma {:induction false} TokensAppend(xs: seq<Pending>, ys: seq<Pending>)
    ensures Tokens(xs + ys) == Tokens(xs) + Tokens(ys)
  {
    if xs == [] {
      assert xs + ys == ys;
    } else {
      assert (xs + ys)[1..] == xs[1..] + ys;
      TokensAppend(xs[1..], ys);
    }
  }

  lemma {:induction false} AnswerTokensAppend(xs: seq<Answer>, ys: seq<Answer>)
    ensures AnswerTokens(xs + ys) == AnswerTokens(xs) + AnswerTokens(ys)
  {
    if xs == [] {
      assert xs + ys == ys;
    } else {
      assert (xs + ys)[1..] == xs[1..] + ys;
      AnswerTokensAppend(xs[1..], ys);
    }
  }

  /** Deciding an operation keeps its request, context and completion, and only extends its actions. */
  ghost predicate SameRequest(p: Pending, r: Pending) {
    && r.token == p.token && r.deadline == p.deadline
    && r.op.context == p.op.context && r.op.completion == p.op.completion
    && Ids(p.op.actions) <= Ids(r.op.actions)
  }

  lemma SettleKeeps(l: Ledger, op: Operation, pumpOk: bool)
    ensures var a := Settle(l, op, pumpOk);
            a.op == op.(actions := a.op.actions) && Ids(op.actions) <= Ids(a.op.actions)
  {
    AdoptFrame(l.table, op);
    var a := AdoptIn(l, op);
    AdoptFrame(Pump(Probe(a.ledger).0).0.table, a.op);
  }

  lemma PollOneKeeps(l: Ledger, p: Pending, pumpOk: bool, now: nat)
    ensures SameRequest(p, PollOne(l, p, pumpOk, now).pending)
  {
    SettleKeeps(l, p.op, pumpOk);
    assert PollOne(l, p, pumpOk, now).pending == p.(op := Settle(l, p.op, pumpOk).op);
  }

  /** The verdict on each operation of a sweep, in queue order; `Waiting` means it was kept. */
  function Verdicts(s: Sweep, todo: seq<Pending>, pumpOk: bool, now: nat): (v: seq<Verdict>)
    ensures |v| == |todo|
    decreases |todo|
  {
    if todo == [] then []
    else
      var r := PollOne(s.ledger, todo[0], pumpOk, now);
      [r.verdict] + Verdicts(SweepStep(s, r), todo[1..], pumpOk, now)
  }

  function Mask(v: seq<Verdict>): (m: seq<bool>)
    ensures |m| == |v|
  {
    if v == [] then [] else [!v[0].Waiting?] + Mask(v[1..])
  }

  lemma {:induction false} SelectStep(pre: seq<nat>, s: seq<nat>, mask: seq<bool>, wanted: bool)
    requires |s| > 0 && |mask| == |s|
    ensures (if mask[0] == wanted then pre + [s[0]] else pre) + Select(s[1..], mask[1..], wanted)
            == pre + Select(s, mask, wanted)
  {
    var rest := Select(s[1..], mask[1..], wanted);
    if mask[0] == wanted {
      Assoc(pre, [s[0]], rest);
    } else {
      assert [] + rest == rest;
    }
  }

  lemma SweepTokens(s: Sweep, one: Polled)
    ensures Tokens(SweepStep(s, one).kept)
            == if one.verdict.Waiting? then Tokens(s.kept) + [one.pending.token] else Tokens(s.kept)
    ensures AnswerTokens(SweepStep(s, one).answers)
            == if one.verdict.Waiting? then AnswerTokens(s.answers) else AnswerTokens(s.answers) + [one.pending.token]
  {
    if one.verdict.Waiting? {
      TokensAppend(s.kept, [one.pending]);
      assert [one.pending][1..] == [];
    } else {
      AnswerTokensAppend(s.answers, [Answer(one.pending.token, one.verdict)]);
      assert [Answer(one.pending.token, one.verdict)][1..] == [];
    }
  }

  lemma {:induction false} TokensLength(q: seq<Pending>)
    ensures |Tokens(q)| == |q|
  {
    if q != [] {
      TokensLength(q[1..]);
    }
  }

  /** Answered requests and surviving requests partition the queue, each side in queue order. */
  lemma {:induction false} PollAllConserves(s: Sweep, todo: seq<Pending>, pumpOk: bool, now: nat)
    ensures |Tokens(todo)| == |todo|
    ensures Tokens(PollAll(s, todo, pumpOk, now).kept)
            == Tokens(s.kept) + Select(Tokens(todo), Mask(Verdicts(s, todo, pumpOk, now)), false)
    ensures AnswerTokens(PollAll(s, todo, pumpOk, now).answers)
            == AnswerTokens(s.answers) + Select(Tokens(todo), Mask(Verdicts(s, todo, pumpOk, now)), true)
    decreases |todo|
  {
    TokensLength(todo);
    if todo != [] {
      var one := PollOne(s.ledger, todo[0], pumpOk, now);
      PollOneKeeps(s.ledger, todo[0], pumpOk, now);
      PollAllConserves(SweepStep(s, one), todo[1..], pumpOk, now);
      var mask := Mask(Verdicts(s, todo, pumpOk, now));
      var rest := Verdicts(SweepStep(s, one), todo[1..], pumpOk, now);
      assert Verdicts(s, todo, pumpOk, now) == [one.verdict] + rest;
      assert ([one.verdict] + rest)[1..] == rest;
      assert mask[1..] == Mask(rest);
      assert Tokens(todo)[1..] == Tokens(todo[1..]);
      SweepTokens(s, one);
      SelectStep(Tokens(s.kept), Tokens(todo), mask, false);
      SelectStep(AnswerTokens(s.answers), Tokens(todo), mask, true);
    }
  }

  lemma {:induction false} PollConserves(l: Ledger, queue: seq<Pending>, now: nat)
    ensures |Tokens(queue)| == |queue|
    ensures exists mask :: |mask| == |queue|
                           && Tokens(Poll(l, queue, now).kept) == Select(Tokens(queue), mask, false)
                           && AnswerTokens(Poll(l, queue, now).answers) == Select(Tokens(queue), mask, true)
  {
    var (p, ok) := Pump(l);
    var s := Sweep(p, [], []);
    PollAllConserves(s, queue, ok, now);
    var mask := Mask(Verdicts(s, queue, ok, now));
    assert |mask| == |queue|;
  }

  lemma {:induction false} SelectCovers(s: seq<nat>, mask: seq<bool>)
    requires |mask| == |s|
    ensures multiset(Select(s, mask, true)) + multiset(Select(s, mask, false)) == multiset(s)
  {
    if s != [] {
      SelectCovers(s[1..], mask[1..]);
      var yes, no := Select(s[1..], mask[1..], true), Select(s[1..], mask[1..], false);
      assert s == [s[0]] + s[1..];
      if mask[0] {
        assert Select(s, mask, true) == [s[0]] + yes && Select(s, mask, false) == [] + no == no;
      } else {
        assert Select(s, mask, true) == [] + yes == yes && Select(s, mask, false) == [s[0]] + no;
      }
    }
  }

  /** As multisets: answered plus still-pending equals the starting queue. */
  lemma {:induction false} PollPartitions(l: Ledger, queue: seq<Pending>, now: nat)
    ensures multiset(AnswerTokens(Poll(l, queue, now).answers)) + multiset(Tokens(Poll(l, queue, now).kept))
            == multiset(Tokens(queue))
  {
    PollConserves(l, queue, now);
    var mask :| |mask| == |queue|
                && Tokens(Poll(l, queue, now).kept) == Select(Tokens(queue), mask, false)
                && AnswerTokens(Poll(l, queue, now).answers) == Select(Tokens(queue), mask, true);
    SelectCovers(Tokens(queue), mask);
  }

  lemma FinishSuccess(l: Ledger, op: Operation, verdict: Verdict, committed: bool)
    ensures Finish(l, op, verdict).verdict == Success(committed) <==>
            verdict == Success(committed) && (Queries(op.completion) ==> Probe(l).1)
  {
  }

  lemma DecideSuccess(l: Ledger, others: set<NavId>, p: Pending, pumpOk: bool, now: nat, committed: bool)
    requires l.lawful && Sound(l, others + IdSet(p.op)) && Holds(l, others, p.op)
    requires Settle(l, p.op, pumpOk).ledger.lawful
    ensures var a := Settle(l, p.op, pumpOk);
            var ids := Ids(a.op.actions);
            var d := Decide(l, p, pumpOk, now);
            && (d.verdict == Success(committed) <==>
                && pumpOk && a.fault.None?
                && Ready(a.ledger.table, ids)
                && a.ledger.table[ids[|ids| - 1]].terminal == Some(Settled)
                && a.ledger.table[ids[|ids| - 1]].committed == committed)
            && (d.verdict.Success? ==> d.ledger.probes == a.ledger.probes)
  {
    SettleSound(l, others, p.op, pumpOk);
    var a := Settle(l, p.op, pumpOk);
    TakeSocketExact(a.ledger, Ids(a.op.actions));
  }

  /**
   An operation is answered with success exactly when the pump worked, adoption and
   confirmation raised no fault, all its navigations are claimed and terminal, the last one
   settled, and the context answers the completion handler that asks; what the superseded
   ones did is irrelevant. The reported flag is the last navigation's commit flag.
   */
  lemma SuccessExact(l: Ledger, others: set<NavId>, p: Pending, pumpOk: bool, now: nat, committed: bool)
    requires l.lawful && Sound(l, others + IdSet(p.op)) && Holds(l, others, p.op)
    requires Settle(l, p.op, pumpOk).ledger.lawful
    ensures var a := Settle(l, p.op, pumpOk);
            var ids := Ids(a.op.actions);
            PollOne(l, p, pumpOk, now).verdict == Success(committed) <==>
            && pumpOk && a.fault.None?
            && Ready(a.ledger.table, ids)
            && a.ledger.table[ids[|ids| - 1]].terminal == Some(Settled)
            && a.ledger.table[ids[|ids| - 1]].committed == committed
            && (Queries(p.op.completion) ==> Probe(a.ledger).1)
  {
    DecideSuccess(l, others, p, pumpOk, now, committed);
    PollOneKeeps(l, p, pumpOk, now);
    var d := Decide(l, p, pumpOk, now);
    FinishSuccess(d.ledger, d.pending.op, d.verdict, committed);
  }

  lemma {:induction false} RemoveOutcomesKeeps(l: Ledger, ids: seq<NavId>, id: NavId)
    requires id in RemoveOutcomes(l, ids).table
    ensures id in l.table && RemoveOutcomes(l, ids).table[id] == l.table[id]
    decreases |ids|
  {
    if ids != [] {
      RemoveOutcomesKeeps(RemoveOutcome(l, ids[0]).0, ids[1..], id);
    }
  }

  /** Taking outcomes asks the engine nothing. */
  lemma {:induction false} RemoveOutcomesProbes(l: Ledger, ids: seq<NavId>)
    ensures RemoveOutcomes(l, ids).probes == l.probes
    ensures ids != [] ==> TakeSocket(l, ids).0.probes == l.probes
    decreases |ids|
  {
    if ids != [] {
      RemoveOutcomesProbes(RemoveOutcome(l, ids[0]).0, ids[1..]);
      RemoveOutcomesProbes(l, ids[..|ids| - 1]);
    }
  }

  lemma {:induction false} TakeSocketOnly(l: Ledger, ids: seq<NavId>)
    requires TakeSocket(l, ids).1.Some?
    ensures Ready(l.table, ids)
    ensures var last := l.table[ids[|ids| - 1]];
            TakeSocket(l, ids).1 == Some(Taken(last.committed, last.terminal.value))
    ensures TakeSocket(l, ids).0.probes == l.probes
  {
    RemoveOutcomesKeeps(l, ids[..|ids| - 1], ids[|ids| - 1]);
    RemoveOutcomesProbes(l, ids);
  }

  /** Success is never reported for less, whatever the engine does and whoever else claims what. */
  lemma SuccessOnly(l: Ledger, p: Pending, pumpOk: bool, now: nat, committed: bool)
    requires PollOne(l, p, pumpOk, now).verdict == Success(committed)
    ensures var a := Settle(l, p.op, pumpOk);
            var ids := Ids(a.op.actions);
            && pumpOk && a.fault.None?
            && Ready(a.ledger.table, ids)
            && a.ledger.table[ids[|ids| - 1]].terminal == Some(Settled)
            && a.ledger.table[ids[|ids| - 1]].committed == committed
            && (Queries(p.op.completion) ==> Probe(a.ledger).1)
  {
    SettleKeeps(l, p.op, pumpOk);
    var d := Decide(l, p, pumpOk, now);
    FinishSuccess(d.ledger, d.pending.op, d.verdict, committed);
    var a := Settle(l, p.op, pumpOk);
    TakeSocketOnly(a.ledger, Ids(a.op.actions));
  }

  /** An answered success consumed all of the operation's navigations. */
  lemma SuccessConsumes(l: Ledger, others: set<NavId>, p: Pending, now: nat, id: NavId)
    requires l.lawful && Sound(l, others + IdSet(p.op)) && Holds(l, others, p.op)
    requires Settle(l, p.op, true).ledger.lawful
    requires Decide(l, p, true, now).verdict.Success?
    ensures var d := Decide(l, p, true, now);
            id in Ids(d.pending.op.actions) ==> id !in d.ledger.table
  {
    SettleSound(l, others, p.op, true);
    var a := Settle(l, p.op, true);
    TakeSocketExact(a.ledger, Ids(a.op.actions));
  }
}
