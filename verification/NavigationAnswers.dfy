/** Over a whole run every operation is answered at most once, and queues stay bounded. */
module NavigationAnswers {
  import opened NavigationModel
  import opened NavigationPoll
  import opened NavigationRun

  lemma {:induction false} SelectSub(s: seq<nat>, mask: seq<bool>, wanted: bool)
    requires |mask| == |s|
    ensures forall x :: x in Select(s, mask, wanted) ==> x in s
    ensures |Select(s, mask, wanted)| <= |s|
  {
    if s != [] {
      SelectSub(s[1..], mask[1..], wanted);
    }
  }

  lemma {:induction false} SelectDistinct(s: seq<nat>, mask: seq<bool>)
    requires |mask| == |s| && Distinct(s)
    ensures Distinct(Select(s, mask, true) + Select(s, mask, false))
  {
    if s != [] {
      var t, f := Select(s[1..], mask[1..], true), Select(s[1..], mask[1..], false);
      assert Distinct(s[1..]);
      SelectDistinct(s[1..], mask[1..]);
      SelectSub(s[1..], mask[1..], true);
      SelectSub(s[1..], mask[1..], false);
      assert s[0] !in t + f;
      if mask[0] {
        assert [] + (t + f) == t + f;
        DistinctInsert([], s[0], t + f);
        assert ([s[0]] + t) + ([] + f) == [] + [s[0]] + (t + f);
      } else {
        DistinctInsert(t, s[0], f);
        assert ([] + t) + ([s[0]] + f) == t + [s[0]] + f;
      }
    }
  }

  lemma DistinctInsert(a: seq<nat>, x: nat, b: seq<nat>)
    requires Distinct(a + b) && x !in a + b
    ensures Distinct(a + [x] + b)
  {
    var q, r := a + [x] + b, a + b;
    forall i, j | 0 <= i < j < |q|
      ensures q[i] != q[j]
    {
      assert q[i] == if i < |a| then r[i] else if i == |a| then x else r[i - 1];
      assert q[j] == if j < |a| then r[j] else if j == |a| then x else r[j - 1];
    }
  }

  lemma DistinctApart(a: seq<nat>, b: seq<nat>)
    requires Distinct(a + b)
    ensures Distinct(a) && Distinct(b)
    ensures forall x :: x in a ==> x !in b
  {
    assert forall i :: 0 <= i < |a| ==> (a + b)[i] == a[i];
    assert forall i :: 0 <= i < |b| ==> (a + b)[|a| + i] == b[i];
  }

  lemma DistinctJoin(a: seq<nat>, b: seq<nat>)
    requires Distinct(a) && Distinct(b)
    requires forall x :: x in a ==> x !in b
    ensures Distinct(a + b)
  {
    forall i, j | 0 <= i < j < |a + b|
      ensures (a + b)[i] != (a + b)[j]
    {
      if i < |a| <= j {
        assert (a + b)[i] == a[i] && a[i] in a;
        assert (a + b)[j] == b[j - |a|] && b[j - |a|] in b;
      }
    }
  }

  ghost function Waiting(s: System, c: Conn): seq<nat> { Tokens(Queue(s, c)) }

  ghost predicate Issued(s: System, tokens: seq<nat>) {
    Distinct(tokens) && forall x :: x in tokens ==> x < s.nextToken
  }

  ghost predicate Apart(a: seq<nat>, b: seq<nat>) { forall x :: x in a ==> x !in b }

  /** Tokens answered so far, and the tokens waiting on each connection, never overlap. */
  ghost predicate TokensOk(s: System) {
    && Issued(s, AnswerTokens(s.answers))
    && (forall c :: Issued(s, Waiting(s, c)) && Apart(Waiting(s, c), AnswerTokens(s.answers)))
    && (forall c, d :: c != d ==> Apart(Waiting(s, c), Waiting(s, d)))
  }

  /** A step that changes one connection's queue and appends answers taken from it or new. */
  lemma TokensStep(s: System, t: System, c: Conn)
    requires TokensOk(s) && s.nextToken <= t.nextToken
    requires forall d :: d != c ==> Waiting(t, d) == Waiting(s, d)
    requires Issued(t, AnswerTokens(t.answers)) && Issued(t, Waiting(t, c))
    requires Apart(Waiting(t, c), AnswerTokens(t.answers))
    requires forall x :: x in AnswerTokens(t.answers) ==> x in AnswerTokens(s.answers) || x in Waiting(s, c)
    requires forall x :: x in Waiting(t, c) ==> x in Waiting(s, c) || s.nextToken <= x
    ensures TokensOk(t)
  {
    forall d | d != c
      ensures Issued(t, Waiting(t, d)) && Apart(Waiting(t, d), AnswerTokens(t.answers))
      ensures Apart(Waiting(t, d), Waiting(t, c)) && Apart(Waiting(t, c), Waiting(t, d))
    {
      assert Issued(s, Waiting(s, d)) && Apart(Waiting(s, d), AnswerTokens(s.answers));
      assert Apart(Waiting(s, d), Waiting(s, c));
    }
    forall d, e | d != e
      ensures Apart(Waiting(t, d), Waiting(t, e))
    {
      assert Apart(Waiting(s, d), Waiting(s, e));
    }
  }

  lemma {:induction false} PollSplits(l: Ledger, queue: seq<Pending>, now: nat)
    requires Distinct(Tokens(queue))
    ensures var r := Poll(l, queue, now);
            && Distinct(AnswerTokens(r.answers)) && Distinct(Tokens(r.kept))
            && (forall x :: x in AnswerTokens(r.answers) ==> x in Tokens(queue) && x !in Tokens(r.kept))
            && (forall x :: x in Tokens(r.kept) ==> x in Tokens(queue))
            && |r.kept| <= |queue|
  {
    var r := Poll(l, queue, now);
    PollConserves(l, queue, now);
    var mask :| |mask| == |queue|
                && Tokens(r.kept) == Select(Tokens(queue), mask, false)
                && AnswerTokens(r.answers) == Select(Tokens(queue), mask, true);
    SelectSub(Tokens(queue), mask, true);
    SelectSub(Tokens(queue), mask, false);
    SelectDistinct(Tokens(queue), mask);
    DistinctApart(Select(Tokens(queue), mask, true), Select(Tokens(queue), mask, false));
    TokensLength(r.kept);
  }

  lemma PollTokens(s: System, c: Conn, now: nat, engine: Engine)
    requires TokensOk(s)
    ensures TokensOk(Apply(s, PollConnection(c, now, engine)))
  {
    var t := Apply(s, PollConnection(c, now, engine));
    var r := Poll(Load(s.ledger, engine), Queue(s, c), now);
    assert Issued(s, Waiting(s, c)) && Apart(Waiting(s, c), AnswerTokens(s.answers));
    PollSplits(Load(s.ledger, engine), Queue(s, c), now);
    AnswerTokensAppend(s.answers, r.answers);
    DistinctJoin(AnswerTokens(s.answers), AnswerTokens(r.answers));
    assert Queue(t, c) == r.kept;
    TokensStep(s, t, c);
  }

  lemma StartTokens(s: System, c: Conn, op: Operation, deadline: nat, engine: Engine)
    requires TokensOk(s)
    ensures TokensOk(Apply(s, StartOperation(c, op, deadline, engine)))
  {
    var t := Apply(s, StartOperation(c, op, deadline, engine));
    var p := Pending(s.nextToken, deadline, op);
    assert Issued(s, Waiting(s, c)) && Apart(Waiting(s, c), AnswerTokens(s.answers));
    if Queue(t, c) != Queue(s, c) {
      TokensAppend(Queue(s, c), [p]);
      assert [p][1..] == [];
      assert Waiting(t, c) == Waiting(s, c) + [s.nextToken];
      DistinctJoin(Waiting(s, c), [s.nextToken]);
    }
    TokensStep(s, t, c);
  }

  lemma ApplyTokens(s: System, step: Step)
    requires TokensOk(s)
    ensures TokensOk(Apply(s, step))
  {
    var t := Apply(s, step);
    match step
    case StartOperation(c, op, deadline, engine) => StartTokens(s, c, op, deadline, engine);
    case PollConnection(c, now, engine) => PollTokens(s, c, now, engine);
    case CloseConnection(c, engine) =>
      assert Queue(t, c) == [];
      TokensStep(s, t, c);
    case BlockingWait(_, _) => SameTokens(s, t);
    case DrainEvents(_) => SameTokens(s, t);
    case DropTarget(_, _) => SameTokens(s, t);
  }

  lemma SameTokens(s: System, t: System)
    requires TokensOk(s) && t == s.(ledger := t.ledger)
    ensures TokensOk(t)
  {
    assert Issued(s, Waiting(s, 0)) && Apart(Waiting(s, 0), AnswerTokens(s.answers));
    TokensStep(s, t, 0);
  }

  /** No request is answered twice, and no live operation has already been answered. */
  lemma {:induction false} AnsweredOnce(steps: seq<Step>)
    ensures Distinct(AnswerTokens(Run(steps).answers))
    ensures forall c :: Apart(Waiting(Run(steps), c), AnswerTokens(Run(steps).answers))
    ensures TokensOk(Run(steps))
    decreases |steps|
  {
    if steps != [] {
      AnsweredOnce(steps[..|steps| - 1]);
      ApplyTokens(Run(steps[..|steps| - 1]), steps[|steps| - 1]);
    }
  }

  lemma {:induction false} QueuesBounded(steps: seq<Step>, c: Conn)
    ensures |Queue(Run(steps), c)| <= 64
    decreases |steps|
  {
    if steps != [] {
      var before, step := steps[..|steps| - 1], steps[|steps| - 1];
      QueuesBounded(before, c);
      AnsweredOnce(before);
      if step.PollConnection? && step.conn == c {
        assert Issued(Run(before), Waiting(Run(before), c));
        PollSplits(Load(Run(before).ledger, step.engine), Queue(Run(before), c), step.now);
      }
    }
  }

  /** A sweep keeps no operation whose deadline has passed. */
  lemma {:induction false} SweepKeepsLive(s: Sweep, todo: seq<Pending>, pumpOk: bool, now: nat)
    requires forall p :: p in s.kept ==> now < p.deadline
    ensures forall p :: p in PollAll(s, todo, pumpOk, now).kept ==> now < p.deadline
    decreases |todo|
  {
    if todo != [] {
      var one := PollOne(s.ledger, todo[0], pumpOk, now);
      PollOneKeeps(s.ledger, todo[0], pumpOk, now);
      assert one.verdict.Waiting? ==> now < one.pending.deadline;
      SweepKeepsLive(SweepStep(s, one), todo[1..], pumpOk, now);
    }
  }

  /** Whatever else is queued, an operation still pending after a poll has not reached its deadline. */
  lemma {:induction false} ExpiredAnswered(l: Ledger, queue: seq<Pending>, now: nat)
    ensures forall p :: p in Poll(l, queue, now).kept ==> now < p.deadline
  {
    SweepKeepsLive(Sweep(Pump(l).0, [], []), queue, Pump(l).1, now);
  }
}
