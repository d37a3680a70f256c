/** Successor adoption extends an operation by one chain of script-created navigations. */
module NavigationAdopt {
  import opened Common
  import opened NavigationModel

  lemma {:induction false} IdsAppend(xs: seq<Action>, ys: seq<Action>)
    ensures Ids(xs + ys) == Ids(xs) + Ids(ys)
  {
    if xs == [] {
      assert xs + ys == ys;
    } else {
      assert (xs + ys)[1..] == xs[1..] + ys;
      IdsAppend(xs[1..], ys);
    }
  }

  lemma {:induction false} IdsPush(xs: seq<Action>, id: NavId, kind: Kind)
    ensures Ids(xs + [CrossDocument(id, kind)]) == Ids(xs) + [id]
  {
    var step := CrossDocument(id, kind);
    IdsAppend(xs, [step]);
    assert [step][1..] == [];
  }

  /** `t'` is `t` with the entries in `ids` claimed, all of them unclaimed before. */
  ghost predicate Claims(t: Table, t': Table, ids: seq<NavId>) {
    && t'.Keys == t.Keys
    && (forall id :: id in ids ==> id in t && !t[id].claimed)
    && (forall id :: id in t ==> t'[id] == if id in ids then t[id].(claimed := true) else t[id])
  }

  /** `b` is the smallest entry of the context whose predecessor is `a`. */
  ghost predicate Follows(t: Table, context: Ctx, a: NavId, b: NavId) {
    && b in t && t[b].context == context && t[b].predecessor == Some(a)
    && forall c :: c in t && t[c].context == context && t[c].predecessor == Some(a) ==> b <= c
  }

  /** Every id from position `from` on follows the id before it. */
  ghost predicate Chain(t: Table, context: Ctx, ids: seq<NavId>, from: nat) {
    forall j, k :: 0 < from <= k < |ids| && j == k - 1 ==> Follows(t, context, ids[j], ids[k])
  }

  lemma HeirFollows(t: Table, op: Operation)
    requires CanAdopt(t, op)
    ensures Follows(t, op.context, Ids(op.actions)[|Ids(op.actions)| - 1], Heir(t, op))
    ensures Ids(AdoptedOp(t, op).actions) == Ids(op.actions) + [Heir(t, op)]
  {
    IdsPush(op.actions, Heir(t, op), t[Heir(t, op)].kind);
    var a := Ids(op.actions)[|Ids(op.actions)| - 1];
    forall c | c in t && t[c].context == op.context && t[c].predecessor == Some(a)
      ensures Heir(t, op) <= c
    {
      assert c in SuccessorsOf(t, op.context, a);
    }
  }

  lemma ClaimsCompose(t: Table, s: NavId, t2: Table, rest: seq<NavId>)
    requires s in t && !t[s].claimed && Claims(Claim(t, s), t2, rest)
    ensures Claims(t, t2, [s] + rest)
  {
    assert Claim(t, s)[s].claimed;
  }

  lemma TailSplits(before: seq<NavId>, s: NavId, after: seq<NavId>)
    requires before + [s] <= after
    ensures before <= after && after[|before|..] == [s] + after[|before| + 1..]
  {
    assert after[..|before| + 1] == before + [s];
    assert after[..|before|] == before;
  }

  /** Adoption touches only the claim bits of the ids it appends, and those were unclaimed. */
  lemma {:induction false} AdoptFrame(t: Table, op: Operation)
    ensures var a := Adopt(t, op);
            && a.op == op.(actions := a.op.actions)
            && Ids(op.actions) <= Ids(a.op.actions)
            && Claims(t, a.table, Ids(a.op.actions)[|Ids(op.actions)|..])
    decreases |Unclaimed(t)|
  {
    var before := Ids(op.actions);
    if CanAdopt(t, op) && |before| < MAX_PENDING_CORE_NAVIGATIONS {
      HeirFollows(t, op);
      var s := Heir(t, op);
      AdoptFrame(Claim(t, s), AdoptedOp(t, op));
      var a := Adopt(Claim(t, s), AdoptedOp(t, op));
      var after := Ids(a.op.actions);
      TailSplits(before, s, after);
      ClaimsCompose(t, s, a.table, after[|before| + 1..]);
    }
  }

  lemma ChainExtends(t: Table, context: Ctx, ids: seq<NavId>, from: nat)
    requires 0 < from < |ids| && ids[from] in t
    requires Follows(t, context, ids[from - 1], ids[from])
    requires Chain(Claim(t, ids[from]), context, ids, from + 1)
    ensures Chain(t, context, ids, from)
  {
    forall j, k | 0 < from <= k < |ids| && j == k - 1
      ensures Follows(t, context, ids[j], ids[k])
    {
      if k > from {
        assert Follows(Claim(t, ids[from]), context, ids[j], ids[k]);
      }
    }
  }

  lemma {:induction false} AdoptFollows(t: Table, op: Operation)
    ensures Chain(t, op.context, Ids(Adopt(t, op).op.actions), |Ids(op.actions)|)
    decreases |Unclaimed(t)|
  {
    var before := Ids(op.actions);
    if CanAdopt(t, op) && |before| < MAX_PENDING_CORE_NAVIGATIONS {
      HeirFollows(t, op);
      var s := Heir(t, op);
      AdoptFrame(Claim(t, s), AdoptedOp(t, op));
      AdoptFollows(Claim(t, s), AdoptedOp(t, op));
      var after := Ids(Adopt(Claim(t, s), AdoptedOp(t, op)).op.actions);
      assert after[..|before| + 1] == before + [s];
      assert after[|before|] == s && after[|before| - 1] == before[|before| - 1];
      ChainExtends(t, op.context, after, |before|);
    }
  }

  lemma TerminalUnclaim(t: Table, s: NavId, ids: seq<NavId>)
    requires s in t && AllTerminal(Claim(t, s), ids)
    ensures AllTerminal(t, ids)
  {
  }

  /** What an operation that adopted something looks like. */
  ghost predicate Extended(t: Table, before: seq<NavId>, after: seq<NavId>) {
    && before != []
    && |before| < |after| <= MAX_PENDING_CORE_NAVIGATIONS
    && AllTerminal(t, after[..|after| - 1])
  }

  lemma {:induction false} AdoptTerminal(t: Table, op: Operation)
    ensures |Ids(op.actions)| < |Ids(Adopt(t, op).op.actions)| ==>
              Extended(t, Ids(op.actions), Ids(Adopt(t, op).op.actions))
    decreases |Unclaimed(t)|
  {
    var before := Ids(op.actions);
    if CanAdopt(t, op) && |before| < MAX_PENDING_CORE_NAVIGATIONS {
      HeirFollows(t, op);
      var s := Heir(t, op);
      AdoptFrame(Claim(t, s), AdoptedOp(t, op));
      AdoptTerminal(Claim(t, s), AdoptedOp(t, op));
      var after := Ids(Adopt(Claim(t, s), AdoptedOp(t, op)).op.actions);
      ExtendedStep(t, before, s, after);
    }
  }

  lemma ExtendedStep(t: Table, before: seq<NavId>, s: NavId, after: seq<NavId>)
    requires s in t && before != [] && AllTerminal(t, before) && |before| < MAX_PENDING_CORE_NAVIGATIONS
    requires before + [s] <= after
    requires |before| + 1 < |after| ==> Extended(Claim(t, s), before + [s], after)
    ensures Extended(t, before, after)
  {
    if |after| == |before| + 1 {
      assert after == before + [s];
      assert after[..|after| - 1] == before;
    } else {
      TerminalUnclaim(t, s, after[..|after| - 1]);
    }
  }

  /**
   The appended ids form a chain: each is the smallest same-context entry whose
   predecessor is the id just before it, every id but the last is terminal, and
   the list never grows past the limit.
   */
  lemma {:induction false} AdoptChain(t: Table, op: Operation)
    ensures var before, after := Ids(op.actions), Ids(Adopt(t, op).op.actions);
            && before <= after
            && Chain(t, op.context, after, |before|)
            && (before == after || (Extended(t, before, after) && |after| <= 1024))
  {
    AdoptFrame(t, op);
    AdoptFollows(t, op);
    AdoptTerminal(t, op);
  }

  /** Adoption stops only when no step is possible, and fails exactly at the length limit. */
  lemma {:induction false} AdoptStops(t: Table, op: Operation)
    ensures var a := Adopt(t, op);
            CanAdopt(a.table, a.op) <==> a.fault.Some?
    ensures var a := Adopt(t, op);
            a.fault.Some? ==>
              a.fault.value == SuccessorLimitExceeded && |Ids(a.op.actions)| >= 1024
    decreases |Unclaimed(t)|
  {
    if CanAdopt(t, op) && |Ids(op.actions)| < MAX_PENDING_CORE_NAVIGATIONS {
      AdoptStops(Claim(t, Heir(t, op)), AdoptedOp(t, op));
    }
  }
}
