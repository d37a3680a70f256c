/**
 Cancelling an operation consumes exactly the closure of its navigations under
 predecessor links through unclaimed entries of its context.
 */
module NavigationCancel {
  import opened Common
  import opened NavigationModel
  import opened NavigationAdopt
  import opened NavigationPrune

  /** `b` is an unclaimed navigation of the context that superseded `a`. */
  ghost predicate Link(t: Table, context: Ctx, a: NavId, b: NavId) {
    b in t && t[b].context == context && t[b].predecessor == Some(a) && !t[b].claimed
  }

  ghost predicate IsPath(t: Table, context: Ctx, roots: seq<NavId>, path: seq<NavId>) {
    && path != [] && path[0] in roots
    && forall j, k :: 0 <= j < |path| && k == j + 1 < |path| ==> Link(t, context, path[j], path[k])
  }

  /** The closure, defined by paths rather than by the claiming loop. */
  ghost predicate Reaches(t: Table, context: Ctx, roots: seq<NavId>, id: NavId) {
    exists path :: IsPath(t, context, roots, path) && path[|path| - 1] == id
  }

  lemma ReachesRoot(t: Table, context: Ctx, roots: seq<NavId>, id: NavId)
    requires id in roots
    ensures Reaches(t, context, roots, id)
  {
    assert IsPath(t, context, roots, [id]);
    assert [id][|[id]| - 1] == id;
  }

  lemma ReachesStep(t: Table, context: Ctx, roots: seq<NavId>, a: NavId, b: NavId)
    requires Reaches(t, context, roots, a) && Link(t, context, a, b)
    ensures Reaches(t, context, roots, b)
  {
    var path :| IsPath(t, context, roots, path) && path[|path| - 1] == a;
    var longer := path + [b];
    assert IsPath(t, context, roots, longer);
    assert longer[|longer| - 1] == b;
  }

  /** The loop only claims entries that were unclaimed, and appends exactly those. */
  lemma {:induction false} GrowFrame(t: Table, context: Ctx, ids: seq<NavId>)
    ensures var (t', ids') := Grow(t, context, ids);
            ids <= ids' && Claims(t, t', ids'[|ids|..])
    decreases |Unclaimed(t)|
  {
    if Heirs(t, context, ids) != {} {
      var s := Least(Heirs(t, context, ids));
      var (t', ids') := Grow(Claim(t, s), context, ids + [s]);
      GrowFrame(Claim(t, s), context, ids + [s]);
      TailSplits(ids, s, ids');
      ClaimsCompose(t, s, t', ids'[|ids| + 1..]);
    }
  }

  lemma {:induction false} GrowSound(t: Table, context: Ctx, ids: seq<NavId>, id: NavId)
    requires id in Grow(t, context, ids).1
    ensures Reaches(t, context, ids, id)
    decreases |Unclaimed(t)|
  {
    if Heirs(t, context, ids) == {} {
      ReachesRoot(t, context, ids, id);
    } else {
      var s := Least(Heirs(t, context, ids));
      GrowSound(Claim(t, s), context, ids + [s], id);
      var a := t[s].predecessor.value;
      ReachesRoot(t, context, ids, a);
      assert Link(t, context, a, s);
      ReachesStep(t, context, ids, a, s);
      ReachesShrink(t, context, ids, s, id);
    }
  }

  lemma ReachesShrink(t: Table, context: Ctx, ids: seq<NavId>, s: NavId, id: NavId)
    requires s in t && Reaches(t, context, ids, s)
    requires Reaches(Claim(t, s), context, ids + [s], id)
    ensures Reaches(t, context, ids, id)
  {
    var path :| IsPath(Claim(t, s), context, ids + [s], path) && path[|path| - 1] == id;
    PathShrink(t, context, ids, s, path, |path| - 1);
  }

  lemma {:induction false} PathShrink(t: Table, context: Ctx, ids: seq<NavId>, s: NavId, path: seq<NavId>, k: nat)
    requires s in t && Reaches(t, context, ids, s)
    requires IsPath(Claim(t, s), context, ids + [s], path) && k < |path|
    ensures Reaches(t, context, ids, path[k])
  {
    if k == 0 {
      if path[0] in ids {
        ReachesRoot(t, context, ids, path[0]);
      }
    } else {
      PathShrink(t, context, ids, s, path, k - 1);
      assert Link(Claim(t, s), context, path[k - 1], path[k]);
      ReachesStep(t, context, ids, path[k - 1], path[k]);
    }
  }

  lemma {:induction false} GrowStops(t: Table, context: Ctx, ids: seq<NavId>)
    ensures var (t', ids') := Grow(t, context, ids); Heirs(t', context, ids') == {}
    decreases |Unclaimed(t)|
  {
    if Heirs(t, context, ids) != {} {
      var s := Least(Heirs(t, context, ids));
      GrowStops(Claim(t, s), context, ids + [s]);
    }
  }

  lemma {:induction false} GrowCovers(t: Table, context: Ctx, ids: seq<NavId>, path: seq<NavId>, k: nat)
    requires IsPath(t, context, ids, path) && k < |path|
    ensures path[k] in Grow(t, context, ids).1
  {
    var (t', ids') := Grow(t, context, ids);
    GrowFrame(t, context, ids);
    if k > 0 {
      GrowCovers(t, context, ids, path, k - 1);
      GrowStops(t, context, ids);
      assert Link(t, context, path[k - 1], path[k]);
      assert path[k] !in Heirs(t', context, ids');
      assert path[k] in ids'[|ids|..];
    }
  }

  /** The claiming loop collects the closure, no more and no less. */
  lemma {:induction false} GrowExact(t: Table, context: Ctx, ids: seq<NavId>)
    ensures var (t', ids') := Grow(t, context, ids);
            && ids <= ids'
            && Claims(t, t', ids'[|ids|..])
            && (forall id :: id in ids' <==> Reaches(t, context, ids, id))
  {
    GrowFrame(t, context, ids);
    forall id | id in Grow(t, context, ids).1
      ensures Reaches(t, context, ids, id)
    {
      GrowSound(t, context, ids, id);
    }
    forall id | Reaches(t, context, ids, id)
      ensures id in Grow(t, context, ids).1
    {
      var path :| IsPath(t, context, ids, path) && path[|path| - 1] == id;
      GrowCovers(t, context, ids, path, |path| - 1);
    }
  }

  /** What consuming a list of ids does to one entry. */
  lemma {:induction false} ConsumeExact(t: Table, ids: seq<NavId>, id: NavId)
    ensures id !in ids || id !in t ==> (id in Consume(t, ids) <==> id in t)
    ensures id !in ids && id in t ==> Consume(t, ids)[id] == t[id]
    ensures id in ids && id in t && t[id].terminal.Some? ==> id !in Consume(t, ids)
    ensures id in ids && id in t && t[id].terminal.None? ==>
              id in Consume(t, ids)
              && Consume(t, ids)[id] == if t[id].claimed then t[id].(abandoned := true) else t[id]
    decreases |ids|
  {
    if ids != [] {
      ConsumeExact(ConsumeOne(t, ids[0]), ids[1..], id);
    }
  }

  /** Every navigation of the operation that is still in the table carries its claim. */
  ghost predicate HoldsClaims(t: Table, op: Operation) {
    forall id :: id in Ids(op.actions) && id in t ==> t[id].claimed
  }

  ghost predicate InClosure(t: Table, op: Operation, id: NavId) {
    Reaches(t, op.context, Ids(op.actions), id)
  }

  /** Terminal members vanish, the rest become claimed and abandoned, everything else stays. */
  lemma CancelTableExact(t: Table, op: Operation, id: NavId)
    requires HoldsClaims(t, op)
    ensures id in CancelTable(t, op) <==> id in t && !(InClosure(t, op, id) && t[id].terminal.Some?)
    ensures id in CancelTable(t, op) ==>
              CancelTable(t, op)[id] ==
              if InClosure(t, op, id) then t[id].(claimed := true, abandoned := true) else t[id]
  {
    var ids := Ids(op.actions);
    var (t', ids') := Grow(t, op.context, ids);
    GrowExact(t, op.context, ids);
    ConsumeExact(t', ids', id);
    if id in ids' && id in t {
      assert id in ids || id in ids'[|ids|..];
    }
  }

  /** No unclaimed entry of the context still descends from the cancelled operation. */
  lemma CancelTableSevers(t: Table, op: Operation, a: NavId, b: NavId)
    requires HoldsClaims(t, op)
    requires InClosure(t, op, a)
    ensures !Link(CancelTable(t, op), op.context, a, b)
  {
    CancelTableExact(t, op, b);
    if Link(CancelTable(t, op), op.context, a, b) && Link(t, op.context, a, b) {
      ReachesStep(t, op.context, Ids(op.actions), a, b);
    }
  }

  /**
   The whole cancellation of an operation that is not a target creation, in terms
   of the table `t` left by the event pump. The final prune drops further entries
   only if they are terminal and unclaimed or abandoned.
   */
  lemma CancelExact(l: Ledger, op: Operation, id: NavId)
    requires !op.completion.TargetCreate?
    requires HoldsClaims(Pump(l).0.table, op)
    ensures var t, r := Pump(l).0.table, Cancel(l, op).table;
            && (InClosure(t, op, id) && id in t && t[id].terminal.Some? ==> id !in r)
            && (InClosure(t, op, id) && id in t && t[id].terminal.None? ==>
                  id in r && r[id] == t[id].(claimed := true, abandoned := true))
            && (!InClosure(t, op, id) && id in r ==> id in t && r[id] == t[id])
            && (!InClosure(t, op, id) && id in t && id !in r ==> id in Evictable(t))
            && (id !in t ==> id !in r)
  {
    var t := Pump(l).0.table;
    CancelTableExact(t, op, id);
    PruneKeeps(CancelTable(t, op));
  }

  lemma CancelSevers(l: Ledger, op: Operation, a: NavId, b: NavId)
    requires !op.completion.TargetCreate?
    requires HoldsClaims(Pump(l).0.table, op)
    requires InClosure(Pump(l).0.table, op, a)
    ensures !Link(Cancel(l, op).table, op.context, a, b)
  {
    var t := Pump(l).0.table;
    CancelTableSevers(t, op, a, b);
    PruneKeeps(CancelTable(t, op));
  }
}
