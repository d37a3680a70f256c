/** What recording an event does to the map, field by field, and what a batch of events leaves of a claimed entry. */
module NavigationEvents {
  import opened Common
  import opened NavigationModel
  import opened NavigationPrune
  import opened NavigationAdopt
  import opened NavigationOwnership
  import opened NavigationClaims

  function About(event: Event): Option<NavId> {
    match event
    case NavigationRequested(_, id, _, _) => Some(id)
    case NavigationCommitted(_, id) => Some(id)
    case NavigationSettled(_, id) => Some(id)
    case NavigationFailed(_, id, _) => Some(id)
    case NavigationCancelled(_, id, _) => Some(id)
    case OtherEvent => None
  }

  /** Context and ownership marks come from the entry that was there, or from the event for a new one. */
  predicate SameOwner(before: Option<Entry>, context: Ctx, after: Entry) {
    match before
    case Some(e) => after.context == e.context && after.claimed == e.claimed && after.abandoned == e.abandoned
    case None => after.context == context && !after.claimed && !after.abandoned
  }

  predicate SameOrigin(before: Option<Entry>, after: Entry) {
    match before
    case Some(e) => after.predecessor == e.predecessor && after.kind == e.kind
    case None => after.predecessor == None && after.kind == Regular
  }

  predicate SameCommit(before: Option<Entry>, after: Entry) {
    after.committed == (before.Some? && before.value.committed)
  }

  predicate SameTerminal(before: Option<Entry>, after: Entry) {
    after.terminal == if before.Some? then before.value.terminal else None
  }

  /** The entry an event leaves, given the one it found. */
  predicate Wrote(before: Option<Entry>, event: Event, after: Entry) {
    match event
    case NavigationRequested(context, _, predecessor, kind) =>
      && after.predecessor == predecessor && after.kind == kind
      && SameOwner(before, context, after) && SameCommit(before, after) && SameTerminal(before, after)
    case NavigationCommitted(context, _) =>
      && after.committed
      && SameOwner(before, context, after) && SameOrigin(before, after) && SameTerminal(before, after)
    case NavigationSettled(context, _) =>
      && after.terminal == Some(Settled)
      && SameOwner(before, context, after) && SameOrigin(before, after) && SameCommit(before, after)
    case NavigationFailed(context, _, error) =>
      && after.terminal == Some(Faulted(EngineFault(error)))
      && SameOwner(before, context, after) && SameOrigin(before, after) && SameCommit(before, after)
    case NavigationCancelled(context, id, reason) =>
      && after.terminal == Some(Faulted(CancelledNavigation(id, reason)))
      && SameOwner(before, context, after) && SameOrigin(before, after) && SameCommit(before, after)
    case OtherEvent => false
  }

  function Find(t: Table, id: NavId): Option<Entry> { if id in t then Some(t[id]) else None }

  /** An event writes its own entry as said and no other. */
  lemma NoteExact(l: Ledger, event: Event)
    ensures var t := Note(l, event).table;
            match About(event)
            case None => t == l.table
            case Some(id) =>
              && id in t && Wrote(Find(l.table, id), event, t[id])
              && forall other :: other != id ==> Find(t, other) == Find(l.table, other)
  {
  }

  /** After the prune that ends recording, whatever is still there is what the event left. */
  lemma RecordExact(l: Ledger, event: Event, id: NavId)
    requires id in Record(l, event).table
    ensures var after := Record(l, event).table[id];
            if About(event) == Some(id) then Wrote(Find(l.table, id), event, after)
            else Find(l.table, id) == Some(after)
  {
    NoteExact(l, event);
    PruneKeeps(Note(l, event).table);
  }

  // ------------------------------------------------------------ batches

  /** The outcome a terminal event reports. */
  function Reported(event: Event): Option<Outcome> {
    match event
    case NavigationSettled(_, _) => Some(Settled)
    case NavigationFailed(_, _, error) => Some(Faulted(EngineFault(error)))
    case NavigationCancelled(_, id, reason) => Some(Faulted(CancelledNavigation(id, reason)))
    case _ => None
  }

  /** What the last terminal event of a navigation reported, if there was one. */
  function LastReport(events: seq<Event>, id: NavId): Option<Outcome> {
    if events == [] then None
    else
      var last := events[|events| - 1];
      if About(last) == Some(id) && Reported(last).Some? then Reported(last)
      else LastReport(events[..|events| - 1], id)
  }

  predicate CommitHeard(events: seq<Event>, id: NavId) {
    exists i :: 0 <= i < |events| && events[i].NavigationCommitted? && events[i].id == id
  }

  lemma {:induction false} PruneHeld(t: Table, id: NavId)
    requires Held(t, id)
    ensures id in Prune(t) && Prune(t)[id] == t[id]
  {
    PruneKeeps(t);
  }

  lemma NoteHeld(l: Ledger, event: Event, id: NavId)
    requires Held(l.table, id)
    ensures var before, t := l.table[id], Note(l, event).table;
            && Held(t, id) && t[id].context == before.context
            && t[id].terminal == (if About(event) == Some(id) && Reported(event).Some? then Reported(event)
                                  else before.terminal)
            && t[id].committed == (before.committed || (event.NavigationCommitted? && event.id == id))
  {
  }

  lemma RecordHeld(l: Ledger, event: Event, id: NavId)
    requires Held(l.table, id)
    ensures var before, t := l.table[id], Record(l, event).table;
            && Held(t, id) && t[id].context == before.context
            && t[id].terminal == (if About(event) == Some(id) && Reported(event).Some? then Reported(event)
                                  else before.terminal)
            && t[id].committed == (before.committed || (event.NavigationCommitted? && event.id == id))
  {
    NoteHeld(l, event, id);
    PruneHeld(Note(l, event).table, id);
  }

  lemma {:induction false} RecordAllAppend(l: Ledger, a: seq<Event>, b: seq<Event>)
    ensures RecordAll(l, a + b) == RecordAll(RecordAll(l, a), b)
    decreases |a|
  {
    if a == [] {
      assert a + b == b;
    } else {
      assert (a + b)[1..] == a[1..] + b && (a + b)[0] == a[0];
      RecordAllAppend(Record(l, a[0]), a[1..], b);
    }
  }

  /**
   A claimed, un-abandoned entry survives any batch of events, with the outcome of the last
   terminal event of its navigation and a commit flag if any commit was among them.
   */
  lemma {:induction false} BatchHeld(l: Ledger, events: seq<Event>, id: NavId)
    requires Held(l.table, id)
    ensures Held(RecordAll(l, events).table, id)
    ensures var before, after := l.table[id], RecordAll(l, events).table[id];
            && after.context == before.context
            && after.terminal == (if LastReport(events, id).Some? then LastReport(events, id) else before.terminal)
            && after.committed == (before.committed || CommitHeard(events, id))
    decreases |events|
  {
    if events != [] {
      var front, last := events[..|events| - 1], events[|events| - 1];
      assert events == front + [last];
      RecordAllAppend(l, front, [last]);
      BatchHeld(l, front, id);
      var m := RecordAll(l, front);
      assert [last][1..] == [] && RecordAll(m, [last]) == Record(m, last);
      RecordHeld(m, last, id);
      CommitLast(front, last, id);
    }
  }

  lemma CommitLast(front: seq<Event>, last: Event, id: NavId)
    ensures CommitHeard(front + [last], id) <==>
            CommitHeard(front, id) || (last.NavigationCommitted? && last.id == id)
  {
    var events := front + [last];
    assert events[|front|] == last;
    if CommitHeard(front, id) {
      var i :| 0 <= i < |front| && front[i].NavigationCommitted? && front[i].id == id;
      assert events[i] == front[i];
    }
  }
}
