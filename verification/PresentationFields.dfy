/** The presentation's fields and queues spelled out: defaults, the reset, and what coalescing keeps and merges. */
module PresentationFields {
  import opened Common
  import opened Presentation

  /** A context never seen has nothing queued, enabled, pressed, emulated or installed, and its counters at zero. */
  lemma {:induction false} FreshContext(context: Ctx)
    ensures var p := Effective(Initial(), context);
            && p.pendingEffects == [] && p.extraHttpHeaders == [] && p.remoteHandles == []
            && p.newDocumentScripts == [] && p.runtimeBindings == []
            && !p.runtimeEnabled && !p.networkEnabled && !p.pageEnabled && !p.lifecycleEventsEnabled
            && !p.bypassCsp && !p.cacheDisabled && !p.logEnabled
            && p.lastMouseDown == None && p.lastMouseOverNodeId == None && p.lastKeyDownText == None
            && p.emulatedViewport == None && p.isolatedWorldName == None
            && p.emulatedMedia.mediaType == None && p.emulatedMedia.colorScheme == None
            && p.nextObjectId == 0 && p.nextNewDocumentScriptId == 0
  {
  }

  /** The reset clears four fields and keeps the others. */
  lemma ResetExact(p: Presentation)
    ensures var r := ResetInput(p);
            && r.lastMouseDown == None && r.lastMouseOverNodeId == None && r.lastKeyDownText == None
            && r.remoteHandles == []
            && r.(lastMouseDown := p.lastMouseDown, lastMouseOverNodeId := p.lastMouseOverNodeId,
                  lastKeyDownText := p.lastKeyDownText, remoteHandles := p.remoteHandles) == p
  {
  }

  /** When closing spares the others, in terms of the fields. */
  lemma CloseSparesFields(c: Cache, closed: Ctx, index: nat)
    ensures (forall other :: other != closed ==> Effective(Close(c, closed, index), other) == Effective(c, other)) <==>
            || index != 0 || c.active.None? || c.active == Some(closed)
            || (&& c.live.lastMouseDown == None && c.live.lastMouseOverNodeId == None
                && c.live.lastKeyDownText == None && c.live.remoteHandles == [])
  {
    CloseSpares(c, closed, index);
  }

  // ------------------------------------------------------------ queues

  lemma {:induction false} TaggedNothing(generation: Generation, queue: seq<Queued>, category: Category)
    ensures Flatten(queue, category) + Tagged(generation, []) == Flatten(queue, category)
  {
  }

  /** Whatever is queued, of whatever category, is at the end of its own context's log. */
  lemma {:induction false} NothingDropped(c: Cache, q: Queued, category: Category)
    ensures var context := q.generation.context;
            Flatten(Effective(Enqueue(c, q), context).pendingEffects, category) ==
            Flatten(Effective(c, context).pendingEffects, category) + Tagged(q.generation, q.effects.Of(category))
  {
    var context := q.generation.context;
    EnqueueLands(c, q, context);
    if q.effects.IsEmpty() {
      assert q.effects.Of(category) == [];
      TaggedNothing(q.generation, Effective(c, context).pendingEffects, category);
    } else {
      CoalesceFlattens(Effective(c, context).pendingEffects, q, category);
    }
  }

  /** Neighbouring items come from different generations. */
  ghost predicate Compact(queue: seq<Queued>) {
    forall i, j :: 0 <= i && j == i + 1 && j < |queue| ==> queue[i].generation != queue[j].generation
  }

  /** Effects of the last item's generation join it; others get an item of their own. */
  lemma CoalesceExact(queue: seq<Queued>, q: Queued)
    ensures Compact(queue) ==> Compact(Coalesce(queue, q))
    ensures |Coalesce(queue, q)| ==
            if queue != [] && queue[|queue| - 1].generation == q.generation then |queue| else |queue| + 1
  {
  }

  ghost predicate AllCompact(c: Cache) { forall context :: Compact(Effective(c, context).pendingEffects) }

  lemma {:induction false} StepCompact(c: Cache, p: Plain, step: Step)
    requires Refines(c, p) && AllCompact(c)
    ensures AllCompact(Apply(c, step))
  {
    forall context
      ensures Compact(Effective(Apply(c, step), context).pendingEffects)
    {
      assert Agree(context, Effective(c, context), Look(p, context));
      assert Compact(Effective(c, context).pendingEffects);
      match step
      case LoadContext(x) => LoadPreserves(c, x, context);
      case StoreActive => LoadPreserves(c, 0, context);
      case QueueEffects(q) =>
        EnqueueLands(c, q, context);
        CoalesceExact(Effective(c, context).pendingEffects, q);
      case ConfigureActive(_) =>
      case DrainEffects(x) => DrainEffective(c, x, context);
      case DiscardEffects =>
      case CloseContext(x, index) => CloseEffective(c, x, index, context);
      case DropContext(x, fallback) =>
        var f := Forget(c, x);
        assert Effective(f, context) == if context == x then Default() else Effective(c, context);
        if f.active.None? && fallback.Some? {
          LoadPreserves(f, fallback.value, context);
        }
    }
  }

  lemma {:induction false} RunCompactFrom(c: Cache, p: Plain, steps: seq<Step>)
    requires Refines(c, p) && AllCompact(c)
    ensures AllCompact(Run(c, steps))
    decreases |steps|
  {
    if steps != [] {
      StepCompact(c, p, steps[0]);
      StepRefines(c, p, steps[0]);
      RunCompactFrom(Apply(c, steps[0]), Reference(p, steps[0]), steps[1..]);
    }
  }

  /** In every run no context has two neighbouring items of one generation: coalescing never misses. */
  lemma {:induction false} RunCompact(steps: seq<Step>, context: Ctx)
    ensures Compact(Effective(Run(Initial(), steps), context).pendingEffects)
  {
    assert Refines(Initial(), Plain(None, map[]));
    RunCompactFrom(Initial(), Plain(None, map[]), steps);
  }
}
