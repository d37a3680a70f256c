/**
 Per-context protocol presentation. The server keeps the active context's
 presentation unpacked in its own fields and the others in a map: a write-back
 cache of one line, which must behave like a plain map from context to presentation.
 */
module Presentation {
  import opened Common

  type Ctx = nat

  datatype Category = Console | Dialogs | Bindings | Network | Exceptions

  datatype Effects = Effects(
    console: seq<string>, dialogs: seq<string>, bindings: seq<string>,
    network: seq<string>, exceptions: seq<string>)
  {
    predicate IsEmpty() {
      console == [] && dialogs == [] && bindings == [] && network == [] && exceptions == []
    }

    function Extend(other: Effects): Effects {
      Effects(console + other.console, dialogs + other.dialogs, bindings + other.bindings,
              network + other.network, exceptions + other.exceptions)
    }

    function Of(category: Category): seq<string> {
      match category
      case Console => console
      case Dialogs => dialogs
      case Bindings => bindings
      case Network => network
      case Exceptions => exceptions
    }
  }

  datatype Generation = Generation(context: Ctx, frame: nat, document: nat, runtime: nat, url: string)

  /** `PendingRuntimeEffects`. */
  datatype Queued = Queued(generation: Generation, effects: Effects)

  datatype MouseDown = MouseDown(nodeId: nat, button: nat)
  datatype Media = Media(mediaType: Option<string>, colorScheme: Option<string>)
  datatype RemoteHandle = RemoteHandle(objectId: string, objectGroup: Option<string>)
  datatype Script = Script(identifier: string, source: string)

  /** `ContextPresentation`. */
  datatype Presentation = Presentation(
    pendingEffects: seq<Queued>,
    runtimeEnabled: bool,
    networkEnabled: bool,
    pageEnabled: bool,
    lifecycleEventsEnabled: bool,
    bypassCsp: bool,
    extraHttpHeaders: seq<(string, string)>,
    cacheDisabled: bool,
    logEnabled: bool,
    lastMouseDown: Option<MouseDown>,
    lastMouseOverNodeId: Option<nat>,
    lastKeyDownText: Option<string>,
    nextObjectId: nat,
    remoteHandles: seq<RemoteHandle>,
    emulatedViewport: Option<(nat, nat)>,
    emulatedMedia: Media,
    nextNewDocumentScriptId: nat,
    newDocumentScripts: seq<Script>,
    runtimeBindings: seq<string>,
    isolatedWorldName: Option<string>)

  function Default(): Presentation {
    Presentation([], false, false, false, false, false, [], false, false, None, None, None, 0, [],
                 None, Media(None, None), 0, [], [], None)
  }

  // ------------------------------------------------------------- the cache

  datatype Cache = Cache(active: Option<Ctx>, live: Presentation, saved: map<Ctx, Presentation>)

  function Saved(saved: map<Ctx, Presentation>, context: Ctx): Presentation {
    if context in saved then saved[context] else Default()
  }

  /** The presentation a context has, wherever it is kept. */
  function Effective(c: Cache, context: Ctx): Presentation {
    if c.active == Some(context) then c.live else Saved(c.saved, context)
  }

  function Store(c: Cache): Cache {
    if c.active.None? then c else c.(saved := c.saved[c.active.value := c.live])
  }

  function Load(c: Cache, context: Ctx): Cache {
    var s := Store(c);
    var p := Saved(s.saved, context);
    Cache(Some(context), p, s.saved[context := p])
  }

  /** Append to the last queued item of the same generation, or queue a new item. */
  function Coalesce(queue: seq<Queued>, q: Queued): seq<Queued> {
    if queue != [] && queue[|queue| - 1].generation == q.generation then
      queue[|queue| - 1 := Queued(q.generation, queue[|queue| - 1].effects.Extend(q.effects))]
    else queue + [q]
  }

  function Push(p: Presentation, q: Queued): Presentation {
    p.(pendingEffects := Coalesce(p.pendingEffects, q))
  }

  function Enqueue(c: Cache, q: Queued): Cache {
    var context := q.generation.context;
    if q.effects.IsEmpty() then c
    else if c.active == Some(context) then c.(live := Push(c.live, q))
    else c.(saved := c.saved[context := Push(Saved(c.saved, context), q)])
  }

  /** The items a drain for `context` leaves in the queue. */
  function Retained(queue: seq<Queued>, context: Option<Ctx>): seq<Queued> {
    if queue == [] then []
    else (if context == Some(queue[0].generation.context) then [] else [queue[0]]) + Retained(queue[1..], context)
  }

  /** The items a drain for `context` delivers. */
  function Drained(queue: seq<Queued>, context: Option<Ctx>): seq<Queued> {
    if queue == [] then []
    else (if context == Some(queue[0].generation.context) then [queue[0]] else []) + Drained(queue[1..], context)
  }

  /** Draining loses nothing: every item is either delivered or retained. */
  lemma {:induction false} DrainConserves(queue: seq<Queued>, context: Option<Ctx>)
    ensures multiset(Drained(queue, context)) + multiset(Retained(queue, context)) == multiset(queue)
  {
    if queue != [] {
      DrainConserves(queue[1..], context);
      assert queue == [queue[0]] + queue[1..];
    }
  }

  function Drain(c: Cache, context: Option<Ctx>): Cache {
    c.(live := c.live.(pendingEffects := Retained(c.live.pendingEffects, context)))
  }

  function Quiet(p: Presentation): Presentation { p.(pendingEffects := []) }

  function Discard(c: Cache): Cache {
    Cache(c.active, Quiet(c.live), map k | k in c.saved :: Quiet(c.saved[k]))
  }

  /** Forget a context's presentation; the live fields keep their values. */
  function Forget(c: Cache, context: Ctx): Cache {
    Cache(if c.active == Some(context) then None else c.active, c.live, c.saved - {context})
  }

  /** `reset_input_for_navigation`. */
  function ResetInput(p: Presentation): Presentation {
    p.(lastMouseDown := None, lastMouseOverNodeId := None, lastKeyDownText := None, remoteHandles := [])
  }

  predicate InputClear(p: Presentation) {
    p.lastMouseDown.None? && p.lastMouseOverNodeId.None? && p.lastKeyDownText.None? && p.remoteHandles == []
  }

  /** `target_close` of the target at position `index`: closing the first also resets the live input state. */
  function Close(c: Cache, context: Ctx, index: nat): Cache {
    var f := Forget(c, context);
    if index == 0 then f.(live := ResetInput(f.live)) else f
  }

  /** `remove_failed_target`: with nothing active left, the dispatch context `fallback` is loaded. */
  function Drop(c: Cache, context: Ctx, fallback: Option<Ctx>): Cache {
    var f := Forget(c, context);
    if f.active.None? && fallback.Some? then Load(f, fallback.value) else f
  }

  /** A command rewriting any presentation field except the effects queue. */
  function Configure(c: Cache, settings: Presentation): Cache {
    c.(live := settings.(pendingEffects := c.live.pendingEffects))
  }

  /** Swapping contexts changes no context's effective presentation. */
  lemma LoadPreserves(c: Cache, context: Ctx, other: Ctx)
    ensures Effective(Load(c, context), other) == Effective(c, other)
    ensures Effective(Store(c), other) == Effective(c, other)
    ensures Load(c, context).active == Some(context) && Load(c, context).live == Effective(c, context)
  {
  }

  /** Queued effects land only in their own context, active or not. */
  lemma EnqueueLands(c: Cache, q: Queued, other: Ctx)
    ensures Effective(Enqueue(c, q), other) ==
            if other == q.generation.context && !q.effects.IsEmpty() then Push(Effective(c, other), q)
            else Effective(c, other)
  {
  }

  // ------------------------------------------ the plain map and its append log

  /** One context's presentation whose effects queue is the raw, uncoalesced log. */
  datatype Plain = Plain(active: Option<Ctx>, contents: map<Ctx, Presentation>)

  function Look(p: Plain, context: Ctx): Presentation { Saved(p.contents, context) }

  function Put(p: Plain, context: Ctx, value: Presentation): Plain {
    p.(contents := p.contents[context := value])
  }

  datatype Step =
    | LoadContext(context: Ctx)
    | StoreActive
    | QueueEffects(queued: Queued)
    | ConfigureActive(settings: Presentation)
    | DrainEffects(drained: Option<Ctx>)
    | DiscardEffects
    | CloseContext(closed: Ctx, index: nat)
    | DropContext(dropped: Ctx, fallback: Option<Ctx>)

  function Apply(c: Cache, step: Step): Cache {
    match step
    case LoadContext(context) => Load(c, context)
    case StoreActive => Store(c)
    case QueueEffects(q) => Enqueue(c, q)
    case ConfigureActive(settings) => Configure(c, settings)
    case DrainEffects(context) => Drain(c, context)
    case DiscardEffects => Discard(c)
    case CloseContext(context, index) => Close(c, context, index)
    case DropContext(context, fallback) => Drop(c, context, fallback)
  }

  // ------------------------------------------------------------- isolation

  /** Whether a step is about a context. */
  predicate Concerns(c: Cache, step: Step, context: Ctx) {
    match step
    case LoadContext(_) => false
    case StoreActive => false
    case QueueEffects(q) => q.generation.context == context
    case ConfigureActive(_) => c.active == Some(context)
    case DrainEffects(drained) => c.active == Some(context) && drained == Some(context)
    case DiscardEffects => true
    case CloseContext(closed, _) => closed == context
    case DropContext(dropped, _) => dropped == context
  }

  /** Closing the first target while another context is active and holds input state. */
  predicate Spills(c: Cache, step: Step, context: Ctx) {
    step.CloseContext? && step.index == 0 && c.active == Some(context) && !InputClear(c.live)
  }

  /** A step changes the presentation of a context it is not about exactly when it spills into it. */
  lemma Isolation(c: Cache, step: Step, context: Ctx)
    requires !Concerns(c, step, context)
    requires c.active == Some(context) ==> Own(c.live.pendingEffects, context)
    ensures Effective(Apply(c, step), context) == Effective(c, context) <==> !Spills(c, step, context)
  {
    match step
    case DrainEffects(drained) =>
      if c.active == Some(context) {
        RetainedOwn(c.live.pendingEffects, context, drained);
      }
    case QueueEffects(q) => EnqueueLands(c, q, context);
    case _ =>
  }

  /** When closing a target leaves every other context alone. */
  lemma CloseSpares(c: Cache, closed: Ctx, index: nat)
    ensures (forall other :: other != closed ==> Effective(Close(c, closed, index), other) == Effective(c, other)) <==>
            index != 0 || c.active.None? || c.active == Some(closed) || InputClear(c.live)
  {
    if c.active.Some? && c.active != Some(closed) {
      var other := c.active.value;
      assert Effective(Close(c, closed, index), other) == if index == 0 then ResetInput(c.live) else c.live;
      assert ResetInput(c.live) == c.live <==> InputClear(c.live);
    }
  }

  function Initial(): Cache { Cache(None, Default(), map[]) }

  /** Closing the first target, 1, on behalf of target 2 wipes the key that 2 has pressed, for good. */
  lemma CloseSpills()
    ensures var typing := Run(Initial(), [LoadContext(2), ConfigureActive(Default().(lastKeyDownText := Some("a")))]);
            && Effective(typing, 2).lastKeyDownText == Some("a")
            && Effective(Run(typing, [CloseContext(1, 0), StoreActive]), 2).lastKeyDownText == None
  {
    var typed := Default().(lastKeyDownText := Some("a"));
    var open := [LoadContext(2), ConfigureActive(typed)];
    var c := Apply(Apply(Initial(), open[0]), open[1]);
    RunTwo(Initial(), open[0], open[1]);
    assert c.active == Some(2) && c.live == typed;
    var close := [CloseContext(1, 0), StoreActive];
    RunTwo(c, close[0], close[1]);
  }

  /** The same step on the plain map: no swapping, no coalescing. */
  function Reference(p: Plain, step: Step): Plain {
    match step
    case LoadContext(context) => p.(active := Some(context))
    case StoreActive => p
    case QueueEffects(q) =>
      if q.effects.IsEmpty() then p
      else
        var was := Look(p, q.generation.context);
        Put(p, q.generation.context, was.(pendingEffects := was.pendingEffects + [q]))
    case ConfigureActive(settings) =>
      if p.active.None? then p
      else Put(p, p.active.value, settings.(pendingEffects := Look(p, p.active.value).pendingEffects))
    case DrainEffects(context) =>
      if p.active.None? || p.active != context then p
      else Put(p, p.active.value, Quiet(Look(p, p.active.value)))
    case DiscardEffects => p.(contents := map k | k in p.contents :: Quiet(p.contents[k]))
    case CloseContext(context, index) =>
      var f := Without(p, context);
      if index == 0 && f.active.Some? then Put(f, f.active.value, ResetInput(Look(f, f.active.value))) else f
    case DropContext(context, fallback) =>
      var f := Without(p, context);
      if f.active.None? && fallback.Some? then f.(active := fallback) else f
  }

  function Without(p: Plain, context: Ctx): Plain {
    Plain(if p.active == Some(context) then None else p.active, p.contents - {context})
  }

  /** What a drain delivers from the plain map: the active context's log, to that context only. */
  function Delivered(p: Plain, context: Option<Ctx>): seq<Queued> {
    if context.Some? && p.active == context then Look(p, context.value).pendingEffects else []
  }

  function Tagged(generation: Generation, items: seq<string>): seq<(Generation, string)> {
    seq(|items|, i requires 0 <= i < |items| => (generation, items[i]))
  }

  /** All effects of one category, in order, each tagged with the generation that produced it. */
  function Flatten(queue: seq<Queued>, category: Category): seq<(Generation, string)> {
    if queue == [] then []
    else
      var last := queue[|queue| - 1];
      Flatten(queue[..|queue| - 1], category) + Tagged(last.generation, last.effects.Of(category))
  }

  lemma ExtendOf(a: Effects, b: Effects, category: Category)
    ensures a.Extend(b).Of(category) == a.Of(category) + b.Of(category)
  {
  }

  lemma TaggedAppend(generation: Generation, a: seq<string>, b: seq<string>)
    ensures Tagged(generation, a + b) == Tagged(generation, a) + Tagged(generation, b)
  {
  }

  lemma {:induction false} FlattenLast(queue: seq<Queued>, q: Queued, category: Category)
    ensures Flatten(queue + [q], category) == Flatten(queue, category) + Tagged(q.generation, q.effects.Of(category))
  {
    assert (queue + [q])[..|queue|] == queue;
  }

  lemma {:induction false} CoalesceFlattens(queue: seq<Queued>, q: Queued, category: Category)
    ensures Flatten(Coalesce(queue, q), category)
         == Flatten(queue, category) + Tagged(q.generation, q.effects.Of(category))
  {
    if queue != [] && queue[|queue| - 1].generation == q.generation {
      var front, last := queue[..|queue| - 1], queue[|queue| - 1];
      var merged := Queued(q.generation, last.effects.Extend(q.effects));
      assert queue == front + [last] && Coalesce(queue, q) == front + [merged];
      FlattenLast(front, last, category);
      FlattenLast(front, merged, category);
      ExtendOf(last.effects, q.effects, category);
      TaggedAppend(q.generation, last.effects.Of(category), q.effects.Of(category));
      Assoc(Flatten(front, category), Tagged(q.generation, last.effects.Of(category)),
            Tagged(q.generation, q.effects.Of(category)));
    } else {
      FlattenLast(queue, q, category);
    }
  }

  ghost predicate Own(queue: seq<Queued>, context: Ctx) {
    forall i :: 0 <= i < |queue| ==> queue[i].generation.context == context
  }

  /** No queued item is without effects. */
  ghost predicate Filled(queue: seq<Queued>) {
    forall i :: 0 <= i < |queue| ==> !queue[i].effects.IsEmpty()
  }

  ghost predicate FlattenAlike(a: seq<Queued>, b: seq<Queued>) {
    forall category :: Flatten(a, category) == Flatten(b, category)
  }

  /** Equal settings, queues that flatten alike, and nothing empty or queued for another context. */
  ghost predicate Agree(context: Ctx, a: Presentation, b: Presentation) {
    && Quiet(a) == Quiet(b)
    && Own(a.pendingEffects, context) && Filled(a.pendingEffects)
    && FlattenAlike(a.pendingEffects, b.pendingEffects)
  }

  ghost predicate Refines(c: Cache, p: Plain) {
    && c.active == p.active && Filled(c.live.pendingEffects)
    && forall context :: Agree(context, Effective(c, context), Look(p, context))
  }

  lemma CoalesceFilled(queue: seq<Queued>, q: Queued)
    requires Filled(queue) && !q.effects.IsEmpty()
    ensures Filled(Coalesce(queue, q))
  {
  }

  lemma {:induction false} RetainedFilled(queue: seq<Queued>, context: Option<Ctx>)
    requires Filled(queue)
    ensures Filled(Retained(queue, context))
  {
    if queue != [] {
      RetainedFilled(queue[1..], context);
    }
  }

  lemma PushFlattens(a: seq<Queued>, b: seq<Queued>, q: Queued)
    requires FlattenAlike(a, b)
    ensures FlattenAlike(Coalesce(a, q), b + [q])
  {
    forall category
      ensures Flatten(Coalesce(a, q), category) == Flatten(b + [q], category)
    {
      CoalesceFlattens(a, q, category);
      FlattenLast(b, q, category);
    }
  }

  lemma CoalesceOwn(queue: seq<Queued>, q: Queued)
    requires Own(queue, q.generation.context)
    ensures Own(Coalesce(queue, q), q.generation.context)
  {
  }

  lemma PushAgrees(context: Ctx, a: Presentation, b: Presentation, q: Queued)
    requires Agree(context, a, b) && q.generation.context == context && !q.effects.IsEmpty()
    ensures Agree(context, Push(a, q), b.(pendingEffects := b.pendingEffects + [q]))
  {
    CoalesceFilled(a.pendingEffects, q);
    CoalesceOwn(a.pendingEffects, q);
    PushFlattens(a.pendingEffects, b.pendingEffects, q);
    assert Quiet(Push(a, q)) == Quiet(a) && Quiet(b.(pendingEffects := b.pendingEffects + [q])) == Quiet(b);
  }

  lemma {:induction false} RetainedOwn(queue: seq<Queued>, owner: Ctx, context: Option<Ctx>)
    requires Own(queue, owner)
    ensures Retained(queue, context) == if context == Some(owner) then [] else queue
  {
    if queue != [] {
      RetainedOwn(queue[1..], owner, context);
      assert queue == [queue[0]] + queue[1..];
    }
  }

  lemma QueueAgrees(c: Cache, p: Plain, q: Queued, context: Ctx)
    requires Refines(c, p)
    ensures Agree(context, Effective(Enqueue(c, q), context), Look(Reference(p, QueueEffects(q)), context))
  {
    assert Agree(context, Effective(c, context), Look(p, context));
    EnqueueLands(c, q, context);
    if q.generation.context == context && !q.effects.IsEmpty() {
      PushAgrees(context, Effective(c, context), Look(p, context), q);
    }
  }

  lemma DrainEffective(c: Cache, drained: Option<Ctx>, context: Ctx)
    requires c.active == Some(context) ==> Own(c.live.pendingEffects, context)
    ensures Effective(Drain(c, drained), context) ==
            if c.active == Some(context) && drained == Some(context) then Quiet(Effective(c, context))
            else Effective(c, context)
  {
    if c.active == Some(context) {
      RetainedOwn(c.live.pendingEffects, context, drained);
    }
  }

  lemma DrainReference(p: Plain, drained: Option<Ctx>, context: Ctx)
    ensures Look(Reference(p, DrainEffects(drained)), context) ==
            if p.active == Some(context) && drained == Some(context) then Quiet(Look(p, context)) else Look(p, context)
  {
  }

  lemma QuietAgrees(context: Ctx, a: Presentation, b: Presentation)
    requires Agree(context, a, b)
    ensures Agree(context, Quiet(a), Quiet(b))
  {
  }

  lemma DrainAgrees(c: Cache, p: Plain, drained: Option<Ctx>, context: Ctx)
    requires Refines(c, p)
    ensures Agree(context, Effective(Drain(c, drained), context), Look(Reference(p, DrainEffects(drained)), context))
  {
    var a, b := Effective(c, context), Look(p, context);
    assert Agree(context, a, b);
    QuietAgrees(context, a, b);
    DrainEffective(c, drained, context);
    DrainReference(p, drained, context);
  }

  lemma ResetAgrees(context: Ctx, a: Presentation, b: Presentation)
    requires Agree(context, a, b)
    ensures Agree(context, ResetInput(a), ResetInput(b))
  {
    assert Quiet(ResetInput(a)) == ResetInput(Quiet(a)) && Quiet(ResetInput(b)) == ResetInput(Quiet(b));
  }

  lemma CloseAgrees(c: Cache, p: Plain, closed: Ctx, index: nat, context: Ctx)
    requires Refines(c, p)
    ensures Agree(context, Effective(Close(c, closed, index), context),
                  Look(Reference(p, CloseContext(closed, index)), context))
  {
    var a, b := Effective(c, context), Look(p, context);
    assert Agree(context, a, b);
    ResetAgrees(context, a, b);
    CloseEffective(c, closed, index, context);
    CloseReference(p, closed, index, context);
  }

  lemma CloseEffective(c: Cache, closed: Ctx, index: nat, context: Ctx)
    ensures Effective(Close(c, closed, index), context) ==
            if context == closed then Default()
            else if index == 0 && c.active == Some(context) then ResetInput(Effective(c, context))
            else Effective(c, context)
  {
  }

  lemma CloseReference(p: Plain, closed: Ctx, index: nat, context: Ctx)
    ensures Look(Reference(p, CloseContext(closed, index)), context) ==
            if context == closed then Default()
            else if index == 0 && p.active == Some(context) then ResetInput(Look(p, context))
            else Look(p, context)
  {
  }

  lemma DropAgrees(c: Cache, p: Plain, dropped: Ctx, fallback: Option<Ctx>, context: Ctx)
    requires Refines(c, p)
    ensures Agree(context, Effective(Drop(c, dropped, fallback), context),
                  Look(Reference(p, DropContext(dropped, fallback)), context))
  {
    assert Agree(context, Effective(c, context), Look(p, context));
    var f := Forget(c, dropped);
    assert Effective(f, context) == if context == dropped then Default() else Effective(c, context);
    if f.active.None? && fallback.Some? {
      LoadPreserves(f, fallback.value, context);
    }
  }

  /** No step leaves an empty item in the live queue. */
  lemma StepFilled(c: Cache, p: Plain, step: Step)
    requires Refines(c, p)
    ensures Filled(Apply(c, step).live.pendingEffects)
  {
    match step
    case LoadContext(x) => assert Agree(x, Effective(c, x), Look(p, x));
    case QueueEffects(q) =>
      if !q.effects.IsEmpty() {
        CoalesceFilled(c.live.pendingEffects, q);
      }
    case DrainEffects(x) => RetainedFilled(c.live.pendingEffects, x);
    case DropContext(_, fallback) =>
      if fallback.Some? {
        assert Agree(fallback.value, Effective(c, fallback.value), Look(p, fallback.value));
      }
    case _ =>
  }

  lemma StepRefines(c: Cache, p: Plain, step: Step)
    requires Refines(c, p)
    ensures Refines(Apply(c, step), Reference(p, step))
  {
    var c', p' := Apply(c, step), Reference(p, step);
    StepFilled(c, p, step);
    forall context
      ensures Agree(context, Effective(c', context), Look(p', context))
    {
      assert Agree(context, Effective(c, context), Look(p, context));
      match step
      case LoadContext(x) => LoadPreserves(c, x, context);
      case StoreActive => LoadPreserves(c, 0, context);
      case QueueEffects(q) => QueueAgrees(c, p, q, context);
      case ConfigureActive(_) =>
      case DrainEffects(x) => DrainAgrees(c, p, x, context);
      case DiscardEffects =>
      case CloseContext(x, index) => CloseAgrees(c, p, x, index, context);
      case DropContext(x, fallback) => DropAgrees(c, p, x, fallback, context);
    }
  }

  // ---- what a drain delivers

  lemma {:induction false} DrainedOwn(queue: seq<Queued>, owner: Ctx, context: Option<Ctx>)
    requires Own(queue, owner)
    ensures Drained(queue, context) == if context == Some(owner) then queue else []
  {
    if queue != [] {
      DrainedOwn(queue[1..], owner, context);
      assert queue == [queue[0]] + queue[1..];
    }
  }

  /** Some item of the context is still in the live queue. */
  predicate Lingers(queue: seq<Queued>, context: Option<Ctx>) {
    exists i :: 0 <= i < |queue| && Some(queue[i].generation.context) == context
  }

  lemma {:induction false} DrainedSome(queue: seq<Queued>, context: Option<Ctx>)
    ensures Drained(queue, context) != [] <==> Lingers(queue, context)
    ensures Filled(queue) ==> Filled(Drained(queue, context))
  {
    if queue != [] {
      DrainedSome(queue[1..], context);
      assert Lingers(queue, context) <==>
             Some(queue[0].generation.context) == context || Lingers(queue[1..], context) by {
        if Lingers(queue[1..], context) {
          var i :| 0 <= i < |queue[1..]| && Some(queue[1..][i].generation.context) == context;
          assert queue[i + 1] == queue[1..][i];
        }
        assert forall i :: 0 < i < |queue| ==> queue[i] == queue[1..][i - 1];
      }
      assert Filled(queue) ==> Filled(queue[1..]) && !queue[0].effects.IsEmpty();
    }
  }

  lemma FlattenSome(queue: seq<Queued>)
    requires Filled(queue)
    ensures FlattenAlike(queue, []) <==> queue == []
  {
    if queue != [] {
      var last := queue[|queue| - 1];
      var category :=
        if last.effects.console != [] then Console else if last.effects.dialogs != [] then Dialogs
        else if last.effects.bindings != [] then Bindings else if last.effects.network != [] then Network
        else Exceptions;
      assert last.effects.Of(category) != [];
      assert |Tagged(last.generation, last.effects.Of(category))| > 0;
      assert Flatten(queue, category) != [] && Flatten([], category) == [];
    }
  }

  /**
   A drain delivers what the plain map holds for the context exactly when some context is
   active or no item of that context lingers in the live queue of a closed one.
   */
  lemma {:induction false} DrainDelivers(c: Cache, p: Plain, context: Option<Ctx>)
    requires Refines(c, p)
    ensures FlattenAlike(Drained(c.live.pendingEffects, context), Delivered(p, context)) <==>
            c.active.Some? || !Lingers(c.live.pendingEffects, context)
  {
    var queue := c.live.pendingEffects;
    if c.active.Some? {
      var owner := c.active.value;
      assert Agree(owner, Effective(c, owner), Look(p, owner));
      DrainedOwn(queue, owner, context);
    } else {
      DrainedSome(queue, context);
      FlattenSome(Drained(queue, context));
    }
  }

  function Run(c: Cache, steps: seq<Step>): Cache
    decreases |steps|
  {
    if steps == [] then c else Run(Apply(c, steps[0]), steps[1..])
  }

  function ReferenceRun(p: Plain, steps: seq<Step>): Plain
    decreases |steps|
  {
    if steps == [] then p else ReferenceRun(Reference(p, steps[0]), steps[1..])
  }

  lemma {:induction false} RunTwo(c: Cache, first: Step, second: Step)
    ensures Run(c, [first, second]) == Apply(Apply(c, first), second)
  {
    assert [first, second][1..] == [second] && [second][1..] == [];
    assert Run(Apply(c, first), [second]) == Run(Apply(Apply(c, first), second), []);
  }

  lemma {:induction false} ReferenceRunTwo(p: Plain, first: Step, second: Step)
    ensures ReferenceRun(p, [first, second]) == Reference(Reference(p, first), second)
  {
    assert [first, second][1..] == [second] && [second][1..] == [];
    assert ReferenceRun(Reference(p, first), [second]) == ReferenceRun(Reference(Reference(p, first), second), []);
  }

  /** Over every run the cache with its coalesced queues agrees with the plain map and its logs. */
  lemma {:induction false} RunRefines(c: Cache, p: Plain, steps: seq<Step>)
    requires Refines(c, p)
    ensures Refines(Run(c, steps), ReferenceRun(p, steps))
    decreases |steps|
  {
    if steps != [] {
      StepRefines(c, p, steps[0]);
      RunRefines(Apply(c, steps[0]), Reference(p, steps[0]), steps[1..]);
    }
  }

  /** The loop of a drain: one pass over the queue, taking or keeping each item. */
  method SplitQueue(pending: seq<Queued>, context: Option<Ctx>) returns (drained: seq<Queued>, retained: seq<Queued>)
    ensures drained == Drained(pending, context) && retained == Retained(pending, context)
  {
    drained, retained := [], [];
    var queue := pending;
    while queue != []
      invariant retained + Retained(queue, context) == Retained(pending, context)
      invariant drained + Drained(queue, context) == Drained(pending, context)
      decreases |queue|
    {
      var first := queue[0];
      SplitStep(queue, context);
      queue := queue[1..];
      if context != Some(first.generation.context) {
        Assoc(retained, [first], Retained(queue, context));
        retained := retained + [first];
      } else {
        Assoc(drained, [first], Drained(queue, context));
        drained := drained + [first];
      }
    }
  }

  lemma {:induction false} SplitStep(queue: seq<Queued>, context: Option<Ctx>)
    requires queue != []
    ensures var kept, taken := Retained(queue[1..], context), Drained(queue[1..], context);
            if context != Some(queue[0].generation.context) then
              Retained(queue, context) == [queue[0]] + kept && Drained(queue, context) == taken
            else
              Retained(queue, context) == kept && Drained(queue, context) == [queue[0]] + taken
  {
  }

  /**
   From the server's initial state, after any run, every context has what the plain map has
   for it, and a drain delivers what the plain map holds unless it drains a closed context
   whose items linger.
   */
  lemma {:induction false} NoLeak(steps: seq<Step>, context: Ctx)
    ensures var c, p := Run(Initial(), steps), ReferenceRun(Plain(None, map[]), steps);
            && Agree(context, Effective(c, context), Look(p, context))
            && (FlattenAlike(Drained(c.live.pendingEffects, Some(context)), Delivered(p, Some(context))) <==>
                c.active.Some? || !Lingers(c.live.pendingEffects, Some(context)))
  {
    var c, p := Initial(), Plain(None, map[]);
    assert Refines(c, p);
    RunRefines(c, p, steps);
    DrainDelivers(Run(c, steps), ReferenceRun(p, steps), Some(context));
  }

  /** In every reachable state a step leaves the contexts it is not about alone, but for that one spill. */
  lemma {:induction false} RunIsolation(steps: seq<Step>, step: Step, context: Ctx)
    requires !Concerns(Run(Initial(), steps), step, context)
    ensures var c := Run(Initial(), steps);
            Effective(Apply(c, step), context) == Effective(c, context) <==> !Spills(c, step, context)
  {
    NoLeak(steps, context);
    Isolation(Run(Initial(), steps), step, context);
  }

  /** Effects queued for a context that is then closed are still delivered to it, though the plain map has none. */
  lemma ClosedDelivers(q: Queued, index: nat)
    requires !q.effects.IsEmpty()
    ensures var x := q.generation.context;
            var steps := [LoadContext(x), QueueEffects(q), CloseContext(x, index)];
            && Drained(Run(Initial(), steps).live.pendingEffects, Some(x)) == [q]
            && Delivered(ReferenceRun(Plain(None, map[]), steps), Some(x)) == []
  {
    var x := q.generation.context;
    var steps := [LoadContext(x), QueueEffects(q), CloseContext(x, index)];
    var c := Apply(Initial(), steps[0]);
    var d := Apply(c, steps[1]);
    var p := Reference(Plain(None, map[]), steps[0]);
    assert steps[1..] == [steps[1], steps[2]];
    RunTwo(c, steps[1], steps[2]);
    ReferenceRunTwo(p, steps[1], steps[2]);
    assert d.live.pendingEffects == [q] && [q][1..] == [];
  }

  // --------------------------------------------------- the server's own fields

  class PresentationState {
    var activeContext: Option<Ctx>
    var contextPresentations: map<Ctx, Presentation>
    var pendingEffects: seq<Queued>
    var runtimeEnabled: bool
    var networkEnabled: bool
    var pageEnabled: bool
    var lifecycleEventsEnabled: bool
    var bypassCsp: bool
    var extraHttpHeaders: seq<(string, string)>
    var cacheDisabled: bool
    var logEnabled: bool
    var lastMouseDown: Option<MouseDown>
    var lastMouseOverNodeId: Option<nat>
    var lastKeyDownText: Option<string>
    var nextObjectId: nat
    var remoteHandles: seq<RemoteHandle>
    var emulatedViewport: Option<(nat, nat)>
    var emulatedMedia: Media
    var nextNewDocumentScriptId: nat
    var newDocumentScripts: seq<Script>
    var runtimeBindings: seq<string>
    var isolatedWorldName: Option<string>

    ghost function Live(): Presentation
      reads this
    {
      Presentation(pendingEffects, runtimeEnabled, networkEnabled, pageEnabled, lifecycleEventsEnabled,
                   bypassCsp, extraHttpHeaders, cacheDisabled, logEnabled, lastMouseDown, lastMouseOverNodeId,
                   lastKeyDownText, nextObjectId, remoteHandles, emulatedViewport, emulatedMedia,
                   nextNewDocumentScriptId, newDocumentScripts, runtimeBindings, isolatedWorldName)
    }

    ghost function View(): Cache
      reads this
    {
      Cache(activeContext, Live(), contextPresentations)
    }

    method StoreActivePresentation()
      modifies this`contextPresentations
      ensures View() == Store(old(View()))
    {
      if activeContext.None? {
        return;
      }
      contextPresentations := contextPresentations[activeContext.value := Presentation(
        pendingEffects, runtimeEnabled, networkEnabled, pageEnabled, lifecycleEventsEnabled,
        bypassCsp, extraHttpHeaders, cacheDisabled, logEnabled, lastMouseDown, lastMouseOverNodeId,
        lastKeyDownText, nextObjectId, remoteHandles, emulatedViewport, emulatedMedia,
        nextNewDocumentScriptId, newDocumentScripts, runtimeBindings, isolatedWorldName)];
    }

    method LoadPresentation(context: Ctx)
      modifies this
      ensures View() == Load(old(View()), context)
    {
      StoreActivePresentation();
      ghost var stored := contextPresentations;
      if context !in contextPresentations {
        contextPresentations := contextPresentations[context := Default()];
      }
      var p := contextPresentations[context];
      assert contextPresentations == stored[context := Saved(stored, context)];
      Unpack(p);
      activeContext := Some(context);
    }

    /** Copy the first half of a stored presentation into the live fields. */
    method UnpackDomains(p: Presentation)
      modifies this`pendingEffects, this`runtimeEnabled, this`networkEnabled, this`pageEnabled,
               this`lifecycleEventsEnabled, this`bypassCsp, this`extraHttpHeaders, this`cacheDisabled,
               this`logEnabled, this`lastMouseDown
      ensures pendingEffects == p.pendingEffects && runtimeEnabled == p.runtimeEnabled
              && networkEnabled == p.networkEnabled && pageEnabled == p.pageEnabled
              && lifecycleEventsEnabled == p.lifecycleEventsEnabled && bypassCsp == p.bypassCsp
              && extraHttpHeaders == p.extraHttpHeaders && cacheDisabled == p.cacheDisabled
              && logEnabled == p.logEnabled && lastMouseDown == p.lastMouseDown
    {
      pendingEffects := p.pendingEffects;
      runtimeEnabled := p.runtimeEnabled;
      networkEnabled := p.networkEnabled;
      pageEnabled := p.pageEnabled;
      lifecycleEventsEnabled := p.lifecycleEventsEnabled;
      bypassCsp := p.bypassCsp;
      extraHttpHeaders := p.extraHttpHeaders;
      cacheDisabled := p.cacheDisabled;
      logEnabled := p.logEnabled;
      lastMouseDown := p.lastMouseDown;
    }

    /** Copy the second half. */
    method UnpackPage(p: Presentation)
      modifies this`lastMouseOverNodeId, this`lastKeyDownText, this`nextObjectId, this`remoteHandles,
               this`emulatedViewport, this`emulatedMedia, this`nextNewDocumentScriptId, this`newDocumentScripts,
               this`runtimeBindings, this`isolatedWorldName
      ensures lastMouseOverNodeId == p.lastMouseOverNodeId && lastKeyDownText == p.lastKeyDownText
              && nextObjectId == p.nextObjectId && remoteHandles == p.remoteHandles
              && emulatedViewport == p.emulatedViewport && emulatedMedia == p.emulatedMedia
              && nextNewDocumentScriptId == p.nextNewDocumentScriptId && newDocumentScripts == p.newDocumentScripts
              && runtimeBindings == p.runtimeBindings && isolatedWorldName == p.isolatedWorldName
    {
      lastMouseOverNodeId := p.lastMouseOverNodeId;
      lastKeyDownText := p.lastKeyDownText;
      nextObjectId := p.nextObjectId;
      remoteHandles := p.remoteHandles;
      emulatedViewport := p.emulatedViewport;
      emulatedMedia := p.emulatedMedia;
      nextNewDocumentScriptId := p.nextNewDocumentScriptId;
      newDocumentScripts := p.newDocumentScripts;
      runtimeBindings := p.runtimeBindings;
      isolatedWorldName := p.isolatedWorldName;
    }

    method Unpack(p: Presentation)
      modifies this`pendingEffects, this`runtimeEnabled, this`networkEnabled, this`pageEnabled,
               this`lifecycleEventsEnabled, this`bypassCsp, this`extraHttpHeaders, this`cacheDisabled,
               this`logEnabled, this`lastMouseDown, this`lastMouseOverNodeId, this`lastKeyDownText,
               this`nextObjectId, this`remoteHandles, this`emulatedViewport, this`emulatedMedia,
               this`nextNewDocumentScriptId, this`newDocumentScripts, this`runtimeBindings, this`isolatedWorldName
      ensures Live() == p
    {
      UnpackDomains(p);
      UnpackPage(p);
    }

    method QueueRuntimeEffectsForContext(q: Queued)
      modifies this`pendingEffects, this`contextPresentations
      ensures View() == Enqueue(old(View()), q)
    {
      if q.effects.IsEmpty() {
        return;
      }
      var context := q.generation.context;
      if activeContext == Some(context) {
        var n := |pendingEffects|;
        if n > 0 && pendingEffects[n - 1].generation == q.generation {
          var merged := pendingEffects[n - 1].effects.Extend(q.effects);
          pendingEffects := pendingEffects[n - 1 := Queued(q.generation, merged)];
        } else {
          pendingEffects := pendingEffects + [q];
        }
        return;
      }
      var p := if context in contextPresentations then contextPresentations[context] else Default();
      var queue := p.pendingEffects;
      var m := |queue|;
      if m > 0 && queue[m - 1].generation == q.generation {
        queue := queue[m - 1 := Queued(q.generation, queue[m - 1].effects.Extend(q.effects))];
      } else {
        queue := queue + [q];
      }
      contextPresentations := contextPresentations[context := p.(pendingEffects := queue)];
    }

    /** The queue side of draining notifications for one context; returns the drained items in order. */
    method DrainPendingEffects(context: Option<Ctx>) returns (drained: seq<Queued>)
      modifies this`pendingEffects
      ensures pendingEffects == Retained(old(pendingEffects), context)
      ensures View() == Drain(old(View()), context)
      ensures drained == Drained(old(pendingEffects), context)
    {
      var retained;
      drained, retained := SplitQueue(pendingEffects, context);
      pendingEffects := retained;
    }

    method DiscardPendingRuntimeEffects()
      modifies this`pendingEffects, this`contextPresentations
      ensures View() == Discard(old(View()))
    {
      pendingEffects := [];
      contextPresentations := map k | k in contextPresentations :: contextPresentations[k].(pendingEffects := []);
    }

    method ResetInputForNavigation()
      modifies this`lastMouseDown, this`lastMouseOverNodeId, this`lastKeyDownText, this`remoteHandles
      ensures Live() == ResetInput(old(Live()))
    {
      lastMouseDown := None;
      lastMouseOverNodeId := None;
      lastKeyDownText := None;
      remoteHandles := [];
    }

    /** `target_close` once the engine has closed the context of the target at position `index`. */
    method CloseTarget(context: Ctx, index: nat)
      modifies this`activeContext, this`contextPresentations,
               this`lastMouseDown, this`lastMouseOverNodeId, this`lastKeyDownText, this`remoteHandles
      ensures View() == Close(old(View()), context, index)
    {
      contextPresentations := contextPresentations - {context};
      if activeContext == Some(context) {
        activeContext := None;
      }
      if index == 0 {
        ResetInputForNavigation();
      }
    }

    /** The presentation side of `remove_failed_target`. */
    method RemoveFailedTarget(context: Ctx, dispatchContext: Option<Ctx>)
      modifies this
      ensures View() == Drop(old(View()), context, dispatchContext)
    {
      contextPresentations := contextPresentations - {context};
      if activeContext == Some(context) {
        activeContext := None;
      }
      if activeContext.None? && dispatchContext.Some? {
        LoadPresentation(dispatchContext.value);
      }
    }
  }
}
