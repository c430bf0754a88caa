/** Resolution with concurrent waves, as a shared-state process: `_exec_depends` tasks interleaved by `gather`. */
module Scheduler {
  import opened Plans
  import opened Hosts
  import opened PlanTrees
  import opened Waves

  /** One `_exec_depends` call. */
  datatype Task =
    | Start(slot: Slot)                               // about to consult the cache
    | Args(slot: Slot, key: Key, body: Body)          // missed: resolving its own parameters
    | Calling(slot: Slot, key: Key, kwargs: Kwargs)   // awaiting the callable
    | Finished(value: Value)
    | Failed(slot: Slot, key: Key, body: Body)        // has raised; tasks gathered below it may still be running

  /** One `_resolve_slots` call. */
  datatype Body =
    | Walk(plan: Plan, i: nat, kw: Kwargs)            // slot `i` is next
    | Single(plan: Plan, i: nat, kw: Kwargs, task: Task)
    | Gather(plan: Plan, i: nat, kw: Kwargs, w: nat, tasks: seq<Task>)
    | Bound(plan: Plan, kw: Kwargs)
    | Rejected(plan: Plan)                            // a parameter raised

  /** What every task of one request shares. `started` records each cacheable computation begun. */
  datatype Shared = Shared(cache: map<Key, Value>, scopes: seq<string>, started: seq<Key>)

  /** Which results a callable may return and which values a non-dependency slot may take, and which may raise. */
  datatype Semantics = Semantics(calls: (Callable, Kwargs, Value) -> bool, binds: (Slot, Value) -> bool,
                                 fails: (Callable, Kwargs) -> bool, rejects: Slot -> bool)

  /** The walk has been left by an exception: a parameter's, or that of a call it awaited. */
  predicate HasRaised(b: Body) {
    match b
    case Rejected(_) => true
    case Single(_, _, _, t) => t.Failed?
    case Gather(_, _, _, _, ts) => exists k :: 0 <= k < |ts| && ts[k].Failed?
    case _ => false
  }

  /** The slot at which a plan's batched waves run: its earliest member. */
  ghost predicate IsTrigger(waves: seq<seq<nat>>, i: nat) {
    Somewhere(waves, i) && forall j: nat :: j < i ==> !Somewhere(waves, j)
  }

  function StartAll(slots: seq<Slot>, wave: seq<nat>): (ts: seq<Task>)
    requires InRange(slots, wave)
    ensures |ts| == |wave| && forall k :: 0 <= k < |wave| ==> ts[k] == Start(slots[wave[k]])
  {
    seq(|wave|, k requires 0 <= k < |wave| => Start(slots[wave[k]]))
  }

  /** Write a finished wave's results into the kwargs. */
  function BindWave(slots: seq<Slot>, wave: seq<nat>, tasks: seq<Task>, kw: Kwargs): Kwargs
    requires InRange(slots, wave) && |tasks| == |wave| && forall k :: 0 <= k < |tasks| ==> tasks[k].Finished?
  {
    if wave == [] then kw
    else BindWave(slots, wave[1..], tasks[1..], kw[slots[wave[0]].name := tasks[0].value])
  }

  predicate AllFinished(tasks: seq<Task>) {
    forall k :: 0 <= k < |tasks| ==> tasks[k].Finished?
  }

  /** One step of a task. */
  ghost predicate TaskStep(sem: Semantics, t: Task, s: Shared, t': Task, s': Shared)
    decreases t
  {
    match t
    case Start(slot) =>
      && slot.DependsSlot?
      && var key := KeyOf(slot, s.scopes);
      if slot.useCache && key in s.cache then t' == Finished(s.cache[key]) && s' == s
      else
        && t' == Args(slot, key, Walk(slot.sub, 0, map[]))
        && s' == s.(scopes := s.scopes + slot.scopes, started := if slot.useCache then s.started + [key] else s.started)
    case Args(slot, key, body) =>
      && slot.DependsSlot?
      && if !t'.Args? then
           && (if body.Bound? then t' == Calling(slot, key, body.kw)
               else HasRaised(body) && t' == Failed(slot, key, body))
           && |slot.scopes| <= |s.scopes| && s' == s.(scopes := s.scopes[..|s.scopes| - |slot.scopes|])
         else t'.slot == slot && t'.key == key && BodyStep(sem, body, s, t'.body, s')
    case Calling(slot, key, kwargs) =>
      && slot.DependsSlot?
      && if t'.Finished? then
           && sem.calls(slot.callable, kwargs, t'.value)
           && s' == if slot.useCache then s.(cache := s.cache[key := t'.value]) else s
         else sem.fails(slot.callable, kwargs) && t' == Failed(slot, key, Bound(slot.sub, kwargs)) && s' == s
    case Failed(slot, key, body) =>
      t'.Failed? && t'.slot == slot && t'.key == key && BodyStep(sem, body, s, t'.body, s')
    case Finished(_) => false
  }

  /** One step of a slot walk; a gathered wave steps any one of its unfinished tasks, also when another has raised:
      the others are not cancelled. */
  ghost predicate BodyStep(sem: Semantics, b: Body, s: Shared, b': Body, s': Shared)
    decreases b
  {
    var slots := b.plan.slots;
    var waves := b.plan.waves;
    match b
    case Walk(plan, i, kw) =>
      && s' == s
      && if i >= |slots| then b' == Bound(plan, kw)
         else if !slots[i].DependsSlot? && b'.Rejected? then b'.plan == plan && sem.rejects(slots[i])
         else if !slots[i].DependsSlot? then
           && b'.Walk? && b'.plan == plan && b'.i == i + 1
           && exists v :: sem.binds(slots[i], v) && (slots[i].ScopesSlot? ==> v == ScopesValue(s.scopes))
                          && b'.kw == kw[slots[i].name := v]
         else if !Somewhere(waves, i) then b' == Single(plan, i, kw, Start(slots[i]))
         else if IsTrigger(waves, i) && waves != [] && InRange(slots, waves[0]) then
           b' == Gather(plan, i, kw, 0, StartAll(slots, waves[0]))
         else b' == Walk(plan, i + 1, kw)
    case Single(plan, i, kw, t) =>
      if t.Finished? then s' == s && i < |slots| && b' == Walk(plan, i + 1, kw[slots[i].name := t.value])
      else b'.Single? && b' == b.(task := b'.task) && TaskStep(sem, t, s, b'.task, s')
    case Gather(plan, i, kw, w, ts) =>
      if AllFinished(ts) then
        && s' == s && w < |waves| && |ts| == |waves[w]| && InRange(slots, waves[w])
        && var kw1 := BindWave(slots, waves[w], ts, kw);
        if w + 1 < |waves| then InRange(slots, waves[w + 1]) && b'
            == Gather(plan, i, kw1, w + 1, StartAll(slots, waves[w + 1]))
        else b' == Walk(plan, i + 1, kw1)
      else
        && b'.Gather? && |b'.tasks| == |ts|
        && exists k ::
             0 <= k < |ts| && b' == b.(tasks := ts[k := b'.tasks[k]]) && TaskStep(sem, ts[k], s, b'.tasks[k], s')
    case Bound(_, _) => false
    case Rejected(_) => false
  }

  datatype Config = Config(body: Body, shared: Shared)

  function Initial(plan: Plan): Config {
    Config(Walk(plan, 0, map[]), Shared(map[], [], []))
  }

  /** A run: any finite sequence of steps of the whole resolution. */
  ghost predicate IsRun(sem: Semantics, plan: Plan, run: seq<Config>) {
    && run != [] && run[0] == Initial(plan)
    && forall i :: 0 <= i < |run| - 1 ==> BodyStep(sem, run[i].body, run[i].shared, run[i + 1].body, run[i + 1].shared)
  }

  /** The plans the planner builds: good waves everywhere, and no callable cached below itself. */
  ghost predicate Sound(plan: Plan) {
    && GoodWaves(plan.slots, plan.waves)
    && forall i | 0 <= i < |plan.slots| && plan.slots[i].DependsSlot? ::
         plan.slots[i].callable !in AllCached(plan.slots[i].sub.slots) && Sound(plan.slots[i].sub)
  }
}
