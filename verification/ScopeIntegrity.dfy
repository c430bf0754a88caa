/** The shared scope stack is never corrupted by concurrency: every task sees its own path's scopes. */
module ScopeIntegrity {
  import opened Plans
  import opened Hosts
  import opened Waves
  import opened Scheduler
  import opened WaveSafety

  /** The stack the resolver should hold while a task runs, `base` being the scopes above it. */
  ghost function TaskStack(t: Task, base: seq<string>): seq<string>
    decreases t
  {
    if t.Args? && t.slot.DependsSlot? then BodyStack(t.body, base + t.slot.scopes) else base
  }

  ghost function BodyStack(b: Body, base: seq<string>): seq<string>
    decreases b
  {
    if b.Single? then TaskStack(b.task, base) else base
  }

  /** Every task that may run next, however deep, has exactly `now` as the scopes of its own path; those left running
      below a call that has raised no longer matter. */
  ghost predicate SeesOwnScopes(t: Task, base: seq<string>, now: seq<string>)
    decreases t
  {
    match t
    case Args(slot, _, body) => slot.DependsSlot? && BodySeesOwnScopes(body, base + slot.scopes, now)
    case Finished(_) => true
    case Failed(_, _, _) => true
    case _ => base == now
  }

  ghost predicate BodySeesOwnScopes(b: Body, base: seq<string>, now: seq<string>)
    decreases b
  {
    match b
    case Single(_, _, _, t) => SeesOwnScopes(t, base, now)
    case Gather(_, _, _, _, ts) => base == now && forall k :: 0 <= k < |ts| ==> SeesOwnScopes(ts[k], base, now)
    case _ => base == now
  }

  /** A parallel-safe task pushes nothing, at any depth. */
  lemma {:induction false} SafeTaskStack(t: Task, base: seq<string>)
    requires GoodTask(t) && (t.Finished? || IsSafe(t.slot))
    ensures TaskStack(t, base) == base
    decreases t
  {
    if t.Args? {
      assert base + t.slot.scopes == base;
      assert TaskStack(t, base) == BodyStack(t.body, base);
      if t.body.Single? {
        var inner := t.body.task;
        assert GoodBody(t.body) && GoodTask(inner);
        if !inner.Finished? {
          assert t.slot.sub.slots[t.body.i] == inner.slot && inner.slot.DependsSlot?;
        }
        SafeTaskStack(inner, base);
      }
    }
  }

  /** A parallel-safe task leaves the stack alone. */
  lemma {:induction false} SafeTaskKeeps(sem: Semantics, t: Task, s: Shared, t': Task, s': Shared)
    requires GoodTask(t) && TaskStep(sem, t, s, t', s') && IsSafe(t.slot)
    ensures s'.scopes == s.scopes
    decreases t
  {
    if t.Args? && t'.Args? {
      SafeBodyKeeps(sem, t.body, s, t'.body, s');
    } else if t.Failed? {
      SafeBodyKeeps(sem, t.body, s, t'.body, s');
    } else {
      assert s.scopes + [] == s.scopes;
    }
  }

  ghost predicate AllSafe(plan: Plan) {
    forall i :: 0 <= i < |plan.slots| && plan.slots[i].DependsSlot? ==> IsSafe(plan.slots[i])
  }

  lemma {:induction false} SafeBodyKeeps(sem: Semantics, b: Body, s: Shared, b': Body, s': Shared)
    requires GoodBody(b) && BodyStep(sem, b, s, b', s') && AllSafe(b.plan)
    ensures s'.scopes == s.scopes
    decreases b
  {
    match b
    case Single(plan, i, kw, t) =>
      if !t.Finished? {
        SafeTaskKeeps(sem, t, s, b'.task, s');
      }
    case Gather(plan, i, kw, w, ts) => WaveKeeps(sem, b, s, b', s');
    case _ =>
  }

  /** So does a whole wave. */
  lemma {:induction false} WaveKeeps(sem: Semantics, b: Body, s: Shared, b': Body, s': Shared)
    requires GoodBody(b) && BodyStep(sem, b, s, b', s') && b.Gather?
    ensures s'.scopes == s.scopes
    decreases b, 0
  {
    var ts := b.tasks;
    if !AllFinished(ts) {
      var k :| 0 <= k < |ts| && b' == b.(tasks := ts[k := b'.tasks[k]]) && TaskStep(sem, ts[k], s, b'.tasks[k], s');
      assert GoodWave(b.plan.slots, b.plan.waves[b.w]);
      SafeTaskKeeps(sem, ts[k], s, b'.tasks[k], s');
    }
  }

  /** What still runs behind an exception leaves the stack alone. */
  lemma {:induction false} RaisedKeeps(sem: Semantics, b: Body, s: Shared, b': Body, s': Shared)
    requires GoodBody(b) && BodyStep(sem, b, s, b', s') && HasRaised(b)
    ensures s'.scopes == s.scopes
    decreases b
  {
    match b
    case Single(plan, i, kw, t) => RaisedKeeps(sem, t.body, s, b'.task.body, s');
    case Gather(plan, i, kw, w, ts) => WaveKeeps(sem, b, s, b', s');
    case _ =>
  }

  lemma EndedStack(b: Body, base: seq<string>)
    requires b.Bound? || HasRaised(b)
    ensures BodyStack(b, base) == base
  {
  }

  lemma {:induction false} TaskStepStack(sem: Semantics, t: Task, s: Shared, t': Task, s': Shared, base: seq<string>)
    requires GoodTask(t) && TaskStep(sem, t, s, t', s') && s.scopes == TaskStack(t, base)
    ensures s'.scopes == TaskStack(t', base)
    decreases t
  {
    if t.Args? {
      if t'.Args? {
        BodyStepStack(sem, t.body, s, t'.body, s', base + t.slot.scopes);
      } else {
        EndedStack(t.body, base + t.slot.scopes);
        assert (base + t.slot.scopes)[..|base|] == base;
      }
    } else if t.Failed? {
      RaisedKeeps(sem, t.body, s, t'.body, s');
    }
  }

  lemma {:induction false} BodyStepStack(sem: Semantics, b: Body, s: Shared, b': Body, s': Shared, base: seq<string>)
    requires GoodBody(b) && BodyStep(sem, b, s, b', s') && s.scopes == BodyStack(b, base)
    ensures s'.scopes == BodyStack(b', base)
    decreases b
  {
    match b
    case Single(plan, i, kw, t) =>
      if !t.Finished? {
        TaskStepStack(sem, t, s, b'.task, s', base);
      }
    case Gather(plan, i, kw, w, ts) => WaveKeeps(sem, b, s, b', s');
    case _ =>
  }

  lemma {:induction false} StackSeen(t: Task, base: seq<string>)
    requires GoodTask(t)
    ensures SeesOwnScopes(t, base, TaskStack(t, base))
    decreases t
  {
    if t.Args? {
      BodyStackSeen(t.body, base + t.slot.scopes);
    }
  }

  lemma {:induction false} BodyStackSeen(b: Body, base: seq<string>)
    requires GoodBody(b)
    ensures BodySeesOwnScopes(b, base, BodyStack(b, base))
    decreases b
  {
    match b
    case Single(_, _, _, t) => StackSeen(t, base);
    case Gather(plan, _, _, w, ts) =>
      assert GoodWave(plan.slots, plan.waves[w]);
      forall k | 0 <= k < |ts|
        ensures SeesOwnScopes(ts[k], base, base)
      {
        SafeTaskStack(ts[k], base);
        StackSeen(ts[k], base);
      }
    case _ =>
  }

  /** Under every interleaving, whichever task runs next finds on the shared stack the scopes of its own path
      and nothing else - so its cache key and any `SecurityScopes` it reads are those of sequential resolution. */
  lemma {:induction false} EveryTaskSeesItsScopes(sem: Semantics, plan: Plan, run: seq<Config>, n: nat)
    requires Sound(plan) && IsRun(sem, plan, run) && n < |run|
    ensures run[n].shared.scopes == BodyStack(run[n].body, [])
    ensures BodySeesOwnScopes(run[n].body, [], run[n].shared.scopes)
  {
    EachKeyOnce(sem, plan, run, n);
    BodyStackSeen(run[n].body, []);
    if n > 0 {
      EveryTaskSeesItsScopes(sem, plan, run, n - 1);
      EachKeyOnce(sem, plan, run, n - 1);
      BodyStepStack(sem, run[n - 1].body, run[n - 1].shared, run[n].body, run[n].shared, []);
    }
  }

  /** However a resolution ends, its scopes are off the stack. */
  lemma ScopesGone(sem: Semantics, plan: Plan, run: seq<Config>, n: nat)
    requires Sound(plan) && IsRun(sem, plan, run) && n < |run| && (run[n].body.Bound? || HasRaised(run[n].body))
    ensures run[n].shared.scopes == []
  {
    EveryTaskSeesItsScopes(sem, plan, run, n);
  }

  // ---- A call that raises ---------------------------------------------------

  /** Some call or parameter at or below here has raised. */
  ghost predicate TaskBroken(t: Task)
    decreases t
  {
    t.Failed? || (t.Args? && BodyBroken(t.body))
  }

  ghost predicate BodyBroken(b: Body)
    decreases b
  {
    match b
    case Rejected(_) => true
    case Single(_, _, _, t) => TaskBroken(t)
    case Gather(_, _, _, _, ts) => exists k :: 0 <= k < |ts| && TaskBroken(ts[k])
    case _ => false
  }

  lemma {:induction false} TaskBrokenStays(sem: Semantics, t: Task, s: Shared, t': Task, s': Shared)
    requires TaskStep(sem, t, s, t', s') && TaskBroken(t)
    ensures TaskBroken(t')
    decreases t
  {
    if t.Args? && t'.Args? {
      BodyBrokenStays(sem, t.body, s, t'.body, s');
    }
  }

  lemma {:induction false} BodyBrokenStays(sem: Semantics, b: Body, s: Shared, b': Body, s': Shared)
    requires BodyStep(sem, b, s, b', s') && BodyBroken(b)
    ensures BodyBroken(b')
    decreases b
  {
    match b
    case Single(plan, i, kw, t) => TaskBrokenStays(sem, t, s, b'.task, s');
    case Gather(plan, i, kw, w, ts) =>
      var j :| 0 <= j < |ts| && TaskBroken(ts[j]);
      assert !AllFinished(ts);
      var k :| 0 <= k < |ts| && b' == b.(tasks := ts[k := b'.tasks[k]]) && TaskStep(sem, ts[k], s, b'.tasks[k], s');
      if k == j {
        TaskBrokenStays(sem, ts[k], s, b'.tasks[k], s');
      }
      assert TaskBroken(b'.tasks[j]);
    case _ =>
  }

  /** Once anything has raised, however deep and whatever else is running, the resolution never binds. */
  lemma {:induction false} FailureIsFinal(sem: Semantics, plan: Plan, run: seq<Config>, m: nat, n: nat)
    requires IsRun(sem, plan, run) && m <= n < |run| && BodyBroken(run[m].body)
    ensures BodyBroken(run[n].body) && !run[n].body.Bound?
  {
    if m < n {
      FailureIsFinal(sem, plan, run, m, n - 1);
      BodyBrokenStays(sem, run[n - 1].body, run[n - 1].shared, run[n].body, run[n].shared);
    }
  }

  // ---- No run gets stuck ----------------------------------------------------

  ghost predicate Returns(sem: Semantics, c: Callable, kw: Kwargs) {
    exists v :: sem.calls(c, kw, v)
  }

  ghost predicate Bindable(sem: Semantics, s: Slot) {
    exists v :: sem.binds(s, v)
  }

  /** Every callable returns something or raises, and every parameter has a value or raises. */
  ghost predicate Total(sem: Semantics) {
    && (forall c, kw :: Returns(sem, c, kw) || sem.fails(c, kw))
    && (forall s: Slot :: !s.ScopesSlot? ==> Bindable(sem, s) || sem.rejects(s))
    && (forall s: Slot, scopes :: s.ScopesSlot? ==> sem.binds(s, ScopesValue(scopes)))
  }

  lemma {:induction false} TaskProgress(sem: Semantics, t: Task, s: Shared, base: seq<string>)
      returns (t': Task, s': Shared)
    requires Total(sem) && GoodTask(t) && !t.Finished? && !t.Failed? && s.scopes == TaskStack(t, base)
    ensures TaskStep(sem, t, s, t', s')
    decreases t
  {
    match t
    case Start(slot) =>
      var key := KeyOf(slot, s.scopes);
      if slot.useCache && key in s.cache {
        t', s' := Finished(s.cache[key]), s;
      } else {
        t' := Args(slot, key, Walk(slot.sub, 0, map[]));
        s' := s.(scopes := s.scopes + slot.scopes, started := if slot.useCache then s.started + [key] else s.started);
      }
    case Args(slot, key, body) =>
      if body.Bound? || HasRaised(body) {
        EndedStack(body, base + slot.scopes);
      }
      if body.Bound? {
        t' := Calling(slot, key, body.kw);
        s' := s.(scopes := s.scopes[..|s.scopes| - |slot.scopes|]);
      } else if HasRaised(body) {
        t' := Failed(slot, key, body);
        s' := s.(scopes := s.scopes[..|s.scopes| - |slot.scopes|]);
      } else {
        var b';
        b', s' := BodyProgress(sem, body, s, base + slot.scopes);
        t' := Args(slot, key, b');
      }
    case Calling(slot, key, kwargs) =>
      if Returns(sem, slot.callable, kwargs) {
        var v :| sem.calls(slot.callable, kwargs, v);
        t' := Finished(v);
        s' := if slot.useCache then s.(cache := s.cache[key := v]) else s;
      } else {
        t', s' := Failed(slot, key, Bound(slot.sub, kwargs)), s;
      }
  }

  lemma {:induction false} BodyProgress(sem: Semantics, b: Body, s: Shared, base: seq<string>)
      returns (b': Body, s': Shared)
    requires Total(sem) && GoodBody(b) && !b.Bound? && !HasRaised(b) && s.scopes == BodyStack(b, base)
    ensures BodyStep(sem, b, s, b', s')
    decreases b
  {
    match b
    case Walk(plan, i, kw) =>
      b' := WalkProgress(sem, b, s);
      s' := s;
    case Single(plan, i, kw, t) =>
      if t.Finished? {
        b', s' := Walk(plan, i + 1, kw[plan.slots[i].name := t.value]), s;
      } else {
        var t';
        t', s' := TaskProgress(sem, t, s, base);
        b' := b.(task := t');
      }
    case Gather(plan, i, kw, w, ts) =>
      if AllFinished(ts) {
        var kw1 := BindWave(plan.slots, plan.waves[w], ts, kw);
        s' := s;
        if w + 1 < |plan.waves| {
          assert GoodWave(plan.slots, plan.waves[w + 1]);
          b' := Gather(plan, i, kw1, w + 1, StartAll(plan.slots, plan.waves[w + 1]));
        } else {
          b' := Walk(plan, i + 1, kw1);
        }
      } else {
        var k :| 0 <= k < |ts| && !ts[k].Finished?;
        assert GoodWave(plan.slots, plan.waves[w]);
        SafeTaskStack(ts[k], base);
        var t';
        t', s' := TaskProgress(sem, ts[k], s, base);
        b' := b.(tasks := ts[k := t']);
        assert b'.tasks[k] == t';
      }
  }

  lemma WalkProgress(sem: Semantics, b: Body, s: Shared) returns (b': Body)
    requires Total(sem) && GoodBody(b) && b.Walk?
    ensures BodyStep(sem, b, s, b', s)
  {
    var plan, i, kw := b.plan, b.i, b.kw;
    if i >= |plan.slots| {
      b' := Bound(plan, kw);
    } else if !plan.slots[i].DependsSlot? {
      if plan.slots[i].ScopesSlot? {
        b' := Walk(plan, i + 1, kw[plan.slots[i].name := ScopesValue(s.scopes)]);
      } else if Bindable(sem, plan.slots[i]) {
        var v :| sem.binds(plan.slots[i], v);
        b' := Walk(plan, i + 1, kw[plan.slots[i].name := v]);
      } else {
        b' := Rejected(plan);
      }
    } else if !Somewhere(plan.waves, i) {
      b' := Single(plan, i, kw, Start(plan.slots[i]));
    } else if IsTrigger(plan.waves, i) && plan.waves != [] && InRange(plan.slots, plan.waves[0]) {
      b' := Gather(plan, i, kw, 0, StartAll(plan.slots, plan.waves[0]));
    } else {
      b' := Walk(plan, i + 1, kw);
    }
  }

  /** No interleaving deadlocks: until the kwargs are bound or an exception has reached the handler, a run can always
      take another step. */
  lemma NeverStuck(sem: Semantics, plan: Plan, run: seq<Config>) returns (next: Config)
    requires Total(sem) && Sound(plan) && IsRun(sem, plan, run)
    requires !run[|run| - 1].body.Bound? && !HasRaised(run[|run| - 1].body)
    ensures IsRun(sem, plan, run + [next])
  {
    var n := |run| - 1;
    EveryTaskSeesItsScopes(sem, plan, run, n);
    EachKeyOnce(sem, plan, run, n);
    var b', s' := BodyProgress(sem, run[n].body, run[n].shared, []);
    next := Config(b', s');
    var run' := run + [next];
    assert forall i :: 0 <= i <= n ==> run'[i] == run[i];
  }
}
