/** A handler whose two dependencies run in one wave, followed through a whole interleaved run. */
module WaveExample {
  import opened Wrappers
  import opened Plans
  import opened Hosts
  import opened PlanTrees
  import opened Waves
  import opened Planner
  import opened Scheduler
  import opened WaveValues
  import opened PlannedWaves

  const EMPTY := Plan([], [])

  function Dep(name: string, c: Callable): Slot {
    DependsSlot(name, c, Coroutine, false, [], false, EMPTY)
  }

  /** Two uncached calls of `c`, under two names. */
  function TwoSlots(c: Callable): seq<Slot> {
    [Dep("a", c), Dep("b", c)]
  }

  function TwoPlan(c: Callable): Plan {
    Plan(TwoSlots(c), [[0, 1]])
  }

  /** The handler declares both; `c` takes no parameters of its own. */
  function TwoSignatures(handler: Callable, c: Callable): Signatures {
    map[handler := [Edge("a", c, Coroutine, false, []), Edge("b", c, Coroutine, false, [])]]
  }

  lemma NothingCached(name: string, c: Callable)
    ensures CachedCallables(Dep(name, c)) == {}
  {
    assert AllCached(EMPTY.slots) == {};
  }

  lemma BothSafe(c: Callable)
    ensures SafeIndices(TwoSlots(c), 2) == [0, 1]
  {
    var slots := TwoSlots(c);
    assert IsSafe(slots[0]) && IsSafe(slots[1]);
    assert SafeIndices(slots, 0) == [];
    assert SafeIndices(slots, 1) == [] + [0];
    assert SafeIndices(slots, 2) == [0] + [1];
  }

  lemma TakenOne(slots: seq<Slot>, i: nat)
    requires i < |slots|
    ensures Taken(slots, [i]) == CachedCallables(slots[i])
  {
    var one, none: seq<nat> := [i], [];
    assert one[..0] == none && Taken(slots, none) == {};
  }

  /** The first index opens a wave. */
  lemma PlacedOne(slots: seq<Slot>, i: nat)
    requires i < |slots|
    ensures PlaceAll(slots, [i]) == [[i]]
  {
    var one, none: seq<nat> := [i], [];
    var waves: seq<seq<nat>> := [];
    assert one[..|one| - 1] == none && one[|one| - 1] == i;
    assert PlaceAll(slots, none) == waves;
    assert PlaceAll(slots, one) == Place(slots, waves, i);
  }

  /** A slot that shares nothing with the first joins it. */
  lemma PlacedTwo(slots: seq<Slot>, i: nat, j: nat)
    requires i < |slots| && j < |slots| && CachedCallables(slots[i]) !! CachedCallables(slots[j])
    ensures PlaceAll(slots, [i, j]) == [[i, j]]
  {
    var one, two: seq<nat> := [i], [i, j];
    var first, none: seq<seq<nat>> := [one], [];
    PlacedOne(slots, i);
    TakenOne(slots, i);
    assert two[..|two| - 1] == one && two[|two| - 1] == j;
    assert PlaceAll(slots, two) == Place(slots, first, j);
    assert first[0] == one && first[1..] == none && one + [j] == two;
    assert Place(slots, first, j) == [two] + none;
  }

  lemma TwoComputed(c: Callable)
    ensures ComputeWaves(TwoSlots(c)) == [[0, 1]]
  {
    BothSafe(c);
    NothingCached("a", c);
    PlacedTwo(TwoSlots(c), 0, 1);
    var waves: seq<seq<nat>> := [[0, 1]];
    assert |waves[0]| == 2;
  }

  lemma TwoWaves(c: Callable)
    ensures MakePlan(TwoSlots(c)) == TwoPlan(c)
  {
    var two: seq<nat> := [0, 1];
    var waves, none: seq<seq<nat>> := [two], [];
    TwoComputed(c);
    assert waves[1..] == none && Batched(none) == none;
    assert Batched(waves) == [two] + Batched(waves[1..]);
  }

  lemma FirstBuilt(g: Signatures, ps: seq<Param>, chain: seq<Callable>, s: Slot, rest: seq<Slot>)
    requires ps != [] && BuildSlot(g, ps[0], chain) == Ok(s) && BuildSlots(g, ps[1..], chain) == Ok(rest)
    ensures BuildSlots(g, ps, chain) == Ok([s] + rest)
  {
  }

  lemma BuildFrom(g: Signatures, c: Callable, slots: seq<Slot>)
    requires c in g && BuildSlots(g, g[c], [] + [c]) == Ok(slots)
    ensures Build(g, c, []) == Ok(MakePlan(slots))
  {
  }

  lemma TwoPlanned(handler: Callable, c: Callable)
    requires handler != c
    ensures Build(TwoSignatures(handler, c), handler, []) == Ok(TwoPlan(c))
  {
    var g := TwoSignatures(handler, c);
    var ps := g[handler];
    var chain := [] + [handler];
    assert ComputeWaves([]) == [] && MakePlan([]) == EMPTY;
    assert Build(g, c, chain) == Ok(EMPTY);
    assert BuildSlot(g, ps[0], chain) == Ok(Dep("a", c)) && BuildSlot(g, ps[1], chain) == Ok(Dep("b", c));
    assert ps[1..] == [ps[1]] && ps[1..][1..] == [];
    FirstBuilt(g, ps[1..], chain, Dep("b", c), []);
    FirstBuilt(g, ps, chain, Dep("a", c), [Dep("b", c)] + []);
    assert [Dep("a", c)] + ([Dep("b", c)] + []) == TwoSlots(c);
    BuildFrom(g, handler, TwoSlots(c));
    TwoWaves(c);
  }

  // ---- A run ----------------------------------------------------------------

  lemma Extend(sem: Semantics, plan: Plan, run: seq<Config>, next: Config) returns (longer: seq<Config>)
    requires IsRun(sem, plan, run)
    requires BodyStep(sem, run[|run| - 1].body, run[|run| - 1].shared, next.body, next.shared)
    ensures longer == run + [next] && IsRun(sem, plan, longer) && longer[|longer| - 1] == next
  {
    longer := run + [next];
    forall i | 0 <= i < |longer| - 1
      ensures BodyStep(sem, longer[i].body, longer[i].shared, longer[i + 1].body, longer[i + 1].shared)
    {
      assert longer[i] == run[i];
      if i < |run| - 1 {
        assert longer[i + 1] == run[i + 1];
      }
    }
  }

  const QUIET := Shared(map[], [], [])

  function Pair(c: Callable, t: Task, u: Task): Body {
    Gather(TwoPlan(c), 0, map[], 0, [t, u])
  }

  /** Either task of the wave may take the next step. */
  lemma FirstSteps(sem: Semantics, c: Callable, t: Task, u: Task, t': Task)
    requires TaskStep(sem, t, QUIET, t', QUIET) && !t.Finished?
    ensures BodyStep(sem, Pair(c, t, u), QUIET, Pair(c, t', u), QUIET)
  {
    var b, b' := Pair(c, t, u), Pair(c, t', u);
    assert !AllFinished(b.tasks) by {
      assert !b.tasks[0].Finished?;
    }
    assert b.tasks[0 := t'] == b'.tasks;
    assert b' == b.(tasks := b.tasks[0 := b'.tasks[0]]);
  }

  lemma SecondSteps(sem: Semantics, c: Callable, t: Task, u: Task, u': Task)
    requires TaskStep(sem, u, QUIET, u', QUIET) && !u.Finished?
    ensures BodyStep(sem, Pair(c, t, u), QUIET, Pair(c, t, u'), QUIET)
  {
    var b, b' := Pair(c, t, u), Pair(c, t, u');
    assert !AllFinished(b.tasks) by {
      assert !b.tasks[1].Finished?;
    }
    assert b.tasks[1 := u'] == b'.tasks;
    assert b' == b.(tasks := b.tasks[1 := b'.tasks[1]]);
  }

  function Stage(name: string, c: Callable, v: Value, n: nat): Task {
    if n == 0 then Start(Dep(name, c))
    else if n == 1 then Args(Dep(name, c), PlainKey(c), Walk(EMPTY, 0, map[]))
    else if n == 2 then Args(Dep(name, c), PlainKey(c), Body.Bound(EMPTY, map[]))
    else if n == 3 then Calling(Dep(name, c), PlainKey(c), map[])
    else Finished(v)
  }

  lemma StageSteps(sem: Semantics, name: string, c: Callable, v: Value, n: nat)
    requires n < 4 && sem.calls(c, map[], v)
    ensures TaskStep(sem, Stage(name, c, v, n), QUIET, Stage(name, c, v, n + 1), QUIET)
  {
    assert QUIET.scopes + [] == QUIET.scopes;
    if n == 1 {
      assert BodyStep(sem, Walk(EMPTY, 0, map[]), QUIET, Body.Bound(EMPTY, map[]), QUIET);
    }
  }

  lemma WaveBegins(sem: Semantics, c: Callable, v: Value)
    ensures BodyStep(sem, Walk(TwoPlan(c), 0, map[]), QUIET, Pair(c, Stage("a", c, v, 0), Stage("b", c, v, 0)), QUIET)
  {
    var waves := TwoPlan(c).waves;
    assert 0 in waves[0];
    assert Somewhere(waves, 0);
    assert StartAll(TwoSlots(c), waves[0]) == [Stage("a", c, v, 0), Stage("b", c, v, 0)];
  }

  lemma WaveEnds(sem: Semantics, c: Callable, v: Value)
    ensures BodyStep(sem, Pair(c, Finished(v), Finished(v)), QUIET, Walk(TwoPlan(c), 1, map["a" := v, "b" := v]), QUIET)
    ensures BodyStep(sem, Walk(TwoPlan(c), 1, map["a" := v, "b" := v]), QUIET,
      Walk(TwoPlan(c), 2, map["a" := v, "b" := v]), QUIET)
  {
    var slots, ts := TwoSlots(c), [Finished(v), Finished(v)];
    var waves := TwoPlan(c).waves;
    assert [0, 1][1..] == [1] && ts[1..] == [Finished(v)] && [1][1..] == [] && ts[1..][1..] == [];
    assert BindWave(slots, [1], ts[1..], map["a" := v]) == map["a" := v, "b" := v];
    assert BindWave(slots, [0, 1], ts, map[]) == map["a" := v, "b" := v];
    assert 1 in waves[0] && 0 in waves[0];
    assert Somewhere(waves, 1) && Somewhere(waves, 0);
  }

  /** The tasks advance in turn; `b` is called first. */
  lemma WholeRun(sem: Semantics, c: Callable, v: Value) returns (run: seq<Config>)
    requires sem.calls(c, map[], v)
    ensures IsRun(sem, TwoPlan(c), run)
    ensures run[|run| - 1].body == Body.Bound(TwoPlan(c), map["a" := v, "b" := v])
  {
    var plan, kw := TwoPlan(c), map["a" := v, "b" := v];
    run := [Initial(plan)];
    WaveBegins(sem, c, v);
    run := Extend(sem, plan, run, Config(Pair(c, Stage("a", c, v, 0), Stage("b", c, v, 0)), QUIET));
    for n := 0 to 4
      invariant IsRun(sem, plan, run)
      invariant run[|run| - 1] == Config(Pair(c, Stage("a", c, v, n), Stage("b", c, v, n)), QUIET)
    {
      StageSteps(sem, "a", c, v, n);
      StageSteps(sem, "b", c, v, n);
      SecondSteps(sem, c, Stage("a", c, v, n), Stage("b", c, v, n), Stage("b", c, v, n + 1));
      run := Extend(sem, plan, run, Config(Pair(c, Stage("a", c, v, n), Stage("b", c, v, n + 1)), QUIET));
      FirstSteps(sem, c, Stage("a", c, v, n), Stage("b", c, v, n + 1), Stage("a", c, v, n + 1));
      run := Extend(sem, plan, run, Config(Pair(c, Stage("a", c, v, n + 1), Stage("b", c, v, n + 1)), QUIET));
    }
    WaveEnds(sem, c, v);
    run := Extend(sem, plan, run, Config(Walk(plan, 1, kw), QUIET));
    run := Extend(sem, plan, run, Config(Walk(plan, 2, kw), QUIET));
    run := Extend(sem, plan, run, Config(Body.Bound(plan, kw), QUIET));
  }

  // ---- A failing call -------------------------------------------------------

  function FailedFirst(c: Callable): Task {
    Failed(Dep("a", c), PlainKey(c), Body.Bound(EMPTY, map[]))
  }

  lemma FirstFails(sem: Semantics, c: Callable, v: Value)
    requires sem.fails(c, map[])
    ensures TaskStep(sem, Stage("a", c, v, 3), QUIET, FailedFirst(c), QUIET)
    ensures HasRaised(Pair(c, FailedFirst(c), Stage("b", c, v, 0)))
  {
    assert Pair(c, FailedFirst(c), Stage("b", c, v, 0)).tasks[0].Failed?;
  }

  /** The first task runs alone, up to its failure. */
  lemma UntilFailure(sem: Semantics, c: Callable, v: Value) returns (run: seq<Config>)
    requires sem.calls(c, map[], v) && sem.fails(c, map[])
    ensures IsRun(sem, TwoPlan(c), run)
    ensures run[|run| - 1] == Config(Pair(c, FailedFirst(c), Stage("b", c, v, 0)), QUIET)
  {
    var plan := TwoPlan(c);
    run := [Initial(plan)];
    WaveBegins(sem, c, v);
    run := Extend(sem, plan, run, Config(Pair(c, Stage("a", c, v, 0), Stage("b", c, v, 0)), QUIET));
    for n := 0 to 3
      invariant IsRun(sem, plan, run)
      invariant run[|run| - 1] == Config(Pair(c, Stage("a", c, v, n), Stage("b", c, v, 0)), QUIET)
    {
      StageSteps(sem, "a", c, v, n);
      FirstSteps(sem, c, Stage("a", c, v, n), Stage("b", c, v, 0), Stage("a", c, v, n + 1));
      run := Extend(sem, plan, run, Config(Pair(c, Stage("a", c, v, n + 1), Stage("b", c, v, 0)), QUIET));
    }
    FirstFails(sem, c, v);
    FirstSteps(sem, c, Stage("a", c, v, 3), Stage("b", c, v, 0), FailedFirst(c));
    run := Extend(sem, plan, run, Config(Pair(c, FailedFirst(c), Stage("b", c, v, 0)), QUIET));
  }

  /** A call that raises does not stop the one gathered beside it, which may run to its end behind the exception. */
  lemma SiblingOutlives(sem: Semantics, c: Callable, v: Value) returns (run: seq<Config>, m: nat)
    requires sem.calls(c, map[], v) && sem.fails(c, map[])
    ensures IsRun(sem, TwoPlan(c), run) && m < |run|
    ensures run[m].body == Pair(c, FailedFirst(c), Start(Dep("b", c))) && HasRaised(run[m].body)
    ensures run[|run| - 1].body == Pair(c, FailedFirst(c), Finished(v))
  {
    var plan := TwoPlan(c);
    run := UntilFailure(sem, c, v);
    m := |run| - 1;
    FirstFails(sem, c, v);
    for n := 0 to 4
      invariant IsRun(sem, plan, run) && m < |run| && run[m].body == Pair(c, FailedFirst(c), Stage("b", c, v, 0))
      invariant run[|run| - 1] == Config(Pair(c, FailedFirst(c), Stage("b", c, v, n)), QUIET)
    {
      StageSteps(sem, "b", c, v, n);
      SecondSteps(sem, c, FailedFirst(c), Stage("b", c, v, n), Stage("b", c, v, n + 1));
      run := Extend(sem, plan, run, Config(Pair(c, FailedFirst(c), Stage("b", c, v, n + 1)), QUIET));
    }
  }

  // ---- The hypotheses of the two theorems are met ---------------------------

  /** Every callable returns `v`, whatever its arguments. */
  function Constantly(base: Host, v: Value): Host {
    base.(invoke := (mode, c, kw, w) => (Ok(v), w))
  }

  lemma TwoPure(h: Host, p: Purity, inv: World -> bool, c: Callable)
    requires forall name :: PureCall(h, p, inv, Dep(name, c))
    ensures PureOn(h, p, inv, TwoPlan(c))
  {
    assert PureOn(h, p, inv, EMPTY);
  }

  lemma TwoScopeFree(handler: Callable, c: Callable)
    ensures DirectIsPlain(TwoSignatures(handler, c)) && ScopeFreeSignatures(TwoSignatures(handler, c))
  {
  }

  lemma HypothesesMet(handler: Callable, c: Callable, base: Host, v: Value)
    returns (g: Signatures, f: (Callable, Kwargs) -> Value, env: Slot -> Value, sem: Semantics, h: Host,
        inv: World -> bool, run: seq<Config>)
    requires handler != c
    ensures DirectIsPlain(g) && ScopeFreeSignatures(g) && Build(g, handler, []).Ok?
    ensures var p, plan := PurityOf(g, f, env), Build(g, handler, []).value;
      && plan.waves != []
      && PureSemantics(sem, p) && PureOn(h, p, inv, plan) && (forall w :: inv(w))
      && IsRun(sem, plan, run) && run[|run| - 1].body.Bound?
  {
    g, f, env := TwoSignatures(handler, c), (d, kw) => v, s => v;
    sem := Semantics((d, kw, x) => x == v, (s, x) => x == v, (d, kw) => false, s => false);
    h, inv := Constantly(base, v), w => true;
    TwoScopeFree(handler, c);
    TwoPlanned(handler, c);
    run := WholeRun(sem, c, v);
    TwoPure(h, PurityOf(g, f, env), inv, c);
  }
}
