/** For scope-free dependencies that do not read each other's effects, waves bind what plain slot order binds. */
module WaveValues {
  import opened Wrappers
  import opened Plans
  import opened Hosts
  import opened Waves
  import opened Scheduler
  import opened WaveSafety
  import I = Interpreter

  /** Pure dependencies: a callable's result is a function of its arguments, a slot's value of the slot.
      `meaning` names the one value each callable has in the graph under consideration. */
  datatype Purity = Purity(f: (Callable, Kwargs) -> Value, env: Slot -> Value, meaning: Callable -> Value)

  /** What a slot denotes, with no cache and no order. */
  function Val(p: Purity, s: Slot): Value
    decreases s, 0
  {
    if s.DependsSlot? then p.f(s.callable, Vals(p, s.sub.slots)) else p.env(s)
  }

  function Vals(p: Purity, slots: seq<Slot>): Kwargs
    decreases slots
  {
    if slots == [] then map[]
    else var n := |slots| - 1; Vals(p, slots[..n])[slots[n].name := Val(p, slots[n])]
  }

  predicate UniqueNames(slots: seq<Slot>) {
    forall i, j :: 0 <= i < j < |slots| ==> slots[i].name != slots[j].name
  }

  /** A scope-free plan whose every callable means one thing. */
  ghost predicate Regular(p: Purity, plan: Plan) {
    && UniqueNames(plan.slots)
    && forall i | 0 <= i < |plan.slots| ::
         && !plan.slots[i].ScopesSlot?
         && (plan.slots[i].DependsSlot? ==>
               p.meaning(plan.slots[i].callable) == Val(p, plan.slots[i]) && Regular(p, plan.slots[i].sub))
  }

  ghost predicate RegularSlot(p: Purity, s: Slot) {
    s.DependsSlot? && p.meaning(s.callable) == Val(p, s) && Regular(p, s.sub)
  }

  // ---- Partial kwargs -------------------------------------------------------

  function AllNames(slots: seq<Slot>): set<string> {
    set i | 0 <= i < |slots| :: slots[i].name
  }

  /** `kw` binds exactly the slots in `done`, each to what it denotes. */
  ghost predicate Holds(p: Purity, kw: Kwargs, slots: seq<Slot>, done: set<nat>) {
    && kw.Keys <= AllNames(slots)
    && forall i: nat :: i < |slots| ==>
         (slots[i].name in kw <==> i in done) && (i in done ==> kw[slots[i].name] == Val(p, slots[i]))
  }

  lemma HoldsUnique(p: Purity, a: Kwargs, b: Kwargs, slots: seq<Slot>, done: set<nat>)
    requires Holds(p, a, slots, done) && Holds(p, b, slots, done)
    ensures a == b
  {
    assert a.Keys == b.Keys;
  }

  lemma HoldsAdd(p: Purity, kw: Kwargs, slots: seq<Slot>, done: set<nat>, i: nat)
    requires UniqueNames(slots) && Holds(p, kw, slots, done) && i < |slots|
    ensures Holds(p, kw[slots[i].name := Val(p, slots[i])], slots, done + {i})
  {
    assert slots[i].name in AllNames(slots);
  }

  function UpTo(n: nat): (r: set<nat>)
    ensures forall j: nat :: j in r <==> j < n
  {
    if n == 0 then {} else UpTo(n - 1) + {n - 1}
  }

  lemma {:induction false} ValsHold(p: Purity, slots: seq<Slot>)
    requires UniqueNames(slots)
    ensures Holds(p, Vals(p, slots), slots, UpTo(|slots|))
  {
    if slots != [] {
      var n := |slots| - 1;
      var front := slots[..n];
      var kw := Vals(p, front);
      ValsHold(p, front);
      HoldsWider(p, kw, slots, n);
      HoldsAdd(p, kw, slots, UpTo(n), n);
      assert UpTo(n) + {n} == UpTo(n + 1);
      assert Vals(p, slots) == kw[slots[n].name := Val(p, slots[n])];
    }
  }

  lemma HoldsWider(p: Purity, kw: Kwargs, slots: seq<Slot>, n: nat)
    requires n <= |slots| && UniqueNames(slots) && Holds(p, kw, slots[..n], UpTo(n))
    ensures Holds(p, kw, slots, UpTo(n))
  {
    forall i: nat | i < |slots|
      ensures (slots[i].name in kw <==> i < n) && (i < n ==> kw[slots[i].name] == Val(p, slots[i]))
    {
      if i < n {
        assert slots[..n][i] == slots[i];
      }
    }
  }

  // ---- Where a walk has got to ----------------------------------------------

  ghost predicate Passed(waves: seq<seq<nat>>, i: nat) {
    exists j: nat :: j < i && Somewhere(waves, j)
  }

  /** Slots bound when slot `i` is next: all waves at once when their trigger is behind, the rest in order. */
  ghost function DoneAt(plan: Plan, i: nat): set<nat> {
    set j: nat | j < |plan.slots| && (if Somewhere(plan.waves, j) then Passed(plan.waves, i) else j < i)
  }

  ghost predicate Earlier(waves: seq<seq<nat>>, w: nat, j: nat) {
    exists v :: 0 <= v < w && v < |waves| && j in waves[v]
  }

  /** Slots bound when wave `w` runs at its trigger `i`. */
  ghost function DoneIn(plan: Plan, i: nat, w: nat): set<nat> {
    set j: nat | j < |plan.slots| && (if Somewhere(plan.waves, j) then Earlier(plan.waves, w, j) else j < i)
  }

  lemma DoneAtEnd(plan: Plan)
    ensures DoneAt(plan, |plan.slots|) == UpTo(|plan.slots|)
  {
    forall j: nat | j < |plan.slots|
      ensures j in DoneAt(plan, |plan.slots|)
    {
      if Somewhere(plan.waves, j) {
        assert Passed(plan.waves, |plan.slots|);
      }
    }
  }

  lemma DoneAtNext(plan: Plan, i: nat)
    requires i < |plan.slots|
    ensures !Somewhere(plan.waves, i) ==> DoneAt(plan, i + 1) == DoneAt(plan, i) + {i}
    ensures Somewhere(plan.waves, i) && !IsTrigger(plan.waves, i) ==> DoneAt(plan, i + 1) == DoneAt(plan, i)
  {
    if !Somewhere(plan.waves, i) {
      assert Passed(plan.waves, i + 1) <==> Passed(plan.waves, i);
    } else if !IsTrigger(plan.waves, i) {
      assert Passed(plan.waves, i) && Passed(plan.waves, i + 1);
    }
  }

  lemma DoneInFirst(plan: Plan, i: nat)
    requires IsTrigger(plan.waves, i)
    ensures DoneIn(plan, i, 0) == DoneAt(plan, i)
  {
    assert !Passed(plan.waves, i);
  }

  lemma DoneInNext(plan: Plan, i: nat, w: nat)
    requires GoodWaves(plan.slots, plan.waves) && w < |plan.waves|
    ensures DoneIn(plan, i, w + 1) == DoneIn(plan, i, w) + (set j | j in plan.waves[w])
  {
    var wave := plan.waves[w];
    assert GoodWave(plan.slots, wave);
    forall j: nat | j < |plan.slots|
      ensures j in DoneIn(plan, i, w + 1) <==> j in DoneIn(plan, i, w) || j in wave
    {
      if j in wave {
        assert Somewhere(plan.waves, j) && Earlier(plan.waves, w + 1, j);
      } else if Earlier(plan.waves, w + 1, j) {
        var v :| 0 <= v < w + 1 && v < |plan.waves| && j in plan.waves[v];
        assert v < w;
        assert Earlier(plan.waves, w, j);
      } else {
        assert !Earlier(plan.waves, w, j);
      }
    }
    assert forall j :: j in wave ==> j < |plan.slots|;
  }

  lemma DoneInLast(plan: Plan, i: nat)
    requires IsTrigger(plan.waves, i)
    ensures DoneIn(plan, i, |plan.waves|) == DoneAt(plan, i + 1)
  {
    assert Passed(plan.waves, i + 1);
    forall j: nat | Somewhere(plan.waves, j)
      ensures Earlier(plan.waves, |plan.waves|, j)
    {
    }
  }

  lemma MembersCons(wave: seq<nat>, done: set<nat>)
    requires wave != []
    ensures done + (set j | j in wave) == done + {wave[0]} + (set j | j in wave[1..])
  {
  }

  lemma {:induction false} BindWaveHolds(p: Purity, slots: seq<Slot>, wave: seq<nat>, tasks: seq<Task>, kw: Kwargs,
      done: set<nat>)
    requires InRange(slots, wave) && |tasks| == |wave| && UniqueNames(slots) && Holds(p, kw, slots, done)
    requires forall k :: 0 <= k < |tasks| ==> tasks[k] == Finished(Val(p, slots[wave[k]]))
    ensures Holds(p, BindWave(slots, wave, tasks, kw), slots, done + (set j | j in wave))
  {
    if wave == [] {
      assert done + (set j | j in wave) == done;
    } else {
      var kw1 := kw[slots[wave[0]].name := tasks[0].value];
      HoldsAdd(p, kw, slots, done, wave[0]);
      assert InRange(slots, wave[1..]) && tasks[0] == Finished(Val(p, slots[wave[0]]));
      BindWaveHolds(p, slots, wave[1..], tasks[1..], kw1, done + {wave[0]});
      MembersCons(wave, done);
    }
  }

  // ---- The invariant --------------------------------------------------------

  ghost predicate CacheRight(p: Purity, cache: map<Key, Value>) {
    forall k :: k in cache ==> cache[k] == p.meaning(k.callable)
  }

  ghost predicate RightTask(p: Purity, t: Task, slot: Slot)
    decreases t
  {
    && RegularSlot(p, slot)
    && match t
       case Start(s) => s == slot
       case Args(s, key, body) => s == slot && key.callable == slot.callable && body.plan == slot.sub
           && RightBody(p, body)
       case Calling(s, key, kw) => s == slot && key.callable == slot.callable && kw == Vals(p, slot.sub.slots)
       case Finished(v) => v == Val(p, slot)
       case Failed(s, key, body) =>
         s == slot && key.callable == slot.callable && body.plan == slot.sub && RightBody(p, body)
  }

  ghost predicate RightBody(p: Purity, b: Body)
    decreases b
  {
    var slots := b.plan.slots;
    var waves := b.plan.waves;
    && Regular(p, b.plan)
    && match b
       case Walk(plan, i, kw) => i <= |slots| && Holds(p, kw, slots, DoneAt(plan, i))
       case Single(plan, i, kw, t) =>
         i < |slots| && !Somewhere(waves, i) && Holds(p, kw, slots, DoneAt(plan, i)) && RightTask(p, t, slots[i])
       case Gather(plan, i, kw, w, ts) =>
         && i < |slots| && IsTrigger(waves, i) && w < |waves| && |ts| == |waves[w]| && InRange(slots, waves[w])
         && Holds(p, kw, slots, DoneIn(plan, i, w))
         && forall k :: 0 <= k < |ts| ==> RightTask(p, ts[k], slots[waves[w][k]])
       case Bound(_, kw) => kw == Vals(p, slots)
       case Rejected(_) => true
  }

  ghost predicate PureSemantics(sem: Semantics, p: Purity) {
    && (forall c, kw, v :: sem.calls(c, kw, v) ==> v == p.f(c, kw))
    && (forall s, v :: sem.binds(s, v) ==> v == p.env(s))
  }

  lemma {:induction false} TaskStepRight(p: Purity, sem: Semantics, t: Task, slot: Slot, s: Shared, t': Task,
      s': Shared)
    requires PureSemantics(sem, p) && GoodTask(t) && RightTask(p, t, slot) && CacheRight(p, s.cache)
    requires TaskStep(sem, t, s, t', s')
    ensures RightTask(p, t', slot) && CacheRight(p, s'.cache)
    decreases t
  {
    match t
    case Start(_) =>
      if t'.Args? {
        FreshWalk(p, slot.sub);
      }
    case Args(_, key, body) =>
      if t'.Args? {
        BodyStepRight(p, sem, body, s, t'.body, s');
      }
    case Calling(_, _, _) =>
    case Failed(_, _, body) => BodyStepRight(p, sem, body, s, t'.body, s');
  }

  lemma FreshWalk(p: Purity, plan: Plan)
    requires Regular(p, plan)
    ensures RightBody(p, Walk(plan, 0, map[]))
  {
    assert DoneAt(plan, 0) == {};
  }

  lemma {:induction false} BodyStepRight(p: Purity, sem: Semantics, b: Body, s: Shared, b': Body, s': Shared)
    requires PureSemantics(sem, p) && GoodBody(b) && RightBody(p, b) && CacheRight(p, s.cache)
    requires BodyStep(sem, b, s, b', s')
    ensures RightBody(p, b') && CacheRight(p, s'.cache)
    decreases b, 1
  {
    match b
    case Walk(plan, i, kw) => WalkStepRight(p, sem, b, s, b');
    case Single(plan, i, kw, t) =>
      if t.Finished? {
        SingleDoneRight(p, plan, i, kw, t);
      } else {
        TaskStepRight(p, sem, t, b.plan.slots[i], s, b'.task, s');
      }
    case Gather(plan, i, kw, w, ts) =>
      if AllFinished(ts) {
        GatherDoneRight(p, sem, b, s, b');
      } else {
        GatherStepRight(p, sem, b, s, b', s');
      }
  }

  lemma {:induction false} GatherStepRight(p: Purity, sem: Semantics, b: Body, s: Shared, b': Body, s': Shared)
    requires PureSemantics(sem, p) && GoodBody(b) && RightBody(p, b) && CacheRight(p, s.cache)
    requires BodyStep(sem, b, s, b', s') && b.Gather? && !AllFinished(b.tasks)
    ensures RightBody(p, b') && CacheRight(p, s'.cache)
    decreases b, 0
  {
    var ts := b.tasks;
    var k :| 0 <= k < |ts| && b' == b.(tasks := ts[k := b'.tasks[k]]) && TaskStep(sem, ts[k], s, b'.tasks[k], s');
    TaskStepRight(p, sem, ts[k], b.plan.slots[b.plan.waves[b.w][k]], s, b'.tasks[k], s');
    TaskReplaced(p, b, k, b'.tasks[k]);
  }

  lemma TaskReplaced(p: Purity, b: Body, k: nat, t: Task)
    requires b.Gather? && RightBody(p, b) && k < |b.tasks| && RightTask(p, t, b.plan.slots[b.plan.waves[b.w][k]])
    ensures RightBody(p, b.(tasks := b.tasks[k := t]))
  {
  }

  lemma SingleDoneRight(p: Purity, plan: Plan, i: nat, kw: Kwargs, t: Task)
    requires RightBody(p, Single(plan, i, kw, t)) && t.Finished?
    ensures RightBody(p, Walk(plan, i + 1, kw[plan.slots[i].name := t.value]))
  {
    HoldsAdd(p, kw, plan.slots, DoneAt(plan, i), i);
    DoneAtNext(plan, i);
  }

  lemma StartAllRight(p: Purity, plan: Plan, w: nat)
    requires Regular(p, plan) && GoodWaves(plan.slots, plan.waves) && w < |plan.waves|
      && InRange(plan.slots, plan.waves[w])
    ensures var ts := StartAll(plan.slots, plan.waves[w]);
            forall k :: 0 <= k < |ts| ==> RightTask(p, ts[k], plan.slots[plan.waves[w][k]])
  {
    assert GoodWave(plan.slots, plan.waves[w]);
  }

  lemma WaveMembersDepend(plan: Plan, i: nat)
    requires GoodWaves(plan.slots, plan.waves) && Somewhere(plan.waves, i)
    ensures i < |plan.slots| && plan.slots[i].DependsSlot?
  {
    var w :| 0 <= w < |plan.waves| && i in plan.waves[w];
    assert GoodWave(plan.slots, plan.waves[w]);
  }

  lemma WalkStepRight(p: Purity, sem: Semantics, b: Body, s: Shared, b': Body)
    requires PureSemantics(sem, p) && GoodBody(b) && b.Walk? && RightBody(p, b) && BodyStep(sem, b, s, b', s)
    ensures RightBody(p, b')
  {
    var plan, i, kw := b.plan, b.i, b.kw;
    var slots := plan.slots;
    if i >= |slots| {
      DoneAtEnd(plan);
      ValsHold(p, slots);
      HoldsUnique(p, kw, Vals(p, slots), slots, UpTo(|slots|));
    } else if !slots[i].DependsSlot? {
      if Somewhere(plan.waves, i) {
        WaveMembersDepend(plan, i);
      }
      DoneAtNext(plan, i);
      HoldsAdd(p, kw, slots, DoneAt(plan, i), i);
    } else if Somewhere(plan.waves, i) {
      if IsTrigger(plan.waves, i) {
        assert GoodWave(slots, plan.waves[0]);
        DoneInFirst(plan, i);
        StartAllRight(p, plan, 0);
      } else {
        DoneAtNext(plan, i);
      }
    }
  }

  /** A wave's results, written in: the next wave may start, or the walk goes on. */
  lemma WaveBound(p: Purity, plan: Plan, i: nat, w: nat, ts: seq<Task>, kw: Kwargs)
    requires Regular(p, plan) && GoodWaves(plan.slots, plan.waves) && w < |plan.waves|
      && InRange(plan.slots, plan.waves[w])
    requires |ts| == |plan.waves[w]| && AllFinished(ts) && Holds(p, kw, plan.slots, DoneIn(plan, i, w))
    requires forall k :: 0 <= k < |ts| ==> RightTask(p, ts[k], plan.slots[plan.waves[w][k]])
    ensures Holds(p, BindWave(plan.slots, plan.waves[w], ts, kw), plan.slots, DoneIn(plan, i, w + 1))
  {
    BindWaveHolds(p, plan.slots, plan.waves[w], ts, kw, DoneIn(plan, i, w));
    DoneInNext(plan, i, w);
  }

  /** Where a walk goes on once wave `w` is bound. */
  function AfterWave(plan: Plan, i: nat, kw: Kwargs, w: nat): Body
    requires w < |plan.waves| && AllInRange(plan.slots, plan.waves)
  {
    if w + 1 < |plan.waves| then Gather(plan, i, kw, w + 1, StartAll(plan.slots, plan.waves[w + 1]))
    else Walk(plan, i + 1, kw)
  }

  lemma GatherDone(sem: Semantics, b: Body, s: Shared, b': Body)
    requires b.Gather? && AllFinished(b.tasks) && AllInRange(b.plan.slots, b.plan.waves) && BodyStep(sem, b, s, b', s)
    ensures b.w < |b.plan.waves| && |b.tasks| == |b.plan.waves[b.w]|
    ensures b' == AfterWave(b.plan, b.i, BindWave(b.plan.slots, b.plan.waves[b.w], b.tasks, b.kw), b.w)
  {
  }

  lemma AfterWaveRight(p: Purity, plan: Plan, i: nat, kw: Kwargs, w: nat)
    requires Regular(p, plan) && GoodWaves(plan.slots, plan.waves) && i < |plan.slots| && IsTrigger(plan.waves, i)
    requires w < |plan.waves| && AllInRange(plan.slots, plan.waves) && Holds(p, kw, plan.slots, DoneIn(plan, i, w + 1))
    ensures RightBody(p, AfterWave(plan, i, kw, w))
  {
    if w + 1 < |plan.waves| {
      NextWaveRight(p, plan, i, kw, w + 1);
    } else {
      LastWaveRight(p, plan, i, kw);
    }
  }

  lemma GatherDoneRight(p: Purity, sem: Semantics, b: Body, s: Shared, b': Body)
    requires GoodBody(b) && b.Gather? && RightBody(p, b) && AllFinished(b.tasks) && BodyStep(sem, b, s, b', s)
    ensures RightBody(p, b')
  {
    assert AllInRange(b.plan.slots, b.plan.waves) by {
      forall w | 0 <= w < |b.plan.waves|
        ensures InRange(b.plan.slots, b.plan.waves[w])
      {
        assert GoodWave(b.plan.slots, b.plan.waves[w]);
      }
    }
    GatherDone(sem, b, s, b');
    WaveBound(p, b.plan, b.i, b.w, b.tasks, b.kw);
    AfterWaveRight(p, b.plan, b.i, BindWave(b.plan.slots, b.plan.waves[b.w], b.tasks, b.kw), b.w);
  }

  lemma NextWaveRight(p: Purity, plan: Plan, i: nat, kw: Kwargs, w: nat)
    requires Regular(p, plan) && GoodWaves(plan.slots, plan.waves) && i < |plan.slots| && IsTrigger(plan.waves, i)
    requires w < |plan.waves| && InRange(plan.slots, plan.waves[w]) && Holds(p, kw, plan.slots, DoneIn(plan, i, w))
    ensures RightBody(p, Gather(plan, i, kw, w, StartAll(plan.slots, plan.waves[w])))
  {
    StartAllRight(p, plan, w);
  }

  lemma LastWaveRight(p: Purity, plan: Plan, i: nat, kw: Kwargs)
    requires Regular(p, plan) && i < |plan.slots| && IsTrigger(plan.waves, i)
    requires Holds(p, kw, plan.slots, DoneIn(plan, i, |plan.waves|))
    ensures RightBody(p, Walk(plan, i + 1, kw))
  {
    DoneInLast(plan, i);
  }

  /** Whatever order the tasks of a run interleave in, the kwargs it finally binds are what the slots denote. */
  lemma {:induction false} RunRight(p: Purity, sem: Semantics, plan: Plan, run: seq<Config>, n: nat)
    requires PureSemantics(sem, p) && Sound(plan) && Regular(p, plan) && IsRun(sem, plan, run) && n < |run|
    ensures RightBody(p, run[n].body) && CacheRight(p, run[n].shared.cache) && run[n].body.plan == plan
  {
    if n == 0 {
      FreshWalk(p, plan);
    } else {
      var before, after := run[n - 1], run[n];
      RunRight(p, sem, plan, run, n - 1);
      EachKeyOnce(sem, plan, run, n - 1);
      assert after.body.plan == plan by {
        BodyStepFair(sem, before.body, before.shared, after.body, after.shared);
      }
      BodyStepRight(p, sem, before.body, before.shared, after.body, after.shared);
    }
  }

  // ---- Against plain slot order ---------------------------------------------

  /** In every world that meets `inv`, a slot that is not a dependency takes its one value, and `inv` still holds. */
  ghost predicate PureParameter(h: Host, p: Purity, inv: World -> bool, s: Slot) {
    forall st: I.State {:trigger I.ResolveSlot(h, s, st)} | inv(st.world) ::
      I.ResolveSlot(h, s, st).0 == Ok(Some(p.env(s))) && inv(I.ResolveSlot(h, s, st).1.world)
  }

  /** In every such world a dependency, generator or not, yields what `f` makes of its arguments. */
  ghost predicate PureCall(h: Host, p: Purity, inv: World -> bool, s: Slot)
    requires s.DependsSlot?
  {
    forall kw, st: I.State {:trigger I.RunCallable(h, s, kw, st)} | inv(st.world) ::
      I.RunCallable(h, s, kw, st).0 == Ok(p.f(s.callable, kw)) && inv(I.RunCallable(h, s, kw, st).1.world)
  }

  /** On this host no dependency or parameter that occurs in the plan ever fails, and no value of one depends on what
      the others do to the world, as long as they keep `inv`. */
  ghost predicate PureOn(h: Host, p: Purity, inv: World -> bool, plan: Plan) {
    forall i | 0 <= i < |plan.slots| ::
      if plan.slots[i].DependsSlot? then PureCall(h, p, inv, plan.slots[i]) && PureOn(h, p, inv, plan.slots[i].sub)
      else PureParameter(h, p, inv, plan.slots[i])
  }

  /** A state whose cache holds only right values, in a world that meets `inv`. */
  ghost predicate StateRight(p: Purity, inv: World -> bool, st: I.State) {
    CacheRight(p, st.cache) && inv(st.world)
  }

  /** Sequential resolution from slot `i` on binds what the slots denote. */
  lemma {:induction false} SlotOrderRight(p: Purity, h: Host, inv: World -> bool, plan: Plan, i: nat, kw: Kwargs,
                                          st: I.State)
    requires PureOn(h, p, inv, plan) && Regular(p, plan) && StateRight(p, inv, st)
    requires i <= |plan.slots| && Holds(p, kw, plan.slots, UpTo(i))
    ensures var (r, st1) := I.ResolveSlots(h, plan.slots[i..], kw, st);
            r == Ok(Vals(p, plan.slots)) && StateRight(p, inv, st1)
    decreases plan, |plan.slots| - i + 2
  {
    if i == |plan.slots| {
      AllSlotsDone(p, h, plan.slots, kw, st);
    } else {
      var v, st1 := NextSlotRight(p, h, inv, plan, i, kw, st);
      SlotOrderRight(p, h, inv, plan, i + 1, kw[plan.slots[i].name := v], st1);
      OneSlot(h, plan.slots, i, kw, st, v, st1);
    }
  }

  /** Slot `i` takes its value, which the kwargs then hold. */
  lemma {:induction false} NextSlotRight(p: Purity, h: Host, inv: World -> bool, plan: Plan, i: nat, kw: Kwargs,
                                         st: I.State) returns (v: Value, st1: I.State)
    requires PureOn(h, p, inv, plan) && Regular(p, plan) && StateRight(p, inv, st)
    requires i < |plan.slots| && Holds(p, kw, plan.slots, UpTo(i))
    ensures I.ResolveSlot(h, plan.slots[i], st) == (Ok(Some(v)), st1) && StateRight(p, inv, st1)
    ensures Holds(p, kw[plan.slots[i].name := v], plan.slots, UpTo(i + 1))
    decreases plan, 1
  {
    v, st1 := Val(p, plan.slots[i]), I.ResolveSlot(h, plan.slots[i], st).1;
    SlotRight(p, h, inv, plan, i, st);
    HoldsNext(p, kw, plan.slots, i);
  }

  lemma AllSlotsDone(p: Purity, h: Host, slots: seq<Slot>, kw: Kwargs, st: I.State)
    requires UniqueNames(slots) && Holds(p, kw, slots, UpTo(|slots|))
    ensures I.ResolveSlots(h, slots[|slots|..], kw, st) == (Ok(Vals(p, slots)), st)
  {
    ValsHold(p, slots);
    HoldsUnique(p, kw, Vals(p, slots), slots, UpTo(|slots|));
  }

  lemma OneSlot(h: Host, slots: seq<Slot>, i: nat, kw: Kwargs, st: I.State, v: Value, st1: I.State)
    requires i < |slots| && I.ResolveSlot(h, slots[i], st) == (Ok(Some(v)), st1)
    ensures I.ResolveSlots(h, slots[i..], kw, st) == I.ResolveSlots(h, slots[i + 1..], kw[slots[i].name := v], st1)
  {
    assert slots[i..][0] == slots[i] && slots[i..][1..] == slots[i + 1..];
  }

  lemma HoldsNext(p: Purity, kw: Kwargs, slots: seq<Slot>, i: nat)
    requires UniqueNames(slots) && i < |slots| && Holds(p, kw, slots, UpTo(i))
    ensures Holds(p, kw[slots[i].name := Val(p, slots[i])], slots, UpTo(i + 1))
  {
    HoldsAdd(p, kw, slots, UpTo(i), i);
    assert UpTo(i) + {i} == UpTo(i + 1);
  }

  lemma {:induction false} SlotRight(p: Purity, h: Host, inv: World -> bool, plan: Plan, i: nat, st: I.State)
    requires PureOn(h, p, inv, plan) && Regular(p, plan) && StateRight(p, inv, st) && i < |plan.slots|
    ensures var (r, st1) := I.ResolveSlot(h, plan.slots[i], st);
            r == Ok(Some(Val(p, plan.slots[i]))) && StateRight(p, inv, st1)
    decreases plan, 0
  {
    if plan.slots[i].DependsSlot? {
      DependsRight(p, h, inv, plan.slots[i], st);
    } else {
      ParameterRight(p, h, inv, plan.slots[i], st);
    }
  }

  lemma ParameterRight(p: Purity, h: Host, inv: World -> bool, s: Slot, st: I.State)
    requires !s.DependsSlot? && PureParameter(h, p, inv, s) && StateRight(p, inv, st)
    ensures var (r, st1) := I.ResolveSlot(h, s, st);
            r == Ok(Some(p.env(s))) && StateRight(p, inv, st1)
  {
    assert I.ResolveSlot(h, s, st).1.cache == st.cache;
  }

  lemma CallRight(p: Purity, h: Host, inv: World -> bool, s: Slot, kw: Kwargs, st: I.State)
    requires s.DependsSlot? && PureCall(h, p, inv, s) && StateRight(p, inv, st)
    ensures var (r, st1) := I.RunCallable(h, s, kw, st);
            r == Ok(p.f(s.callable, kw)) && StateRight(p, inv, st1) && st1.cache == st.cache
  {
    assert I.RunCallable(h, s, kw, st).1.cache == st.cache;
  }

  lemma {:induction false} DependsRight(p: Purity, h: Host, inv: World -> bool, slot: Slot, st: I.State)
    requires slot.DependsSlot? && PureCall(h, p, inv, slot) && PureOn(h, p, inv, slot.sub)
    requires RegularSlot(p, slot) && StateRight(p, inv, st)
    ensures var (r, st1) := I.ExecDepends(h, slot, st);
            r == Ok(Val(p, slot)) && StateRight(p, inv, st1)
    decreases slot
  {
    var inner := st.(scopes := st.scopes + slot.scopes);
    assert slot.sub.slots[0..] == slot.sub.slots;
    SlotOrderRight(p, h, inv, slot.sub, 0, map[], inner);
    DependsFrom(p, h, inv, slot, st);
  }

  /** The arguments resolved, the call and its caching. */
  lemma DependsFrom(p: Purity, h: Host, inv: World -> bool, slot: Slot, st: I.State)
    requires slot.DependsSlot? && PureCall(h, p, inv, slot) && RegularSlot(p, slot) && StateRight(p, inv, st)
    requires var (kw, st1) := I.ResolveSlots(h, slot.sub.slots, map[], st.(scopes := st.scopes + slot.scopes));
             kw == Ok(Vals(p, slot.sub.slots)) && StateRight(p, inv, st1)
    ensures var (r, st1) := I.ExecDepends(h, slot, st);
            r == Ok(Val(p, slot)) && StateRight(p, inv, st1)
  {
    var key := KeyOf(slot, st.scopes);
    if !(slot.useCache && key in st.cache) {
      var (kw, st1) := I.ResolveSlots(h, slot.sub.slots, map[], st.(scopes := st.scopes + slot.scopes));
      CallRight(p, h, inv, slot, kw.value, st1.(scopes := st.scopes));
    }
  }

  /** Injections qualify: a `Response` parameter is bound to the request's one response, created when first met. */
  lemma ResponsePure(h: Host, p: Purity, inv: World -> bool, name: string, r: Value)
    requires p.env(ResponseSlot(name)) == r
    requires forall w | inv(w) ::
      || h.injected(w) == r
      || (h.injected(w) == NoneValue && h.newResponse(w).0 == r
          && inv(h.setInjected(r, h.setStatus(r, 0, h.newResponse(w).1))))
    requires r != NoneValue
    ensures PureParameter(h, p, inv, ResponseSlot(name))
  {
  }

  /** Waves change nothing: for a scope-free graph whose values do not depend on each other's effects, a completed run
      under any interleaving binds exactly the kwargs that resolving the slots one after another binds. */
  lemma WavesMatchSlotOrder(p: Purity, sem: Semantics, h: Host, inv: World -> bool, plan: Plan, run: seq<Config>,
                            w: World)
    requires PureSemantics(sem, p) && PureOn(h, p, inv, plan) && inv(w) && Sound(plan) && Regular(p, plan)
    requires IsRun(sem, plan, run) && run[|run| - 1].body.Bound?
    ensures I.ResolveSlots(h, plan.slots, map[], I.Fresh(w)).0 == Ok(run[|run| - 1].body.kw)
  {
    RunRight(p, sem, plan, run, |run| - 1);
    assert plan.slots[0..] == plan.slots;
    SlotOrderRight(p, h, inv, plan, 0, map[], I.Fresh(w));
  }
}
