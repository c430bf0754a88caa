/** Safety of concurrent waves, over every interleaving. */
module WaveSafety {
  import opened Plans
  import opened PlanTrees
  import opened Waves
  import opened Scheduler

  // ---- Well-formed processes ------------------------------------------------

  ghost predicate SoundSlot(s: Slot) {
    s.DependsSlot? && s.callable !in AllCached(s.sub.slots) && Sound(s.sub)
  }

  /** A task that is running, or has finished, the given slot. */
  predicate TaskFor(t: Task, s: Slot) {
    t.Finished? || t.slot == s
  }

  ghost predicate GoodTask(t: Task)
    decreases t
  {
    match t
    case Start(slot) => SoundSlot(slot)
    case Args(slot, key, body) => SoundSlot(slot) && key.callable == slot.callable && body.plan == slot.sub
        && GoodBody(body)
    case Calling(slot, key, _) => SoundSlot(slot) && key.callable == slot.callable
    case Finished(_) => true
    case Failed(slot, key, body) =>
      && SoundSlot(slot) && key.callable == slot.callable && body.plan == slot.sub
      && GoodBody(body) && (body.Bound? || HasRaised(body))
  }

  ghost predicate GoodBody(b: Body)
    decreases b
  {
    && Sound(b.plan)
    && match b
       case Single(plan, i, _, t) => i < |plan.slots| && TaskFor(t, plan.slots[i]) && GoodTask(t)
       case Gather(plan, _, _, w, ts) =>
         && w < |plan.waves| && |ts| == |plan.waves[w]| && InRange(plan.slots, plan.waves[w])
         && forall k :: 0 <= k < |ts| ==> TaskFor(ts[k], plan.slots[plan.waves[w][k]]) && GoodTask(ts[k])
       case _ => true
  }

  // ---- Keys under computation -----------------------------------------------

  /** Cacheable keys a task has begun and not stored, for good if it has raised. */
  ghost function Busy(t: Task): set<Key>
    decreases t, 0
  {
    match t
    case Args(slot, key, body) => (if slot.DependsSlot? && slot.useCache then {key} else {}) + BusyBody(body)
    case Failed(slot, key, body) => (if slot.DependsSlot? && slot.useCache then {key} else {}) + BusyBody(body)
    case Calling(slot, key, _) => if slot.DependsSlot? && slot.useCache then {key} else {}
    case _ => {}
  }

  ghost function BusyBody(b: Body): set<Key>
    decreases b, 0
  {
    match b
    case Single(_, _, _, t) => Busy(t)
    case Gather(_, _, _, _, ts) => BusyAll(ts)
    case _ => {}
  }

  ghost function BusyAll(ts: seq<Task>): set<Key>
    decreases ts, 0
  {
    if ts == [] then {} else Busy(ts[0]) + BusyAll(ts[1..])
  }

  lemma {:induction false} BusyAllMember(ts: seq<Task>, k: Key)
    ensures k in BusyAll(ts) <==> exists i :: 0 <= i < |ts| && k in Busy(ts[i])
  {
    if ts != [] {
      BusyAllMember(ts[1..], k);
      if k in BusyAll(ts[1..]) {
        var i :| 0 <= i < |ts[1..]| && k in Busy(ts[1..][i]);
        assert k in Busy(ts[i + 1]);
      }
      if exists i :: 0 <= i < |ts| && k in Busy(ts[i]) {
        var i :| 0 <= i < |ts| && k in Busy(ts[i]);
        if i > 0 {
          assert k in Busy(ts[1..][i - 1]);
        }
      }
    }
  }

  /** A task computes only callables cached at or below its slot. */
  lemma {:induction false} BusyWithin(t: Task)
    requires GoodTask(t)
    ensures forall k :: k in Busy(t) ==> !t.Finished? && k.callable in CachedCallables(t.slot)
    decreases t
  {
    if t.Args? || t.Failed? {
      BusyBodyWithin(t.body);
    }
  }

  lemma {:induction false} BusyBodyWithin(b: Body)
    requires GoodBody(b)
    ensures forall k :: k in BusyBody(b) ==> k.callable in AllCached(b.plan.slots)
    decreases b
  {
    match b
    case Single(plan, i, _, t) =>
      BusyWithin(t);
      CachedBelow(plan.slots, i);
    case Gather(plan, _, _, w, ts) =>
      forall k | k in BusyAll(ts)
        ensures k.callable in AllCached(plan.slots)
      {
        BusyAllMember(ts, k);
        var j :| 0 <= j < |ts| && k in Busy(ts[j]);
        BusyWithin(ts[j]);
        CachedBelow(plan.slots, plan.waves[w][j]);
      }
    case _ =>
  }

  // ---- One step -------------------------------------------------------------

  /** Either nothing new is begun, or one key is, and it was neither cached nor under computation. */
  ghost predicate Fair(s: Shared, busy: set<Key>, s': Shared, busy': set<Key>, within: set<Callable>) {
    || (s'.started == s.started && s'.cache.Keys + busy' == s.cache.Keys + busy)
    || (|s'.started| == |s.started| + 1 && s'.cache == s.cache
        && var k := s'.started[|s.started|];
        && s'.started == s.started + [k] && k !in s.cache && k !in busy && k.callable in within && busy' == busy + {k})
  }

  /** A fair step stays fair beside others that compute none of its callables. */
  lemma FairBeside(s: Shared, busy: set<Key>, s': Shared, busy': set<Key>, within: set<Callable>, others: set<Key>,
      wider: set<Callable>)
    requires Fair(s, busy, s', busy', within) && within <= wider
    requires forall k :: k in others ==> k.callable !in within
    ensures Fair(s, busy + others, s', busy' + others, wider)
  {
    if s'.started == s.started {
      assert s'.cache.Keys + (busy' + others) == s.cache.Keys + (busy + others);
    }
  }

  lemma {:induction false} TaskStepFair(sem: Semantics, t: Task, s: Shared, t': Task, s': Shared)
    requires GoodTask(t) && TaskStep(sem, t, s, t', s')
    ensures GoodTask(t') && TaskFor(t', t.slot) && Fair(s, Busy(t), s', Busy(t'), CachedCallables(t.slot))
    decreases t
  {
    match t
    case Start(slot) =>
    case Args(slot, key, body) =>
      if t'.Args? {
        BodyStepFair(sem, body, s, t'.body, s');
        BelowFair(slot, key, body, s, t'.body, s');
      }
    case Calling(slot, key, _) =>
    case Failed(slot, key, body) =>
      BodyStepFair(sem, body, s, t'.body, s');
      RaisedStays(sem, body, s, t'.body, s');
      BelowFair(slot, key, body, s, t'.body, s');
  }

  /** A fair step among the arguments of a call is fair beside the call itself. */
  lemma BelowFair(slot: Slot, key: Key, b: Body, s: Shared, b': Body, s': Shared)
    requires SoundSlot(slot) && key.callable == slot.callable
    requires Fair(s, BusyBody(b), s', BusyBody(b'), AllCached(slot.sub.slots))
    ensures Fair(s, Busy(Args(slot, key, b)), s', Busy(Args(slot, key, b')), CachedCallables(slot))
    ensures Fair(s, Busy(Failed(slot, key, b)), s', Busy(Failed(slot, key, b')), CachedCallables(slot))
  {
    var own := if slot.useCache then {key} else {};
    FairBeside(s, BusyBody(b), s', BusyBody(b'), AllCached(slot.sub.slots), own, CachedCallables(slot));
    assert BusyBody(b) + own == Busy(Args(slot, key, b)) == Busy(Failed(slot, key, b));
    assert BusyBody(b') + own == Busy(Args(slot, key, b')) == Busy(Failed(slot, key, b'));
  }

  /** A walk left by an exception is not taken up again. */
  lemma RaisedStays(sem: Semantics, b: Body, s: Shared, b': Body, s': Shared)
    requires BodyStep(sem, b, s, b', s') && HasRaised(b)
    ensures HasRaised(b')
  {
    if b.Gather? {
      var j :| 0 <= j < |b.tasks| && b.tasks[j].Failed?;
      assert !AllFinished(b.tasks);
      assert b'.tasks[j].Failed?;
    }
  }

  lemma {:induction false} BodyStepFair(sem: Semantics, b: Body, s: Shared, b': Body, s': Shared)
    requires GoodBody(b) && BodyStep(sem, b, s, b', s')
    ensures GoodBody(b') && b'.plan == b.plan && Fair(s, BusyBody(b), s', BusyBody(b'), AllCached(b.plan.slots))
    decreases b, 1
  {
    match b
    case Walk(plan, i, kw) => QuietStep(sem, b, s, b', s');
    case Single(plan, i, kw, t) =>
      if t.Finished? {
        QuietStep(sem, b, s, b', s');
      } else {
        TaskStepFair(sem, t, s, b'.task, s');
        CachedBelow(plan.slots, i);
        FairWider(s, Busy(t), s', Busy(b'.task), CachedCallables(t.slot), AllCached(plan.slots));
      }
    case Gather(plan, i, kw, w, ts) =>
      if AllFinished(ts) {
        QuietStep(sem, b, s, b', s');
      } else {
        WaveStepFair(sem, b, s, b', s');
      }
  }

  /** One task of a wave takes a step. */
  lemma {:induction false} WaveStepFair(sem: Semantics, b: Body, s: Shared, b': Body, s': Shared)
    requires GoodBody(b) && BodyStep(sem, b, s, b', s') && b.Gather? && !AllFinished(b.tasks)
    ensures GoodBody(b') && b'.plan == b.plan && Fair(s, BusyBody(b), s', BusyBody(b'), AllCached(b.plan.slots))
    decreases b, 0
  {
    var ts := b.tasks;
    var k :| 0 <= k < |ts| && b' == b.(tasks := ts[k := b'.tasks[k]]) && TaskStep(sem, ts[k], s, b'.tasks[k], s');
    TaskStepFair(sem, ts[k], s, b'.tasks[k], s');
    GatherStepFair(b.plan, b.w, ts, k, b'.tasks[k], s, s');
    TaskReplacedGood(b, k, b'.tasks[k]);
  }

  lemma TaskReplacedGood(b: Body, k: nat, t: Task)
    requires b.Gather? && GoodBody(b) && k < |b.tasks| && GoodTask(t) && !b.tasks[k].Finished?
    requires TaskFor(t, b.tasks[k].slot)
    ensures GoodBody(b.(tasks := b.tasks[k := t]))
  {
  }

  /** A step of the walk itself begins and ends no computation. */
  lemma QuietStep(sem: Semantics, b: Body, s: Shared, b': Body, s': Shared)
    requires GoodBody(b) && BodyStep(sem, b, s, b', s')
    requires b.Walk? || (b.Single? && b.task.Finished?) || (b.Gather? && AllFinished(b.tasks))
    ensures GoodBody(b') && b'.plan == b.plan && Fair(s, BusyBody(b), s', BusyBody(b'), AllCached(b.plan.slots))
  {
    if b.Gather? {
      FinishedIdle(b.tasks);
    }
    if b'.Gather? {
      StartedIdle(b'.tasks);
      WaveSlotsSound(b.plan, b'.w);
    }
  }

  lemma WaveSlotsSound(plan: Plan, w: nat)
    requires Sound(plan) && w < |plan.waves|
    ensures InRange(plan.slots, plan.waves[w])
    ensures forall k :: 0 <= k < |plan.waves[w]| ==> SoundSlot(plan.slots[plan.waves[w][k]])
  {
    assert GoodWave(plan.slots, plan.waves[w]);
  }

  lemma FairWider(s: Shared, busy: set<Key>, s': Shared, busy': set<Key>, within: set<Callable>, wider: set<Callable>)
    requires Fair(s, busy, s', busy', within) && within <= wider
    ensures Fair(s, busy, s', busy', wider)
  {
  }

  lemma {:induction false} StartedIdle(ts: seq<Task>)
    requires forall k :: 0 <= k < |ts| ==> ts[k].Start?
    ensures BusyAll(ts) == {}
  {
    if ts != [] { StartedIdle(ts[1..]); }
  }

  lemma {:induction false} FinishedIdle(ts: seq<Task>)
    requires AllFinished(ts)
    ensures BusyAll(ts) == {}
  {
    if ts != [] { FinishedIdle(ts[1..]); }
  }

  /** What the other tasks of a wave are computing. */
  ghost function Others(ts: seq<Task>, k: nat): set<Key>
    requires k < |ts|
  {
    BusyAll(ts[..k] + ts[k + 1..])
  }

  lemma BusyAllSplit(ts: seq<Task>, k: nat)
    requires k < |ts|
    ensures BusyAll(ts) == Busy(ts[k]) + Others(ts, k)
  {
    var rest := ts[..k] + ts[k + 1..];
    forall key
      ensures key in BusyAll(ts) <==> key in Busy(ts[k]) + BusyAll(rest)
    {
      BusyAllMember(ts, key);
      BusyAllMember(rest, key);
      if key in BusyAll(rest) {
        var i :| 0 <= i < |rest| && key in Busy(rest[i]);
        assert key in Busy(ts[if i < k then i else i + 1]);
      }
      if key in BusyAll(ts) {
        var i :| 0 <= i < |ts| && key in Busy(ts[i]);
        if i != k {
          assert rest[if i < k then i else i - 1] == ts[i];
        }
      }
    }
  }

  /** What the other tasks of a wave compute, the stepping one never does. */
  lemma OthersDisjoint(plan: Plan, w: nat, ts: seq<Task>, k: nat, key: Key)
    requires Sound(plan) && w < |plan.waves| && |ts| == |plan.waves[w]| && k < |ts|
      && InRange(plan.slots, plan.waves[w])
    requires forall j :: 0 <= j < |ts| ==> TaskFor(ts[j], plan.slots[plan.waves[w][j]]) && GoodTask(ts[j])
    requires !ts[k].Finished? && key in Others(ts, k)
    ensures key.callable !in CachedCallables(ts[k].slot)
  {
    var wave := plan.waves[w];
    var rest := ts[..k] + ts[k + 1..];
    BusyAllMember(rest, key);
    var i :| 0 <= i < |rest| && key in Busy(rest[i]);
    var j := if i < k then i else i + 1;
    assert rest[i] == ts[j];
    BusyWithin(ts[j]);
    assert GoodWave(plan.slots, wave);
    assert CachedCallables(plan.slots[wave[j]]) !! CachedCallables(plan.slots[wave[k]]);
  }

  /** Tasks of one wave compute disjoint callables, so one of them stepping cannot clash with the rest. */
  lemma GatherStepFair(plan: Plan, w: nat, ts: seq<Task>, k: nat, t': Task, s: Shared, s': Shared)
    requires Sound(plan) && w < |plan.waves| && |ts| == |plan.waves[w]| && k < |ts|
      && InRange(plan.slots, plan.waves[w])
    requires forall j :: 0 <= j < |ts| ==> TaskFor(ts[j], plan.slots[plan.waves[w][j]]) && GoodTask(ts[j])
    requires !ts[k].Finished? && Fair(s, Busy(ts[k]), s', Busy(t'), CachedCallables(ts[k].slot))
    ensures Fair(s, BusyAll(ts), s', BusyAll(ts[k := t']), AllCached(plan.slots))
  {
    var ts' := ts[k := t'];
    BusyAllSplit(ts, k);
    BusyAllSplit(ts', k);
    assert ts'[..k] + ts'[k + 1..] == ts[..k] + ts[k + 1..];
    forall key | key in Others(ts, k)
      ensures key.callable !in CachedCallables(ts[k].slot)
    {
      OthersDisjoint(plan, w, ts, k, key);
    }
    CachedBelow(plan.slots, plan.waves[w][k]);
    FairBeside(s, Busy(ts[k]), s', Busy(t'), CachedCallables(ts[k].slot), Others(ts, k), AllCached(plan.slots));
  }

  // ---- Whole runs -----------------------------------------------------------

  predicate NoDuplicates(keys: seq<Key>) {
    forall i, j :: 0 <= i < j < |keys| ==> keys[i] != keys[j]
  }

  ghost predicate OnceInvariant(c: Config) {
    && GoodBody(c.body) && NoDuplicates(c.shared.started)
    && forall k :: k in c.shared.started ==> k in c.shared.cache.Keys + BusyBody(c.body)
  }

  lemma OnceStep(sem: Semantics, c: Config, c': Config)
    requires OnceInvariant(c) && BodyStep(sem, c.body, c.shared, c'.body, c'.shared)
    ensures OnceInvariant(c')
  {
    BodyStepFair(sem, c.body, c.shared, c'.body, c'.shared);
    FairOnce(c.shared, BusyBody(c.body), c'.shared, BusyBody(c'.body), AllCached(c.body.plan.slots));
  }

  lemma FairOnce(s: Shared, busy: set<Key>, s': Shared, busy': set<Key>, within: set<Callable>)
    requires Fair(s, busy, s', busy', within) && NoDuplicates(s.started)
    requires forall k :: k in s.started ==> k in s.cache.Keys + busy
    ensures NoDuplicates(s'.started) && forall k :: k in s'.started ==> k in s'.cache.Keys + busy'
  {
    if |s'.started| == |s.started| + 1 {
      var k := s'.started[|s.started|];
      assert k !in s.started;
      forall i, j | 0 <= i < j < |s'.started|
        ensures s'.started[i] != s'.started[j]
      {
        assert s'.started[i] == s.started[i];
        assert s'.started[i] in s.started;
      }
    }
  }

  /** At most once: under every interleaving of the gathered tasks, each cache key is computed at most once. */
  lemma {:induction false} EachKeyOnce(sem: Semantics, plan: Plan, run: seq<Config>, n: nat)
    requires Sound(plan) && IsRun(sem, plan, run) && n < |run|
    ensures OnceInvariant(run[n]) && NoDuplicates(run[n].shared.started)
  {
    if n > 0 {
      EachKeyOnce(sem, plan, run, n - 1);
      OnceStep(sem, run[n - 1], run[n]);
    }
  }
}
