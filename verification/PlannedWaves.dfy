/** The scheduler's guarantees hold of every plan the planner builds. */
module PlannedWaves {
  import opened Wrappers
  import opened Plans
  import opened Hosts
  import opened PlanTrees
  import opened Waves
  import opened Planner
  import opened Scheduler
  import opened WaveSafety
  import opened ScopeIntegrity
  import opened WaveValues
  import I = Interpreter

  lemma MakePlanWaves(slots: seq<Slot>)
    ensures GoodWaves(slots, MakePlan(slots).waves)
  {
    WavesPartition(slots);
    BatchedKeeps(slots, ComputeWaves(slots));
  }

  lemma {:induction false} BuildSound(g: Signatures, c: Callable, chain: seq<Callable>)
    requires DirectIsPlain(g) && Build(g, c, chain).Ok?
    ensures Sound(Build(g, c, chain).value)
    decreases g.Keys - SetFrom(chain)
  {
    var plan := Build(g, c, chain).value;
    MakePlanWaves(plan.slots);
    BuildNoRepeat(g, c, chain);
    forall i | 0 <= i < |plan.slots| && plan.slots[i].DependsSlot?
      ensures plan.slots[i].callable !in AllCached(plan.slots[i].sub.slots) && Sound(plan.slots[i].sub)
    {
      var s := plan.slots[i];
      NoRepeatCached(s.sub.slots, s.sub.waves, SetFrom(chain + [c]) + {s.callable}, s.callable);
      BuildSlotsLength(g, g[c], chain + [c]);
      BuildSlotsAt(g, g[c], chain + [c], i);
      assert c in g.Keys - SetFrom(chain) && c !in g.Keys - SetFrom(chain + [c]);
      BuildSound(g, g[c][i].callable, chain + [c]);
    }
  }

  /** Wave safety for every handler that plans: each cache key computed at most once, each task under its own
      scopes, in every reachable state of every interleaving. */
  lemma PlannedWavesSafe(g: Signatures, handler: Callable, sem: Semantics, run: seq<Config>, n: nat)
    requires DirectIsPlain(g) && Build(g, handler, []).Ok?
    requires IsRun(sem, Build(g, handler, []).value, run) && n < |run|
    ensures NoDuplicates(run[n].shared.started)
    ensures BodySeesOwnScopes(run[n].body, [], run[n].shared.scopes)
  {
    BuildSound(g, handler, []);
    EachKeyOnce(sem, Build(g, handler, []).value, run, n);
    EveryTaskSeesItsScopes(sem, Build(g, handler, []).value, run, n);
  }

  // ---- Determinism ----------------------------------------------------------

  /** A Python signature: parameter names are distinct; and here, none of them reads `SecurityScopes`. */
  predicate ScopeFreeSignatures(g: Signatures) {
    && DistinctNames(g)
    && (forall c, i :: c in g && 0 <= i < |g[c]| && g[c][i].Direct? ==> !g[c][i].slot.ScopesSlot?)
  }

  /** The purity record of a graph: each callable means what its own plan computes. */
  function PurityOf(g: Signatures, f: (Callable, Kwargs) -> Value, env: Slot -> Value): Purity {
    var p := Purity(f, env, c => NoneValue);
    p.(meaning := c => if Build(g, c, []).Ok? then f(c, Vals(p, Build(g, c, []).value.slots)) else NoneValue)
  }

  lemma {:induction false} ValsIgnoreMeaning(p: Purity, q: Purity, slots: seq<Slot>)
    requires p.f == q.f && p.env == q.env
    ensures Vals(p, slots) == Vals(q, slots)
    decreases slots
  {
    if slots != [] {
      var s := slots[|slots| - 1];
      ValsIgnoreMeaning(p, q, slots[..|slots| - 1]);
      if s.DependsSlot? {
        ValsIgnoreMeaning(p, q, s.sub.slots);
      }
    }
  }

  lemma {:induction false} BuildRegular(g: Signatures, c: Callable, chain: seq<Callable>,
      f: (Callable, Kwargs) -> Value,
                                        env: Slot -> Value)
    requires DirectIsPlain(g) && ScopeFreeSignatures(g) && Distinct(chain) && Build(g, c, chain).Ok?
    ensures Regular(PurityOf(g, f, env), Build(g, c, chain).value)
    decreases g.Keys - SetFrom(chain)
  {
    var p := PurityOf(g, f, env);
    var slots := Build(g, c, chain).value.slots;
    if c in g {
      BuildSlotsLength(g, g[c], chain + [c]);
      forall i | 0 <= i < |slots|
        ensures slots[i].name == ParamName(g[c][i]) && !slots[i].ScopesSlot?
        ensures slots[i].DependsSlot? ==> p.meaning(slots[i].callable) == Val(p, slots[i]) && Regular(p, slots[i].sub)
      {
        BuildSlotsAt(g, g[c], chain + [c], i);
        if g[c][i].Edge? {
          var d := g[c][i].callable;
          assert c in g.Keys - SetFrom(chain) && c !in g.Keys - SetFrom(chain + [c]);
          BuildRegular(g, d, chain + [c], f, env);
          BuildAlone(g, d, chain + [c]);
          ValsIgnoreMeaning(p, Purity(f, env, c => NoneValue), slots[i].sub.slots);
        }
      }
    }
  }

  /** For every handler that plans, scope-free and with values that do not depend on each other's effects: whatever
      order its waves interleave in, a completed resolution binds what resolving the slots one after another binds. */
  lemma PlannedWavesMatchSlotOrder(g: Signatures, handler: Callable, f: (Callable, Kwargs) -> Value, env: Slot -> Value,
                                   sem: Semantics, h: Host, inv: World -> bool, run: seq<Config>, w: World)
    requires DirectIsPlain(g) && ScopeFreeSignatures(g) && Build(g, handler, []).Ok?
    requires var p, plan := PurityOf(g, f, env), Build(g, handler, []).value;
      PureSemantics(sem, p) && PureOn(h, p, inv, plan) && inv(w)
    requires IsRun(sem, Build(g, handler, []).value, run) && run[|run| - 1].body.Bound?
    ensures I.ResolveSlots(h, Build(g, handler, []).value.slots, map[], I.Fresh(w)).0 == Ok(run[|run| - 1].body.kw)
  {
    BuildSound(g, handler, []);
    BuildRegular(g, handler, [], f, env);
    WavesMatchSlotOrder(PurityOf(g, f, env), sem, h, inv, Build(g, handler, []).value, run, w);
  }
}
