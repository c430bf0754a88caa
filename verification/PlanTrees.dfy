/** What the planner asks about a dependency tree, answered by plain recursion over it. */
module PlanTrees {
  import opened Plans

  /** `_slot_parallel_safe`: neither the slot nor anything below it pushes scopes or yields. */
  predicate ParallelSafe(s: Slot)
    requires s.DependsSlot?
  {
    && s.scopes == [] && !s.mode.Generator? && !s.mode.AsyncGenerator?
    && forall i | 0 <= i < |s.sub.slots| :: s.sub.slots[i].DependsSlot? ==> ParallelSafe(s.sub.slots[i])
  }

  /** `_cached_callables`: every cacheable callable at or below a slot. */
  function CachedCallables(s: Slot): set<Callable>
    decreases s, 0
  {
    if s.DependsSlot? then (if s.useCache then {s.callable} else {}) + AllCached(s.sub.slots) else {}
  }

  function AllCached(slots: seq<Slot>): set<Callable>
    decreases slots
  {
    if slots == [] then {} else CachedCallables(slots[0]) + AllCached(slots[1..])
  }

  lemma {:induction false} CachedBelow(slots: seq<Slot>, i: nat)
    requires i < |slots|
    ensures CachedCallables(slots[i]) <= AllCached(slots)
  {
    if i > 0 {
      CachedBelow(slots[1..], i - 1);
    }
  }

  /** `_subgraph_reads_scopes` */
  predicate ReadsScopes(plan: Plan) {
    exists i | 0 <= i < |plan.slots| ::
      plan.slots[i].ScopesSlot? || (plan.slots[i].DependsSlot? && ReadsScopes(plan.slots[i].sub))
  }

  /** Nothing is gathered: neither the plan nor any below it batches a wave. */
  predicate NoWaves(plan: Plan) {
    plan.waves == [] && forall i | 0 <= i < |plan.slots| :: plan.slots[i].DependsSlot? ==> NoWaves(plan.slots[i].sub)
  }

  /** No callable occurs twice on a path from the root, `chain` being the path so far. */
  predicate NoRepeat(plan: Plan, chain: set<Callable>) {
    forall i | 0 <= i < |plan.slots| :: plan.slots[i].DependsSlot? ==>
      plan.slots[i].callable !in chain && NoRepeat(plan.slots[i].sub, chain + {plan.slots[i].callable})
  }

  /** A callable on the path so far is not cached anywhere below. */
  lemma {:induction false} NoRepeatCached(slots: seq<Slot>, waves: seq<seq<nat>>, chain: set<Callable>, c: Callable)
    requires NoRepeat(Plan(slots, waves), chain) && c in chain
    ensures c !in AllCached(slots)
    decreases slots
  {
    if slots != [] {
      var s := slots[0];
      if s.DependsSlot? {
        NoRepeatCached(s.sub.slots, s.sub.waves, chain + {s.callable}, c);
      }
      assert forall i :: 0 <= i < |slots[1..]| ==> slots[1..][i] == slots[i + 1];
      NoRepeatCached(slots[1..], [], chain, c);
    }
  }
}
