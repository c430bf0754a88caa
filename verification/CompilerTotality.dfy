/** On planned trees the compiler never gives up half way. */
module CompilerTotality {
  import opened Plans
  import opened PlanTrees
  import opened ResolverCode
  import opened Codegen
  import opened CompilerCorrectness
  import opened Planner

  /** Every dependency under emission is on the path from the root. */
  predicate Pending(c: Ctx, chain: set<Callable>) {
    forall k :: k in c.inProgress ==> k.callable in chain
  }

  lemma {:induction false} EmitSlotsTotal(slots: seq<Slot>, target: Local, c: Ctx, chain: set<Callable>)
    requires AllSupported(slots) && NoRepeat(Plan(slots, []), chain) && Numbered(c) && Pending(c, chain)
    ensures EmitSlots(slots, target, c).Some?
    decreases slots
  {
    if slots != [] {
      var s := slots[0];
      if s.DependsSlot? {
        EmitDepTotal(s, c, chain);
      }
      EmitSlotExtends(s, target, c);
      assert forall i :: 0 <= i < |slots[1..]| ==> slots[1..][i] == slots[i + 1];
      EmitSlotsTotal(slots[1..], target, EmitSlot(s, target, c).value, chain);
    }
  }

  lemma {:induction false} EmitDepTotal(slot: Slot, c: Ctx, chain: set<Callable>)
    requires slot.DependsSlot? && Supported(slot) && Numbered(c) && Pending(c, chain)
    requires slot.callable !in chain && NoRepeat(slot.sub, chain + {slot.callable})
    ensures EmitDep(slot, c).Some?
    decreases slot, 0
  {
    var key := KeyOf(slot, c.scopes);
    if key !in c.depVars {
      assert key !in c.inProgress;
      var c1 := EnterDep(slot, c);
      assert Numbered(c1) && Pending(c1, chain + {slot.callable});
      EmitSlotsTotal(slot.sub.slots, KwLocal(c.n), c1, chain + {slot.callable});
    }
  }

  /** For a planned handler, `compile_graph_resolver` returns a resolver exactly when `_graph_compilable` says so. */
  lemma PlannedCompiles(g: Signatures, handler: Callable)
    requires DirectIsPlain(g) && Build(g, handler, []).Ok?
    ensures var plan := Build(g, handler, []).value;
            CompileGraph(plan).Some? <==> Compilable(plan)
  {
    var plan := Build(g, handler, []).value;
    if Compilable(plan) {
      BuildNoRepeat(g, handler, []);
      EmitSlotsTotal(plan.slots, KLocal, START, SetFrom([] + [handler]));
    }
  }
}
