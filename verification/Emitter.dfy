/** The emitter as it runs at registration: one mutable context threaded through the whole tree. */
module Emitter {
  import opened Wrappers
  import opened Plans
  import opened ResolverCode
  import opened Codegen

  /** `_EmitContext`, with the `lines` and `ns` the emitters append to. */
  class EmitContext {
    var n: nat
    var depVars: map<Key, nat>
    var inProgress: set<Key>
    var scopeStack: seq<string>
    var lines: seq<Stmt>
    var ns: Namespace

    constructor ()
      ensures View() == START
    {
      n, depVars, inProgress, scopeStack, lines, ns := 0, map[], {}, [], [], map[];
    }

    ghost function View(): Ctx
      reads this
    {
      Ctx(n, depVars, inProgress, scopeStack, lines, ns)
    }

    /** `_emit_graph_slot`; `ok` is false when `_NotCompilable` was raised. */
    method EmitGraphSlot(slot: Slot, target: Local) returns (ok: bool)
      modifies this
      ensures EmitSlot(slot, target, old(View())) == if ok then Some(View()) else None
      decreases slot, 1
    {
      ok := true;
      match slot {
        case RequestSlot(name, _) => lines := lines + [Put(target, name, RequestE)];
        case BackgroundSlot(name) => lines := lines + EmitBackground(name, target);
        case ResponseSlot(name) => lines := lines + EmitResponse(name, target);
        case ScopesSlot(name) =>
          ns := ns + map[ScopesRef(n) := ScopesConst(scopeStack)];
          lines := lines + [Put(target, name, ScopesE(ScopesRef(n)))];
          n := n + 1;
        case ScalarSlot(name, s) =>
          ns, lines := ns + ScalarConsts(n, s), lines + [EmitScalar(n, name, s, target)];
          n := n + 1;
        case MarkerSlot(name, m) =>
          ns, lines := ns + MarkerConsts(n, m), lines + [EmitMarker(n, name, m, target)];
          n := n + 1;
        case DependsSlot(name, _, _, _, _, _, _) =>
          var v;
          ok, v := EmitDependency(slot);
          if ok {
            lines := lines + [Put(target, name, LocalE(ResultLocal(v)))];
          }
        case OtherSlot(_, _) => ok := false;
      }
    }

    /** `_emit_dep`, with the push and pop of its scopes on the compile-time stack. */
    method EmitDependency(slot: Slot) returns (ok: bool, v: nat)
      requires slot.DependsSlot?
      modifies this
      ensures EmitDep(slot, old(View())) == if ok then Some((v, View())) else None
      decreases slot, 0
    {
      var key := KeyOf(slot, scopeStack);
      if key in depVars {
        return true, depVars[key];
      }
      if key in inProgress {
        return false, 0;
      }
      inProgress := inProgress + {key};
      v, n := n, n + 1;
      ns := ns[FnRef(v) := CallableConst(slot.callable)];
      lines := lines + [NewDict(KwLocal(v))];
      ghost var outer := scopeStack;
      scopeStack := scopeStack + slot.scopes;
      ghost var entered := View();
      assert entered == EnterDep(slot, old(View()));
      for i := 0 to |slot.sub.slots|
        invariant EmitSlots(slot.sub.slots, KwLocal(v), entered) == EmitSlots(slot.sub.slots[i..], KwLocal(v), View())
        invariant scopeStack == outer + slot.scopes
      {
        assert slot.sub.slots[i..][0] == slot.sub.slots[i] && slot.sub.slots[i..][1..] == slot.sub.slots[i + 1..];
        ghost var before := View();
        ok := EmitGraphSlot(slot.sub.slots[i], KwLocal(v));
        if !ok {
          return false, 0;
        }
        EmitSlotScopes(slot.sub.slots[i], KwLocal(v), before);
      }
      scopeStack := scopeStack[..|scopeStack| - |slot.scopes|];
      assert scopeStack == outer;
      ns, lines := ns + MessageConsts(v, slot), lines + EmitCall(v, slot.mode);
      inProgress := inProgress - {key};
      depVars := depVars[key := v];
      ok := true;
    }
  }

  /** The compile-time scope stack after a slot is the one before it. */
  lemma EmitSlotScopes(slot: Slot, target: Local, c: Ctx)
    requires EmitSlot(slot, target, c).Some?
    ensures EmitSlot(slot, target, c).value.scopes == c.scopes
  {
    if slot.DependsSlot? {
      assert EmitDep(slot, c).value.1.scopes == c.scopes;
    }
  }

  /** `compile_graph_resolver` */
  method CompileGraphResolver(plan: Plan) returns (r: Option<Compiled>)
    ensures r == CompileGraph(plan)
  {
    if !Compilable(plan) {
      return None;
    }
    var ctx := new EmitContext();
    for i := 0 to |plan.slots|
      invariant EmitSlots(plan.slots, KLocal, START) == EmitSlots(plan.slots[i..], KLocal, ctx.View())
    {
      assert plan.slots[i..][0] == plan.slots[i] && plan.slots[i..][1..] == plan.slots[i + 1..];
      var ok := ctx.EmitGraphSlot(plan.slots[i], KLocal);
      if !ok {
        return None;
      }
    }
    r := Some(Compiled(ctx.lines, ctx.ns));
  }
}
