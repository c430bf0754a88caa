/** `DependencyResolver` itself: the per-request object whose fields the resolution updates in place. */
module Resolver {
  import opened Wrappers
  import opened Plans
  import opened Hosts
  import opened PlanTrees
  import opened Codegen
  import opened CompilerCorrectness
  import I = Interpreter

  class DependencyResolver {
    const host: Host
    var cache: map<Key, Value>
    var teardowns: seq<Teardown>
    var scopeStack: seq<string>
    var log: seq<Call>
    var world: World

    constructor (host: Host, world: World)
      ensures this.host == host && View() == I.Fresh(world)
    {
      this.host, this.world := host, world;
      cache, teardowns, scopeStack, log := map[], [], [], [];
    }

    ghost function View(): I.State
      reads this
    {
      I.State(cache, scopeStack, teardowns, log, world)
    }

    /** `reset`: nothing of an earlier resolve survives, apart from the world it changed. */
    method Reset()
      modifies this
      ensures View() == I.Fresh(old(world))
    {
      cache, teardowns, scopeStack, log := map[], [], [], [];
    }

    /** `_resolve_slots`, for a plan that batches no waves; the waves themselves are the scheduler's. */
    method ResolveSlots(plan: Plan) returns (r: Result<Kwargs, Exc>)
      requires NoWaves(plan)
      modifies this
      ensures (r, View()) == I.ResolveSlots(host, plan.slots, map[], old(View()))
      decreases plan
    {
      var slots := plan.slots;
      var kwargs: Kwargs := map[];
      for i := 0 to |slots|
        invariant I.ResolveSlots(host, slots, map[], old(View())) == I.ResolveSlots(host, slots[i..], kwargs, View())
      {
        var slot := slots[i];
        assert slots[i..][0] == slot && slots[i..][1..] == slots[i + 1..];
        match slot {
          case RequestSlot(name, _) => kwargs := kwargs[name := RequestValue];
          case BackgroundSlot(name) =>
            var (v, w) := I.BindBackground(host, world);
            world := w;
            kwargs := kwargs[name := v];
          case ResponseSlot(name) =>
            var (v, w) := I.BindResponse(host, world);
            world := w;
            kwargs := kwargs[name := v];
          case ScopesSlot(name) => kwargs := kwargs[name := ScopesValue(scopeStack)];
          case ScalarSlot(name, s) =>
            var (v, w) := I.ResolveScalar(host, name, s, world);
            world := w;
            if v.Err? { return Err(v.error); }
            kwargs := kwargs[name := v.value];
          case MarkerSlot(name, m) =>
            var (v, w) := I.ResolveMarker(host, name, m, world);
            world := w;
            if v.Err? { return Err(v.error); }
            kwargs := kwargs[name := v.value];
          case DependsSlot(name, _, _, _, _, _, _) =>
            var v := ExecDepends(slot);
            if v.Err? { return Err(v.error); }
            kwargs := kwargs[name := v.value];
          case OtherSlot(name, _) =>
            var (v, w) := host.resolveOther(slot, world);
            world := w;
            if v.Err? { return Err(v.error); }
            kwargs := I.Bind(kwargs, name, v.value);
        }
      }
      r := Ok(kwargs);
    }

    /** `_exec_depends`, with no overrides. */
    method ExecDepends(slot: Slot) returns (r: Result<Value, Exc>)
      requires slot.DependsSlot? && NoWaves(slot.sub)
      modifies this
      ensures (r, View()) == I.ExecDepends(host, slot, old(View()))
      decreases slot, 0
    {
      var key := if slot.scopeSensitive then ScopedKey(slot.callable, SetOf(scopeStack) + SetOf(slot.scopes))
                 else PlainKey(slot.callable);
      if slot.useCache && key in cache {
        return Ok(cache[key]);
      }
      scopeStack := scopeStack + slot.scopes;
      var kwargs := ResolveSlots(slot.sub);
      ScopesRestored(host, slot.sub.slots, map[], old(View()).(scopes := old(scopeStack) + slot.scopes));
      scopeStack := scopeStack[..|scopeStack| - |slot.scopes|];
      assert scopeStack == old(scopeStack);
      if kwargs.Err? {
        return Err(kwargs.error);
      }
      var (made, w1) := host.invoke(slot.mode, slot.callable, kwargs.value, world);
      log, world := log + [Invoke(slot.mode, slot.callable, kwargs.value)], w1;
      if made.Err? {
        return made;
      }
      var result := made.value;
      if slot.mode.Generator? || slot.mode.AsyncGenerator? {
        var isAsync := slot.mode.AsyncGenerator?;
        var (got, w2) := host.advance(isAsync, made.value, world);
        log, world := log + [Advance(isAsync, made.value)], w2;
        if got.Err? {
          return Err(if got.error == Stop(isAsync) then NoYield(slot.callable) else got.error);
        }
        teardowns := teardowns + [Teardown(isAsync, made.value)];
        result := got.value;
      }
      if slot.useCache {
        cache := cache[key := result];
      }
      r := Ok(result);
    }

    /** `resolve_plan` with no route dependencies, overrides or MCP context: whichever of the two compiled
        forms applies is used, and the caller cannot tell. */
    method ResolvePlan(plan: Plan) returns (r: Result<Kwargs, Exc>)
      requires NoWaves(plan)
      modifies this
      ensures (r, teardowns, log, world) ==
              var (kw, st) := I.ResolveSlots(host, plan.slots, map[], I.Fresh(old(world)));
              (kw, st.teardowns, st.log, st.world)
    {
      Reset();
      var params := CompileParams(plan);
      var graph := CompileGraph(plan);
      if params.Some? {
        CompiledParamsCorrect(host, plan, world);
        var (got, m) := CallCompiled(host, params.value, teardowns, log, world);
        teardowns, log, world := m.teardowns, m.log, m.world;
        r := got;
      } else if graph.Some? {
        CompiledGraphCorrect(host, plan, world);
        var (got, m) := CallCompiled(host, graph.value, teardowns, log, world);
        teardowns, log, world := m.teardowns, m.log, m.world;
        r := got;
      } else {
        r := ResolveSlots(plan);
      }
    }

    /** `run_teardowns`: drain the stack in reverse, running every generator whatever `Exception` the others raise;
        anything fatal escapes at once and leaves the rest of the stack. */
    method RunTeardowns(finish: Finisher, exc: Option<Exc>) returns (r: Teardowns, resumed: seq<Teardown>)
      modifies this`teardowns, this`world
      ensures (r, world) == Finish(finish, exc, Reverse(old(teardowns)), old(world), [])
      ensures resumed + Reverse(teardowns) == Reverse(old(teardowns))
      ensures r.Ran? ==> teardowns == []
      ensures r.Escaped? ==>
        resumed != [] && FirstFatal(Outcomes(finish, exc, Reverse(old(teardowns)), old(world)), |resumed| - 1)
    {
      resumed := [];
      var failures: seq<Exc> := [];
      ghost var all := Reverse(teardowns);
      DrainStart(finish, exc, all, world);
      while teardowns != []
        invariant all == resumed + Reverse(teardowns)
        invariant Draining(finish, exc, all, old(world), |resumed|, world, failures)
        decreases |teardowns|
      {
        var t := teardowns[|teardowns| - 1];
        ghost var n := |resumed|;
        ReverseLast(teardowns);
        Shifted(resumed, t, Reverse(teardowns[..|teardowns| - 1]));
        assert all[n] == t;
        DrainStep(finish, exc, all, old(world), n, world, failures);
        teardowns := teardowns[..|teardowns| - 1];
        var (outcome, w) := finish(t, exc, world);
        world := w;
        resumed := resumed + [t];
        assert |resumed| == n + 1 && all == resumed + Reverse(teardowns);
        if outcome.Some? && outcome.value.Fatal? {
          return Escaped(outcome.value), resumed;
        }
        if Reported(t, exc, outcome) {
          failures := failures + [outcome.value];
        }
      }
      DrainEnd(finish, exc, all, old(world), world, failures);
      r := Ran(failures);
    }
  }

  /** The scope stack a resolution leaves is the one it was given, on success and on failure. */
  lemma {:induction false} ScopesRestored(h: Host, slots: seq<Slot>, kw: Kwargs, st: I.State)
    ensures I.ResolveSlots(h, slots, kw, st).1.scopes == st.scopes
    decreases slots
  {
    if slots != [] {
      var (r, st1) := I.ResolveSlot(h, slots[0], st);
      SlotScopesRestored(h, slots[0], st);
      if r.Ok? {
        ScopesRestored(h, slots[1..], I.Bind(kw, slots[0].name, r.value), st1);
      }
    }
  }

  lemma SlotScopesRestored(h: Host, slot: Slot, st: I.State)
    ensures I.ResolveSlot(h, slot, st).1.scopes == st.scopes
  {
    if slot.DependsSlot? {
      assert I.ExecDepends(h, slot, st).1.scopes == st.scopes;
    }
  }

  function Reverse<T>(s: seq<T>): seq<T> {
    if s == [] then [] else Reverse(s[1..]) + [s[0]]
  }

  lemma {:induction false} ReverseLast<T>(s: seq<T>)
    requires s != []
    ensures Reverse(s) == [s[|s| - 1]] + Reverse(s[..|s| - 1])
  {
    if |s| > 1 {
      ReverseLast(s[1..]);
      assert s[1..][..|s| - 2] == s[..|s| - 1][1..];
      assert s[..|s| - 1] != [] && s[..|s| - 1][0] == s[0];
    }
  }

  /** Resuming or throwing into one generator: what comes out, if it does not just end. */
  type Finisher = (Teardown, Option<Exc>, World) -> (Option<Exc>, World)

  datatype Teardowns = Ran(failures: seq<Exc>) | Escaped(exc: Exc)

  /** Neither exhaustion nor the request's own exception coming back. */
  predicate Reported(t: Teardown, exc: Option<Exc>, outcome: Option<Exc>) {
    outcome.Some? && outcome.value != Stop(t.isAsync) && outcome != exc
  }

  /** Resuming generators in the given order, their failures collected after `failures`. */
  function Finish(finish: Finisher, exc: Option<Exc>, ts: seq<Teardown>, w: World, failures: seq<Exc>)
    : (Teardowns, World)
  {
    if ts == [] then (Ran(failures), w)
    else
      var (outcome, w1) := finish(ts[0], exc, w);
      if outcome.Some? && outcome.value.Fatal? then (Escaped(outcome.value), w1)
      else Finish(finish, exc, ts[1..], w1, if Reported(ts[0], exc, outcome) then failures + [outcome.value]
          else failures)
  }

  lemma FinishFirst(finish: Finisher, exc: Option<Exc>, t: Teardown, rest: seq<Teardown>, w: World, failures: seq<Exc>)
    ensures
      var (outcome, w1) := finish(t, exc, w);
      Finish(finish, exc, [t] + rest, w, failures) ==
      if outcome.Some? && outcome.value.Fatal? then (Escaped(outcome.value), w1)
      else Finish(finish, exc, rest, w1, if Reported(t, exc, outcome) then failures + [outcome.value] else failures)
  {
    assert ([t] + rest)[1..] == rest;
  }

  /** What comes out of each generator, resumed in the given order and each given `exc`. */
  function Outcomes(finish: Finisher, exc: Option<Exc>, ts: seq<Teardown>, w: World): (os: seq<Option<Exc>>)
    ensures |os| == |ts|
  {
    if ts == [] then []
    else
      var (outcome, w1) := finish(ts[0], exc, w);
      [outcome] + Outcomes(finish, exc, ts[1..], w1)
  }

  predicate IsFatal(outcome: Option<Exc>) {
    outcome.Some? && outcome.value.Fatal?
  }

  /** `n` is the first fatal outcome. */
  predicate FirstFatal(os: seq<Option<Exc>>, n: nat) {
    n < |os| && IsFatal(os[n]) && forall i :: 0 <= i < n ==> !IsFatal(os[i])
  }

  /** Neither a quiet end, nor the generator's own exhaustion, nor the request's exception coming back. */
  predicate IsFailure(t: Teardown, exc: Option<Exc>, outcome: Option<Exc>) {
    outcome != None && outcome != exc && outcome != Some(Stop(t.isAsync))
  }

  function FailuresBelow(ts: seq<Teardown>, exc: Option<Exc>, os: seq<Option<Exc>>, n: nat): (c: nat)
    requires n <= |os| == |ts|
    ensures c <= n
  {
    if n == 0 then 0 else FailuresBelow(ts, exc, os, n - 1) + if IsFailure(ts[n - 1], exc, os[n - 1]) then 1 else 0
  }

  /** `failures` are exactly those of the first `n` outcomes, in order. */
  predicate AreFailures(ts: seq<Teardown>, exc: Option<Exc>, os: seq<Option<Exc>>, n: nat, failures: seq<Exc>)
    requires n <= |os| == |ts|
  {
    && |failures| == FailuresBelow(ts, exc, os, n)
    && forall i :: 0 <= i < n && IsFailure(ts[i], exc, os[i]) ==>
         var c := FailuresBelow(ts, exc, os, i);
         c < |failures| && os[i] == Some(failures[c])
  }

  lemma FailuresNext(ts: seq<Teardown>, exc: Option<Exc>, os: seq<Option<Exc>>, n: nat, failures: seq<Exc>)
    requires n < |os| == |ts| && AreFailures(ts, exc, os, n, failures)
    ensures AreFailures(ts, exc, os, n + 1, if Reported(ts[n], exc, os[n]) then failures + [os[n].value] else failures)
  {
    assert Reported(ts[n], exc, os[n]) <==> IsFailure(ts[n], exc, os[n]);
  }

  lemma OutcomesFirst(finish: Finisher, exc: Option<Exc>, ts: seq<Teardown>, w: World, os: seq<Option<Exc>>, n: nat)
    requires n < |os| == |ts| && os[n..] == Outcomes(finish, exc, ts[n..], w)
    ensures os[n] == finish(ts[n], exc, w).0
    ensures os[n + 1..] == Outcomes(finish, exc, ts[n + 1..], finish(ts[n], exc, w).1)
  {
    assert ts[n..][0] == ts[n] && ts[n..][1..] == ts[n + 1..];
    assert os[n] == os[n..][0] && os[n + 1..] == os[n..][1..];
  }

  /** After `n` generators, nothing fatal yet: what is still to come, and the failures so far. */
  ghost predicate Draining(finish: Finisher, exc: Option<Exc>, ts: seq<Teardown>, start: World, n: nat, w: World,
                           failures: seq<Exc>)
  {
    var os := Outcomes(finish, exc, ts, start);
    && n <= |ts|
    && Finish(finish, exc, ts, start, []) == Finish(finish, exc, ts[n..], w, failures)
    && os[n..] == Outcomes(finish, exc, ts[n..], w)
    && (forall i :: 0 <= i < n ==> !IsFatal(os[i]))
    && AreFailures(ts, exc, os, n, failures)
  }

  lemma DrainStart(finish: Finisher, exc: Option<Exc>, ts: seq<Teardown>, w: World)
    ensures Draining(finish, exc, ts, w, 0, w, [])
  {
    assert ts[0..] == ts && Outcomes(finish, exc, ts, w)[0..] == Outcomes(finish, exc, ts, w);
  }

  lemma DrainStep(finish: Finisher, exc: Option<Exc>, ts: seq<Teardown>, start: World, n: nat, w: World,
                  failures: seq<Exc>)
    requires Draining(finish, exc, ts, start, n, w, failures) && n < |ts|
    ensures var (o, w1) := finish(ts[n], exc, w);
      if IsFatal(o) then
        && FirstFatal(Outcomes(finish, exc, ts, start), n) && Outcomes(finish, exc, ts, start)[n] == o
        && Finish(finish, exc, ts, start, []) == (Escaped(o.value), w1)
      else
        Draining(finish, exc, ts, start, n + 1, w1, if Reported(ts[n], exc, o) then failures + [o.value] else failures)
  {
    var os := Outcomes(finish, exc, ts, start);
    OutcomesFirst(finish, exc, ts, w, os, n);
    FailuresNext(ts, exc, os, n, failures);
    assert ts[n..] == [ts[n]] + ts[n + 1..];
    FinishFirst(finish, exc, ts[n], ts[n + 1..], w, failures);
  }

  lemma DrainEnd(finish: Finisher, exc: Option<Exc>, ts: seq<Teardown>, start: World, w: World, failures: seq<Exc>)
    requires Draining(finish, exc, ts, start, |ts|, w, failures)
    ensures Finish(finish, exc, ts, start, []) == (Ran(failures), w)
  {
    assert ts[|ts|..] == [];
  }

  lemma Shifted(done: seq<Teardown>, t: Teardown, left: seq<Teardown>)
    ensures done + ([t] + left) == done + [t] + left && (done + ([t] + left))[|done|] == t
  {
  }

  /** Draining ends with the first fatal outcome; when there is none, with exactly the failures. */
  lemma FinishExact(finish: Finisher, exc: Option<Exc>, ts: seq<Teardown>, w: World)
    ensures var os, r := Outcomes(finish, exc, ts, w), Finish(finish, exc, ts, w, []).0;
      && (forall n: nat :: FirstFatal(os, n) ==> r == Escaped(os[n].value))
      && ((forall i :: 0 <= i < |os| ==> !IsFatal(os[i])) ==> r.Ran? && AreFailures(ts, exc, os, |os|, r.failures))
  {
    var failures, v := [], w;
    DrainStart(finish, exc, ts, w);
    for n := 0 to |ts|
      invariant Draining(finish, exc, ts, w, n, v, failures)
    {
      DrainStep(finish, exc, ts, w, n, v, failures);
      var (o, v1) := finish(ts[n], exc, v);
      if IsFatal(o) {
        return;
      }
      failures, v := if Reported(ts[n], exc, o) then failures + [o.value] else failures, v1;
    }
    DrainEnd(finish, exc, ts, w, v, failures);
  }
}
