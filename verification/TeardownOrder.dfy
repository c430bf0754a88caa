/** From entering to leaving: the generators that wait for teardown are those that were entered, in that order. */
module TeardownOrder {
  import opened Wrappers
  import opened Hosts
  import opened Plans
  import opened Resolver
  import I = Interpreter

  /** The generators whose first step a log shows, in order. */
  function Entered(log: seq<Call>): seq<Teardown> {
    if log == [] then []
    else
      var call := log[|log| - 1];
      Entered(log[..|log| - 1]) + match call
                                  case Invoke(_, _, _) => []
                                  case Advance(isAsync, gen) => [Teardown(isAsync, gen)]
  }

  /** Every generator entered waits; only the last one may have raised instead, and then nothing follows it. */
  predicate Waiting(entered: seq<Teardown>, waiting: seq<Teardown>, ok: bool) {
    waiting == entered || (!ok && entered != [] && waiting == entered[..|entered| - 1])
  }

  lemma EnteredOne(log: seq<Call>, call: Call)
    ensures Entered(log + [call]) == Entered(log) + match call
                                                    case Invoke(_, _, _) => []
                                                    case Advance(isAsync, gen) => [Teardown(isAsync, gen)]
  {
    assert (log + [call])[..|log|] == log;
  }

  lemma CallEnters(h: Host, s: Slot, kw: Kwargs, st: I.State)
    requires s.DependsSlot? && Waiting(Entered(st.log), st.teardowns, true)
    ensures var (r, st1) := I.RunCallable(h, s, kw, st); Waiting(Entered(st1.log), st1.teardowns, r.Ok?)
  {
    var call := Invoke(s.mode, s.callable, kw);
    var (made, w) := h.invoke(s.mode, s.callable, kw, st.world);
    EnteredOne(st.log, call);
    if made.Ok? && (s.mode.Generator? || s.mode.AsyncGenerator?) {
      var step := Advance(s.mode.AsyncGenerator?, made.value);
      EnteredOne(st.log + [call], step);
      StepEnters(h, s, kw, st, made.value);
    } else {
      assert I.RunCallable(h, s, kw, st).1.log == st.log + [call];
    }
  }

  /** A generator that was made: its first step, and its place on the stack when the step yields. */
  lemma StepEnters(h: Host, s: Slot, kw: Kwargs, st: I.State, gen: Value)
    requires s.DependsSlot? && (s.mode.Generator? || s.mode.AsyncGenerator?)
    requires h.invoke(s.mode, s.callable, kw, st.world).0 == Ok(gen)
    ensures var (r, st1) := I.RunCallable(h, s, kw, st);
      var t := Teardown(s.mode.AsyncGenerator?, gen);
      && st1.log == st.log + [Invoke(s.mode, s.callable, kw)] + [Advance(s.mode.AsyncGenerator?, gen)]
      && st1.teardowns == if r.Ok? then st.teardowns + [t] else st.teardowns
  {
    var got := h.advance(s.mode.AsyncGenerator?, gen, h.invoke(s.mode, s.callable, kw, st.world).1).0;
    if got.Ok? {
    }
  }

  lemma {:induction false} DependsEnters(h: Host, s: Slot, st: I.State)
    requires s.DependsSlot? && Waiting(Entered(st.log), st.teardowns, true)
    ensures var (r, st1) := I.ExecDepends(h, s, st); Waiting(Entered(st1.log), st1.teardowns, r.Ok?)
    decreases s, 0
  {
    var inner := st.(scopes := st.scopes + s.scopes);
    SlotsEnter(h, s.sub.slots, map[], inner);
    var (kw, st1) := I.ResolveSlots(h, s.sub.slots, map[], inner);
    if kw.Ok? {
      CallEnters(h, s, kw.value, st1.(scopes := st.scopes));
    }
  }

  lemma {:induction false} SlotsEnter(h: Host, slots: seq<Slot>, kw: Kwargs, st: I.State)
    requires Waiting(Entered(st.log), st.teardowns, true)
    ensures var (r, st1) := I.ResolveSlots(h, slots, kw, st); Waiting(Entered(st1.log), st1.teardowns, r.Ok?)
    decreases slots
  {
    if slots != [] {
      var (r, st1) := I.ResolveSlot(h, slots[0], st);
      if slots[0].DependsSlot? {
        DependsEnters(h, slots[0], st);
      }
      assert Waiting(Entered(st1.log), st1.teardowns, r.Ok?);
      if r.Ok? {
        SlotsEnter(h, slots[1..], I.Bind(kw, slots[0].name, r.value), st1);
      }
    }
  }

  lemma {:induction false} ReverseAt<T>(s: seq<T>, k: nat)
    requires k < |s|
    ensures |Reverse(s)| == |s| && Reverse(s)[k] == s[|s| - 1 - k]
  {
    if |s| > 1 {
      ReverseAt(s[1..], if k < |s| - 1 then k else 0);
    }
  }

  /** Last entered, first left: the generators drained after a resolution are those it entered, from the last one back.
      When it failed, the last one entered may be the one that raised, and is not resumed. */
  lemma LeftInReverse(h: Host, slots: seq<Slot>, w: World, k: nat)
    requires k < |I.ResolveSlots(h, slots, map[], I.Fresh(w)).1.teardowns|
    ensures var (r, st) := I.ResolveSlots(h, slots, map[], I.Fresh(w));
      var entered, order := Entered(st.log), Reverse(st.teardowns);
      && |order| == |st.teardowns| && k < |order|
      && (r.Ok? ==> |order| == |entered| && order[k] == entered[|entered| - 1 - k])
      && (r.Err? ==> |order| <= |entered| <= |order| + 1 && order[k] == entered[|order| - 1 - k])
  {
    SlotsEnter(h, slots, map[], I.Fresh(w));
    ReverseAt(I.ResolveSlots(h, slots, map[], I.Fresh(w)).1.teardowns, k);
  }

  /** Nothing entered is forgotten: a resolution that succeeded leaves as many generators as it entered. */
  lemma NoneForgotten(h: Host, slots: seq<Slot>, w: World)
    ensures var (r, st) := I.ResolveSlots(h, slots, map[], I.Fresh(w));
      var entered := Entered(st.log);
      if r.Ok? then |st.teardowns| == |entered| else |st.teardowns| <= |entered| <= |st.teardowns| + 1
  {
    SlotsEnter(h, slots, map[], I.Fresh(w));
  }
}
