/** What a planned tree holds: the parameters of every signature on the way, edge by edge, and the scopes they see. */
module PlannedSlots {
  import opened Wrappers
  import opened Hosts
  import opened Plans
  import opened PlanTrees
  import opened Planner
  import I = Interpreter

  // ---- The slots of a plan --------------------------------------------------

  /** Following the dependencies at these positions ends at a `SecurityScopes` parameter. */
  predicate ScopesAt(plan: Plan, path: seq<nat>)
    decreases |path|
  {
    && path != [] && path[0] < |plan.slots|
    && var s := plan.slots[path[0]];
    if |path| == 1 then s.ScopesSlot? else s.DependsSlot? && ScopesAt(s.sub, path[1..])
  }

  lemma {:induction false} ReadsAtPath(plan: Plan) returns (path: seq<nat>)
    requires ReadsScopes(plan)
    ensures ScopesAt(plan, path)
    decreases plan
  {
    var i :| 0 <= i < |plan.slots|
             && (plan.slots[i].ScopesSlot? || (plan.slots[i].DependsSlot? && ReadsScopes(plan.slots[i].sub)));
    path := [i];
    if !plan.slots[i].ScopesSlot? {
      var rest := ReadsAtPath(plan.slots[i].sub);
      path := [i] + rest;
      assert path[1..] == rest;
    }
  }

  lemma {:induction false} PathReads(plan: Plan, path: seq<nat>)
    requires ScopesAt(plan, path)
    ensures ReadsScopes(plan)
    decreases |path|
  {
    if |path| > 1 {
      PathReads(plan.slots[path[0]].sub, path[1..]);
    }
  }

  /** The slot of one parameter: the slot it is, or its edge with the plan of its callable below. */
  ghost predicate SlotOf(g: Signatures, p: Param, s: Slot) {
    match p
    case Direct(slot) => s == slot
    case Edge(name, c, mode, useCache, scopes) =>
      && s.DependsSlot? && s.name == name && s.callable == c && s.mode == mode && s.useCache == useCache
      && s.scopes == scopes && Build(g, c, []) == Ok(s.sub)
      && (s.scopeSensitive <==> exists path :: ScopesAt(s.sub, path))
  }

  /** One slot per parameter, in order. */
  ghost predicate HoldsParams(g: Signatures, c: Callable, slots: seq<Slot>) {
    |slots| == |ParamsOf(g, c)| && forall i :: 0 <= i < |slots| ==> SlotOf(g, ParamsOf(g, c)[i], slots[i])
  }

  /** A planned callable has one slot per parameter, in order. */
  lemma PlanHoldsParams(g: Signatures, c: Callable, chain: seq<Callable>)
    requires Distinct(chain) && Build(g, c, chain).Ok?
    ensures HoldsParams(g, c, Build(g, c, chain).value.slots)
  {
    if c in g {
      var slots := Build(g, c, chain).value.slots;
      BuildSlotsLength(g, g[c], chain + [c]);
      forall i | 0 <= i < |slots|
        ensures SlotOf(g, g[c][i], slots[i])
      {
        BuildSlotsAt(g, g[c], chain + [c], i);
        if g[c][i].Edge? {
          EdgeSlot(g, g[c][i], chain + [c]);
        }
      }
    }
  }

  lemma EdgeSlot(g: Signatures, p: Param, chain: seq<Callable>)
    requires p.Edge? && Distinct(chain) && BuildSlot(g, p, chain).Ok?
    ensures SlotOf(g, p, BuildSlot(g, p, chain).value)
  {
    var s := BuildSlot(g, p, chain).value;
    BuildAlone(g, p.callable, chain);
    if ReadsScopes(s.sub) {
      var path := ReadsAtPath(s.sub);
    }
    if path :| ScopesAt(s.sub, path) {
      PathReads(s.sub, path);
    }
  }

  // ---- The scopes along a path ----------------------------------------------

  /** Where a path of edges from `start` ends. */
  function End(start: Callable, path: seq<Param>): Callable
    requires forall i :: 0 <= i < |path| ==> path[i].Edge?
  {
    if path == [] then start else path[|path| - 1].callable
  }

  /** Each step is an edge in the signature of the callable the step before led to. */
  predicate EdgePath(g: Signatures, start: Callable, path: seq<Param>) {
    && (forall i :: 0 <= i < |path| ==> path[i].Edge?)
    && (forall i :: 0 <= i < |path| ==> path[i] in ParamsOf(g, End(start, path[..i])))
  }

  function ScopesAlong(path: seq<Param>): seq<string>
    requires forall i :: 0 <= i < |path| ==> path[i].Edge?
  {
    if path == [] then [] else ScopesAlong(path[..|path| - 1]) + path[|path| - 1].scopes
  }

  /** The call is that of the callable at the end of a path of edges, and is given the scopes of that path wherever it
      asks for them. */
  ghost predicate Justified(g: Signatures, handler: Callable, call: Call) {
    call.Invoke? ==> exists path :: FitsPath(g, handler, path, call)
  }

  predicate FitsPath(g: Signatures, handler: Callable, path: seq<Param>, call: Call)
    requires call.Invoke?
  {
    && path != [] && EdgePath(g, handler, path)
    && End(handler, path) == call.callable && path[|path| - 1].mode == call.mode
    && GivenScopes(g, call.callable, ScopesAlong(path), call.kwargs)
  }

  predicate GivenScopes(g: Signatures, c: Callable, scopes: seq<string>, kw: Kwargs) {
    forall i :: 0 <= i < |ParamsOf(g, c)| && IsScopes(ParamsOf(g, c)[i]) ==>
      var name := ParamName(ParamsOf(g, c)[i]);
      name in kw && kw[name] == ScopesValue(scopes)
  }

  predicate IsScopes(p: Param) {
    p.Direct? && p.slot.ScopesSlot?
  }

  ghost predicate AllJustified(g: Signatures, handler: Callable, log: seq<Call>) {
    forall i :: 0 <= i < |log| ==> Justified(g, handler, log[i])
  }

  lemma Longer(g: Signatures, handler: Callable, path: seq<Param>, p: Param)
    requires EdgePath(g, handler, path) && p.Edge? && p in ParamsOf(g, End(handler, path))
    ensures EdgePath(g, handler, path + [p]) && End(handler, path + [p]) == p.callable
    ensures ScopesAlong(path + [p]) == ScopesAlong(path) + p.scopes
  {
    var longer := path + [p];
    assert longer[..|path|] == path;
    forall i | 0 <= i < |longer|
      ensures longer[i] in ParamsOf(g, End(handler, longer[..i]))
    {
      assert longer[..i] == path[..i];
    }
  }

  /** The first `n` parameters that ask for scopes have been given them. */
  predicate GivenSoFar(slots: seq<Slot>, n: nat, scopes: seq<string>, kw: Kwargs)
    requires n <= |slots|
  {
    forall i :: 0 <= i < n && slots[i].ScopesSlot? ==> slots[i].name in kw && kw[slots[i].name] == ScopesValue(scopes)
  }

  /** The state of a resolution under way in the callable at the end of `path`. */
  ghost predicate OnPath(g: Signatures, handler: Callable, path: seq<Param>, st: I.State) {
    EdgePath(g, handler, path) && st.scopes == ScopesAlong(path) && AllJustified(g, handler, st.log)
  }

  /** How a resolution of all these slots may end. */
  ghost predicate EndsOnPath(g: Signatures, handler: Callable, path: seq<Param>, slots: seq<Slot>, scopes: seq<string>,
                             r: Result<Kwargs, Exc>, st: I.State)
  {
    OnPath(g, handler, path, st) && (r.Ok? ==> GivenSoFar(slots, |slots|, scopes, r.value))
  }

  lemma ResolveNone(h: Host, slots: seq<Slot>, kw: Kwargs, st: I.State)
    requires |slots| == 0
    ensures I.ResolveSlots(h, slots, kw, st) == (Ok(kw), st)
  {
  }

  lemma ResolveNext(h: Host, slots: seq<Slot>, i: nat, kw: Kwargs, st: I.State)
    requires i < |slots|
    ensures var (r, st1) := I.ResolveSlot(h, slots[i], st);
      I.ResolveSlots(h, slots[i..], kw, st)
        == if r.Err? then (Err(r.error), st1)
           else I.ResolveSlots(h, slots[i + 1..], I.Bind(kw, slots[i].name, r.value), st1)
  {
    assert slots[i..][0] == slots[i] && slots[i..][1..] == slots[i + 1..];
  }

  lemma {:induction false} SlotsJustified(g: Signatures, handler: Callable, path: seq<Param>, h: Host, plan: Plan,
                                          i: nat, kw: Kwargs, st: I.State)
    requires DistinctNames(g) && DirectIsPlain(g) && OnPath(g, handler, path, st)
    requires HoldsParams(g, End(handler, path), plan.slots)
    requires i <= |plan.slots| && GivenSoFar(plan.slots, i, st.scopes, kw)
    ensures var (r, st1) := I.ResolveSlots(h, plan.slots[i..], kw, st);
      EndsOnPath(g, handler, path, plan.slots, st.scopes, r, st1)
    decreases plan, |plan.slots| - i + 1
  {
    var slots := plan.slots;
    if i < |slots| {
      var (r, st1) := I.ResolveSlot(h, slots[i], st);
      ResolveNext(h, slots, i, kw, st);
      StepJustified(g, handler, path, h, plan, i, kw, st);
      if r.Ok? {
        SlotsJustified(g, handler, path, h, plan, i + 1, I.Bind(kw, slots[i].name, r.value), st1);
      }
    } else {
      ResolveNone(h, slots[i..], kw, st);
    }
  }

  lemma {:induction false} StepJustified(g: Signatures, handler: Callable, path: seq<Param>, h: Host, plan: Plan,
                                         i: nat, kw: Kwargs, st: I.State)
    requires DistinctNames(g) && DirectIsPlain(g) && OnPath(g, handler, path, st)
    requires HoldsParams(g, End(handler, path), plan.slots)
    requires i < |plan.slots| && GivenSoFar(plan.slots, i, st.scopes, kw)
    ensures var (r, st1) := I.ResolveSlot(h, plan.slots[i], st);
      && OnPath(g, handler, path, st1)
      && (r.Ok? ==> GivenSoFar(plan.slots, i + 1, st.scopes, I.Bind(kw, plan.slots[i].name, r.value)))
    decreases plan, 0
  {
    var c := End(handler, path);
    OneJustified(g, handler, path, ParamsOf(g, c)[i], h, plan.slots[i], st);
    var r := I.ResolveSlot(h, plan.slots[i], st).0;
    if r.Ok? {
      OneGiven(g, c, plan.slots, i, st.scopes, kw, r.value);
    }
  }

  lemma OneGiven(g: Signatures, c: Callable, slots: seq<Slot>, i: nat, scopes: seq<string>, kw: Kwargs,
                 v: Option<Value>)
    requires DistinctNames(g) && HoldsParams(g, c, slots) && i < |slots|
    requires GivenSoFar(slots, i, scopes, kw) && (slots[i].ScopesSlot? ==> v == Some(ScopesValue(scopes)))
    ensures GivenSoFar(slots, i + 1, scopes, I.Bind(kw, slots[i].name, v))
  {
    forall j | 0 <= j < i
      ensures slots[j].name != slots[i].name
    {
      assert ParamName(ParamsOf(g, c)[j]) == slots[j].name && ParamName(ParamsOf(g, c)[i]) == slots[i].name;
    }
  }

  lemma {:induction false} OneJustified(g: Signatures, handler: Callable, path: seq<Param>, p: Param, h: Host, s: Slot,
                                        st: I.State)
    requires DistinctNames(g) && DirectIsPlain(g) && OnPath(g, handler, path, st) && SlotOf(g, p, s)
    requires p in ParamsOf(g, End(handler, path))
    ensures OnPath(g, handler, path, I.ResolveSlot(h, s, st).1)
    ensures s.ScopesSlot? ==> I.ResolveSlot(h, s, st).0 == Ok(Some(ScopesValue(st.scopes)))
    decreases s, 1
  {
    if p.Edge? {
      DependsJustified(g, handler, path, p, h, s, st);
      assert I.ResolveSlot(h, s, st).1 == I.ExecDepends(h, s, st).1;
    } else {
      assert !s.DependsSlot?;
      ParameterQuiet(h, s, st);
    }
  }

  /** A parameter that is no dependency calls nothing and leaves the stack alone. */
  lemma ParameterQuiet(h: Host, s: Slot, st: I.State)
    requires !s.DependsSlot?
    ensures var st1 := I.ResolveSlot(h, s, st).1; st1.scopes == st.scopes && st1.log == st.log
    ensures s.ScopesSlot? ==> I.ResolveSlot(h, s, st).0 == Ok(Some(ScopesValue(st.scopes)))
  {
  }

  lemma {:induction false} DependsJustified(g: Signatures, handler: Callable, path: seq<Param>, p: Param, h: Host,
                                            s: Slot, st: I.State)
    requires DistinctNames(g) && DirectIsPlain(g) && OnPath(g, handler, path, st) && SlotOf(g, p, s)
    requires p.Edge? && p in ParamsOf(g, End(handler, path))
    ensures OnPath(g, handler, path, I.ExecDepends(h, s, st).1)
    decreases s, 0
  {
    var inner := st.(scopes := st.scopes + s.scopes);
    Longer(g, handler, path, p);
    PlanHoldsParams(g, p.callable, []);
    assert s.sub.slots[0..] == s.sub.slots;
    SlotsJustified(g, handler, path + [p], h, s.sub, 0, map[], inner);
    var (kw, st1) := I.ResolveSlots(h, s.sub.slots, map[], inner);
    if kw.Ok? {
      SubGiven(g, p.callable, s.sub, inner.scopes, kw.value);
    }
    ArgumentsJustified(g, handler, path, path + [p], h, s, st);
  }

  /** The arguments resolved, so is the call. */
  lemma ArgumentsJustified(g: Signatures, handler: Callable, path: seq<Param>, longer: seq<Param>, h: Host, s: Slot,
                           st: I.State)
    requires s.DependsSlot? && OnPath(g, handler, path, st) && longer != [] && EdgePath(g, handler, longer)
    requires End(handler, longer) == s.callable && longer[|longer| - 1].mode == s.mode
    requires var (kw, st1) := I.ResolveSlots(h, s.sub.slots, map[], st.(scopes := st.scopes + s.scopes));
      && AllJustified(g, handler, st1.log)
      && (kw.Ok? ==> GivenScopes(g, s.callable, ScopesAlong(longer), kw.value))
    ensures OnPath(g, handler, path, I.ExecDepends(h, s, st).1)
  {
    var (kw, st1) := I.ResolveSlots(h, s.sub.slots, map[], st.(scopes := st.scopes + s.scopes));
    if kw.Ok? {
      CallJustified(g, handler, longer, h, s, kw.value, st1.(scopes := st.scopes));
    }
    var out := I.ExecDepends(h, s, st).1;
    assert out.scopes == st.scopes;
  }

  lemma SubGiven(g: Signatures, c: Callable, plan: Plan, scopes: seq<string>, kw: Kwargs)
    requires Build(g, c, []) == Ok(plan) && GivenSoFar(plan.slots, |plan.slots|, scopes, kw)
    ensures GivenScopes(g, c, scopes, kw)
  {
    PlanHoldsParams(g, c, []);
    forall i | 0 <= i < |ParamsOf(g, c)| && IsScopes(ParamsOf(g, c)[i])
      ensures var name := ParamName(ParamsOf(g, c)[i]); name in kw && kw[name] == ScopesValue(scopes)
    {
      assert SlotOf(g, ParamsOf(g, c)[i], plan.slots[i]);
    }
  }

  lemma CallJustified(g: Signatures, handler: Callable, path: seq<Param>, h: Host, s: Slot, kw: Kwargs, st: I.State)
    requires s.DependsSlot? && path != [] && EdgePath(g, handler, path) && AllJustified(g, handler, st.log)
    requires End(handler, path) == s.callable && path[|path| - 1].mode == s.mode
    requires GivenScopes(g, s.callable, ScopesAlong(path), kw)
    ensures var st1 := I.RunCallable(h, s, kw, st).1;
      st1.scopes == st.scopes && AllJustified(g, handler, st1.log)
  {
    var call := Invoke(s.mode, s.callable, kw);
    assert FitsPath(g, handler, path, call);
    LogGrows(g, handler, st.log, call);
    var made := h.invoke(s.mode, s.callable, kw, st.world).0;
    if made.Ok? {
      LogGrows(g, handler, st.log + [call], Advance(s.mode.AsyncGenerator?, made.value));
    }
    CallLogs(h, s, kw, st);
  }

  /** A call logs itself and, for a generator it made, the first step. */
  lemma CallLogs(h: Host, s: Slot, kw: Kwargs, st: I.State)
    requires s.DependsSlot?
    ensures var st1 := I.RunCallable(h, s, kw, st).1;
      var log := st.log + [Invoke(s.mode, s.callable, kw)];
      var made := h.invoke(s.mode, s.callable, kw, st.world).0;
      && st1.scopes == st.scopes
      && st1.log == if made.Ok? && (s.mode.Generator? || s.mode.AsyncGenerator?)
                    then log + [Advance(s.mode.AsyncGenerator?, made.value)] else log
  {
    var made := h.invoke(s.mode, s.callable, kw, st.world).0;
    if made.Ok? && (s.mode.Generator? || s.mode.AsyncGenerator?) {
      var got := h.advance(s.mode.AsyncGenerator?, made.value, h.invoke(s.mode, s.callable, kw, st.world).1).0;
      if got.Ok? {
      }
    }
  }

  lemma LogGrows(g: Signatures, handler: Callable, log: seq<Call>, call: Call)
    requires AllJustified(g, handler, log) && Justified(g, handler, call)
    ensures AllJustified(g, handler, log + [call])
  {
  }

  /** Whatever a planned handler resolves to, every dependency it calls is reached by a path of edges, and finds in each
      of its `SecurityScopes` parameters exactly the scopes of that path, outermost first. */
  lemma CallsSeePathScopes(g: Signatures, handler: Callable, h: Host, w: World, i: nat)
    requires DistinctNames(g) && DirectIsPlain(g) && Build(g, handler, []).Ok?
    requires i < |I.ResolveSlots(h, Build(g, handler, []).value.slots, map[], I.Fresh(w)).1.log|
    ensures Justified(g, handler, I.ResolveSlots(h, Build(g, handler, []).value.slots, map[], I.Fresh(w)).1.log[i])
  {
    var plan := Build(g, handler, []).value;
    PlanHoldsParams(g, handler, []);
    assert plan.slots[0..] == plan.slots;
    SlotsJustified(g, handler, [], h, plan, 0, map[], I.Fresh(w));
  }
}
