/** Running a compiled resolver is running the interpreter. */
module CompilerCorrectness {
  import opened Wrappers
  import opened Plans
  import opened Hosts
  import opened Interpreter
  import opened ResolverCode
  import opened Codegen
  import opened Fragments

  // ---- What emission keeps --------------------------------------------------

  /** Every name bound so far was numbered below `n`, so nothing emitted later can overwrite it. */
  ghost predicate Numbered(c: Ctx) {
    && (forall r :: r in c.ns ==> r.n < c.n)
    && (forall k :: k in c.depVars ==> c.depVars[k] < c.n)
  }

  /** `c1` extends `c`: more lines, more names, the same scope stack and pending set. */
  ghost predicate Extends(c: Ctx, c1: Ctx) {
    && Numbered(c1) && c.n <= c1.n && c.lines <= c1.lines && Within(c.ns, c1.ns)
    && (forall r :: r in c1.ns && r !in c.ns ==> c.n <= r.n)
    && (forall k :: k in c1.depVars ==> if k in c.depVars then c1.depVars[k] == c.depVars[k] else c.n <= c1.depVars[k])
    && c.depVars.Keys <= c1.depVars.Keys
    && c1.scopes == c.scopes && c1.inProgress == c.inProgress
  }

  lemma ExtendsTransitive(a: Ctx, b: Ctx, c: Ctx)
    requires Extends(a, b) && Extends(b, c)
    ensures Extends(a, c)
  {
  }

  lemma {:induction false} EmitDepExtends(slot: Slot, c: Ctx)
    requires slot.DependsSlot? && Numbered(c)
    requires EmitDep(slot, c).Some?
    ensures
      var (v, c1) := EmitDep(slot, c).value;
      Extends(c, c1) && v < c1.n
    decreases slot, 0
  {
    var key := KeyOf(slot, c.scopes);
    if key !in c.depVars {
      EmitSlotsExtends(slot.sub.slots, KwLocal(c.n), EnterDep(slot, c));
      LeaveExtends(slot, c, EmitSlots(slot.sub.slots, KwLocal(c.n), EnterDep(slot, c)).value);
    }
  }

  lemma LeaveExtends(slot: Slot, c: Ctx, c2: Ctx)
    requires slot.DependsSlot? && Numbered(c) && Extends(EnterDep(slot, c), c2)
    requires KeyOf(slot, c.scopes) !in c.depVars && KeyOf(slot, c.scopes) !in c.inProgress
    ensures Extends(c, LeaveDep(slot, c, c2)) && c.n < LeaveDep(slot, c, c2).n
  {
    var c1, c3 := EnterDep(slot, c), LeaveDep(slot, c, c2);
    assert forall r :: r in MessageConsts(c.n, slot) ==> r == MsgRef(c.n);
    assert MsgRef(c.n) !in c1.ns;
    assert c.lines <= c1.lines <= c2.lines <= c3.lines;
    assert c3.inProgress == c.inProgress;
  }

  lemma {:induction false} EmitSlotExtends(slot: Slot, target: Local, c: Ctx)
    requires Numbered(c) && EmitSlot(slot, target, c).Some?
    ensures Extends(c, EmitSlot(slot, target, c).value)
    decreases slot, 1
  {
    match slot
    case DependsSlot(name, _, _, _, _, _, _) =>
      EmitDepExtends(slot, c);
      var (v, c2) := EmitDep(slot, c).value;
      MoreLinesExtend(c, c2, [Put(target, name, LocalE(ResultLocal(v)))]);
    case ScopesSlot(name) =>
      NumberingExtends(c, map[ScopesRef(c.n) := ScopesConst(c.scopes)], Put(target, name, ScopesE(ScopesRef(c.n))));
    case ScalarSlot(name, s) =>
      ScalarConstsNumbered(c.n, s);
      NumberingExtends(c, ScalarConsts(c.n, s), EmitScalar(c.n, name, s, target));
    case MarkerSlot(name, m) =>
      MarkerConstsNumbered(c.n, m);
      NumberingExtends(c, MarkerConsts(c.n, m), EmitMarker(c.n, name, m, target));
    case BackgroundSlot(name) => LinesExtend(c, EmitBackground(name, target));
    case ResponseSlot(name) => LinesExtend(c, EmitResponse(name, target));
    case RequestSlot(name, _) => LinesExtend(c, [Put(target, name, RequestE)]);
  }

  lemma ScalarConstsNumbered(j: nat, s: ScalarSpec)
    ensures forall r :: r in ScalarConsts(j, s) ==> r.n == j
  {
  }

  lemma MarkerConstsNumbered(j: nat, m: MarkerSpec)
    ensures forall r :: r in MarkerConsts(j, m) ==> r.n == j
  {
  }

  lemma LinesExtend(c: Ctx, lines: seq<Stmt>)
    requires Numbered(c)
    ensures Extends(c, c.(lines := c.lines + lines))
  {
  }

  lemma MoreLinesExtend(c: Ctx, c2: Ctx, lines: seq<Stmt>)
    requires Extends(c, c2)
    ensures Extends(c, c2.(lines := c2.lines + lines))
  {
  }

  lemma NumberingExtends(c: Ctx, consts: Namespace, line: Stmt)
    requires Numbered(c) && forall r :: r in consts ==> r.n == c.n
    ensures Extends(c, Numbering(c, consts, line)) && Within(consts, Numbering(c, consts, line).ns)
  {
  }

  lemma {:induction false} EmitSlotsExtends(slots: seq<Slot>, target: Local, c: Ctx)
    requires Numbered(c) && EmitSlots(slots, target, c).Some?
    ensures Extends(c, EmitSlots(slots, target, c).value)
    decreases slots
  {
    if slots != [] {
      EmitSlotExtends(slots[0], target, c);
      var c1 := EmitSlot(slots[0], target, c).value;
      EmitSlotsExtends(slots[1..], target, c1);
      ExtendsTransitive(c, c1, EmitSlots(slots, target, c).value);
    }
  }

  // ---- The simulation relation ----------------------------------------------

  /** The compile-time context, the interpreter and the running code agree: one scope stack, one cache (held
      in result locals), one teardown list, one log of calls and one world. */
  ghost predicate Related(c: Ctx, st: State, m: Machine) {
    && st.scopes == c.scopes
    && SameEffects(st, m)
    && st.cache.Keys == c.depVars.Keys
    && forall k :: k in c.depVars ==>
         ResultLocal(c.depVars[k]) in m.locals && m.locals[ResultLocal(c.depVars[k])] == st.cache[k]
  }

  ghost predicate SameEffects(st: State, m: Machine) {
    st.teardowns == m.teardowns && st.log == m.log && st.world == m.world
  }

  predicate Older(d: Local, n: nat) {
    d.KLocal? || (d.KwLocal? && d.n < n)
  }

  /** Code numbered from `n` on leaves every older dict but `target`, and every older result, alone. */
  ghost predicate Framed(n: nat, target: Local, m: Machine, m1: Machine) {
    && (forall d :: d in m.dicts && Older(d, n) && d != target ==> d in m1.dicts && m1.dicts[d] == m.dicts[d])
    && (forall i: nat :: i < n && ResultLocal(i) in m.locals ==>
          ResultLocal(i) in m1.locals && m1.locals[ResultLocal(i)] == m.locals[ResultLocal(i)])
  }

  /** Running the lines emitted between `c` and `c1` does what the interpreter did. */
  ghost predicate Simulates(h: Host, ns: Namespace, c: Ctx, c1: Ctx, target: Local, m: Machine,
                            r: Result<Kwargs, Exc>, st1: State)
  {
    && c.lines <= c1.lines
    && var ran := Run(h, ns, c1.lines[|c.lines|..], m);
    match r
    case Ok(kw) => ran.0 == None && Related(c1, st1, ran.1) && target in ran.1.dicts && ran.1.dicts[target] == kw
                   && Framed(c.n, target, m, ran.1)
    case Err(e) => ran.0 == Some(e) && SameEffects(st1, ran.1)
  }

  predicate Supported(slot: Slot) {
    !slot.OtherSlot? && (slot.DependsSlot? ==> slot.useCache && Compilable(slot.sub))
  }

  predicate AllSupported(slots: seq<Slot>) {
    forall i :: 0 <= i < |slots| ==> Supported(slots[i])
  }

  function BindResult(kw: Kwargs, name: string, r: Result<Option<Value>, Exc>): Result<Kwargs, Exc> {
    match r case Ok(v) => Ok(Bind(kw, name, v)) case Err(e) => Err(e)
  }

  /** A fragment that binds one value simulates an interpreter step that does. */
  lemma BindsSimulates(h: Host, ns: Namespace, c: Ctx, c1: Ctx, lines: seq<Stmt>, target: Local, key: string,
                       kw: Kwargs, st: State, m: Machine, r: Result<Value, Exc>, w: World)
    requires c1.lines == c.lines + lines && c1.depVars == c.depVars && c1.scopes == c.scopes
    requires Related(c, st, m) && target in m.dicts && m.dicts[target] == kw
    requires Binds(m, Run(h, ns, lines, m), target, key, r, w)
    ensures Simulates(h, ns, c, c1, target, m, BindResult(kw, key, Lift(r)), st.(world := w))
  {
    assert c1.lines[|c.lines|..] == lines;
  }

  /** `m1` is `m` with the call's own two locals set. */
  ghost predicate CallFrame(n: nat, m: Machine, m1: Machine) {
    && m1.dicts == m.dicts
    && forall x :: x in m.locals && x != ResultLocal(n) && x != GenLocal(n) ==>
         x in m1.locals && m1.locals[x] == m.locals[x]
  }

  ghost predicate Called(n: nat, m: Machine, ran: (Outcome, Machine), r: Result<Value, Exc>, st1: State) {
    && SameEffects(st1, ran.1) && CallFrame(n, m, ran.1)
    && match r
       case Ok(v) => ran.0 == None && ResultLocal(n) in ran.1.locals && ran.1.locals[ResultLocal(n)] == v
       case Err(e) => ran.0 == Some(e)
  }

  /** The first value of a generator just made, and its registration for teardown. */
  lemma NextSimulates(h: Host, ns: Namespace, n: nat, slot: Slot, st: State, m: Machine)
    requires slot.DependsSlot? && SameEffects(st, m) && GenLocal(n) in m.locals
    requires MsgRef(n) in ns && ns[MsgRef(n)] == MsgConst(slot.callable)
    ensures
      var isAsync := slot.mode.AsyncGenerator?;
      var gen := m.locals[GenLocal(n)];
      var (got, w) := h.advance(isAsync, gen, st.world);
      var st1 := st.(log := st.log + [Advance(isAsync, gen)], world := w);
      var (r, st2) := match got
                      case Ok(v) => (Ok(v), st1.(teardowns := st1.teardowns + [Teardown(isAsync, gen)]))
                      case Err(e) => (Err(if e == Stop(isAsync) then NoYield(slot.callable) else e), st1);
      var lines := [Try(Let(ResultLocal(n), NextE(isAsync, GenLocal(n))), OnStop(isAsync, MsgRef(n))),
                    PushTeardown(isAsync, GenLocal(n))];
      Called(n, m, Run(h, ns, lines, m), r, st2)
  {
    var isAsync := slot.mode.AsyncGenerator?;
    var body := Let(ResultLocal(n), NextE(isAsync, GenLocal(n)));
    Run2(h, ns, Try(body, OnStop(isAsync, MsgRef(n))), PushTeardown(isAsync, GenLocal(n)), m);
    var (o, m1) := Exec(h, ns, body, m);
    assert Exec(h, ns, Try(body, OnStop(isAsync, MsgRef(n))), m) ==
           (if o.Some? then Some(Handle(ns, OnStop(isAsync, MsgRef(n)), o.value)) else None, m1);
  }

  /** Invoking a dependency, registering a generator for teardown right after its first value. */
  lemma CallSimulates(h: Host, ns: Namespace, n: nat, slot: Slot, kw: Kwargs, st: State, m: Machine)
    requires slot.DependsSlot? && SameEffects(st, m)
    requires KwLocal(n) in m.dicts && m.dicts[KwLocal(n)] == kw
    requires FnRef(n) in ns && ns[FnRef(n)] == CallableConst(slot.callable)
    requires Within(MessageConsts(n, slot), ns)
    ensures
      var (r, st1) := RunCallable(h, slot, kw, st);
      Called(n, m, Run(h, ns, EmitCall(n, slot.mode), m), r, st1)
  {
    if slot.mode.Generator? || slot.mode.AsyncGenerator? {
      GeneratorSimulates(h, ns, n, slot, kw, st, m);
    } else {
      Run1(h, ns, EmitCall(n, slot.mode)[0], m);
    }
  }

  lemma GeneratorSimulates(h: Host, ns: Namespace, n: nat, slot: Slot, kw: Kwargs, st: State, m: Machine)
    requires slot.DependsSlot? && SameEffects(st, m) && (slot.mode.Generator? || slot.mode.AsyncGenerator?)
    requires KwLocal(n) in m.dicts && m.dicts[KwLocal(n)] == kw
    requires FnRef(n) in ns && ns[FnRef(n)] == CallableConst(slot.callable)
    requires Within(MessageConsts(n, slot), ns)
    ensures
      var (r, st1) := RunCallable(h, slot, kw, st);
      Called(n, m, Run(h, ns, EmitCall(n, slot.mode), m), r, st1)
  {
    var code := EmitCall(n, slot.mode);
    var (made, w1) := h.invoke(slot.mode, slot.callable, kw, st.world);
    var st1 := st.(log := st.log + [Invoke(slot.mode, slot.callable, kw)], world := w1);
    Run3(h, ns, code[0], code[1], code[2], m);
    if made.Ok? {
      assert MsgRef(n) in MessageConsts(n, slot);
      var m1 := m.(locals := m.locals[GenLocal(n) := made.value], log := st1.log, world := w1);
      assert Exec(h, ns, code[0], m) == (None, m1);
      NextSimulates(h, ns, n, slot, st1, m1);
    }
  }

  // ---- Slots and dependencies -----------------------------------------------

  /** The outcome of a dependency's lines, however they were run. */
  ghost predicate DepRan(n: nat, c1: Ctx, v: nat, m: Machine, ran: (Outcome, Machine), r: Result<Value, Exc>,
      st1: State) {
    match r
    case Ok(x) => ran.0 == None && Related(c1, st1, ran.1) && ResultLocal(v) in ran.1.locals
                  && ran.1.locals[ResultLocal(v)] == x && Framed(n, KwLocal(n), m, ran.1)
    case Err(e) => ran.0 == Some(e) && SameEffects(st1, ran.1)
  }

  /** No result local emitted for the arguments is the dependency's own. */
  ghost predicate Apart(c2: Ctx, n: nat) {
    forall k :: k in c2.depVars ==> c2.depVars[k] != n
  }

  /** From resolved arguments to the cached result: the call, then the dedup entry. */
  lemma SimulateLeave(h: Host, ns: Namespace, slot: Slot, c: Ctx, c2: Ctx, kw: Kwargs, st: State, m: Machine,
      m2: Machine)
    requires slot.DependsSlot? && Apart(c2, c.n) && Related(c2, st, m2)
    requires FnRef(c.n) in ns && ns[FnRef(c.n)] == CallableConst(slot.callable) && Within(MessageConsts(c.n, slot), ns)
    requires KwLocal(c.n) in m2.dicts && m2.dicts[KwLocal(c.n)] == kw && Framed(c.n, KwLocal(c.n), m, m2)
    ensures
      var (r, st1) := RunCallable(h, slot, kw, st.(scopes := c.scopes));
      var st2 := if r.Ok? then st1.(cache := st1.cache[KeyOf(slot, c.scopes) := r.value]) else st1;
      DepRan(c.n, LeaveDep(slot, c, c2), c.n, m, Run(h, ns, EmitCall(c.n, slot.mode), m2), r, st2)
  {
    CallSimulates(h, ns, c.n, slot, kw, st.(scopes := c.scopes), m2);
    var (r, st1) := RunCallable(h, slot, kw, st.(scopes := c.scopes));
    CallableKeeps(h, slot, kw, st.(scopes := c.scopes));
    LeaveRan(slot, c, c2, st, st1, m, m2, Run(h, ns, EmitCall(c.n, slot.mode), m2), r);
  }

  lemma CallableKeeps(h: Host, slot: Slot, kw: Kwargs, st: State)
    requires slot.DependsSlot?
    ensures var (r, st1) := RunCallable(h, slot, kw, st);
            st1.cache == st.cache && st1.scopes == st.scopes
  {
  }

  /** After the call, the new result local joins the cache and every older one is intact. */
  lemma LeaveRan(slot: Slot, c: Ctx, c2: Ctx, st: State, st1: State, m: Machine, m2: Machine, ran: (Outcome, Machine),
                 r: Result<Value, Exc>)
    requires slot.DependsSlot? && Apart(c2, c.n) && Related(c2, st, m2) && Framed(c.n, KwLocal(c.n), m, m2)
    requires st1.cache == st.cache && st1.scopes == c.scopes && Called(c.n, m2, ran, r, st1)
    ensures var st2 := if r.Ok? then st1.(cache := st1.cache[KeyOf(slot, c.scopes) := r.value]) else st1;
            DepRan(c.n, LeaveDep(slot, c, c2), c.n, m, ran, r, st2)
  {
  }

  /** A dependency already emitted under its key: no lines, and its result variable. */
  lemma SimulateMemo(h: Host, ns: Namespace, slot: Slot, c: Ctx, st: State, m: Machine)
    requires slot.DependsSlot? && Supported(slot) && Related(c, st, m) && KeyOf(slot, c.scopes) in c.depVars
    requires EmitDep(slot, c).Some?
    ensures var (v, c1) := EmitDep(slot, c).value;
            var (r, st1) := ExecDepends(h, slot, st);
            c1 == c && DepRan(c.n, c1, v, m, Run(h, ns, [], m), r, st1)
  {
  }

  lemma {:induction false} SimulateDep(h: Host, ns: Namespace, slot: Slot, c: Ctx, st: State, m: Machine)
    requires slot.DependsSlot? && Supported(slot) && Numbered(c) && Related(c, st, m)
    requires EmitDep(slot, c).Some? && Within(EmitDep(slot, c).value.1.ns, ns)
    ensures var (v, c1) := EmitDep(slot, c).value;
            var (r, st1) := ExecDepends(h, slot, st);
            c.lines <= c1.lines && DepRan(c.n, c1, v, m, Run(h, ns, c1.lines[|c.lines|..], m), r, st1)
    decreases slot, 0
  {
    var (v, cEnd) := EmitDep(slot, c).value;
    if KeyOf(slot, c.scopes) in c.depVars {
      SimulateMemo(h, ns, slot, c, st, m);
      assert cEnd.lines[|c.lines|..] == [];
    } else {
      var c1 := EnterDep(slot, c);
      var c2 := EmitSlots(slot.sub.slots, KwLocal(c.n), c1).value;
      var m1 := m.(dicts := m.dicts[KwLocal(c.n) := map[]]);
      var st0 := st.(scopes := st.scopes + slot.scopes);
      DepNames(slot, c, ns);
      SimulateSlots(h, ns, slot.sub.slots, KwLocal(c.n), c1, map[], st0, m1);
      DepLines(h, ns, c, cEnd, slot, c2.lines[|c1.lines|..], m, m1);
      SimulateRest(h, ns, slot, c, c2, st, m, m1);
    }
  }

  /** The arguments simulated, the whole dependency is. */
  lemma SimulateRest(h: Host, ns: Namespace, slot: Slot, c: Ctx, c2: Ctx, st: State, m: Machine, m1: Machine)
    requires slot.DependsSlot? && slot.useCache && st.scopes == c.scopes && KeyOf(slot, c.scopes) !in st.cache
    requires m1 == m.(dicts := m.dicts[KwLocal(c.n) := map[]]) && Apart(c2, c.n)
    requires FnRef(c.n) in ns && ns[FnRef(c.n)] == CallableConst(slot.callable) && Within(MessageConsts(c.n, slot), ns)
    requires var c1 := EnterDep(slot, c);
             var (kw, st1) := ResolveSlots(h, slot.sub.slots, map[], st.(scopes := st.scopes + slot.scopes));
             Simulates(h, ns, c1, c2, KwLocal(c.n), m1, kw, st1)
    ensures var (r, st2) := ExecDepends(h, slot, st);
            var (o, m2) := Run(h, ns, c2.lines[|EnterDep(slot, c).lines|..], m1);
            DepRan(c.n, LeaveDep(slot, c, c2), c.n, m, if o.Some? then (o, m2)
                else Run(h, ns, EmitCall(c.n, slot.mode), m2), r, st2)
  {
    var c1 := EnterDep(slot, c);
    var (kw, st1) := ResolveSlots(h, slot.sub.slots, map[], st.(scopes := st.scopes + slot.scopes));
    var m2 := Run(h, ns, c2.lines[|c1.lines|..], m1).1;
    if kw.Ok? {
      FramedEnter(c.n, m, m1, m2);
      SimulateLeave(h, ns, slot, c, c2, kw.value, st1, m, m2);
    }
  }

  lemma FramedEnter(n: nat, m: Machine, m1: Machine, m2: Machine)
    requires m1 == m.(dicts := m.dicts[KwLocal(n) := map[]]) && Framed(n + 1, KwLocal(n), m1, m2)
    ensures Framed(n, KwLocal(n), m, m2)
  {
  }

  /** What a dependency's argument emission starts from and what it leaves visible. */
  lemma DepNames(slot: Slot, c: Ctx, ns: Namespace)
    requires slot.DependsSlot? && Numbered(c) && KeyOf(slot, c.scopes) !in c.depVars
    requires EmitDep(slot, c).Some? && Within(EmitDep(slot, c).value.1.ns, ns)
    ensures
      var c1 := EnterDep(slot, c);
      var c2 := EmitSlots(slot.sub.slots, KwLocal(c.n), c1).value;
      && Numbered(c1) && c1.lines <= c2.lines && Within(c2.ns, ns) && Apart(c2, c.n)
      && FnRef(c.n) in ns && ns[FnRef(c.n)] == CallableConst(slot.callable) && Within(MessageConsts(c.n, slot), ns)
  {
    var c1 := EnterDep(slot, c);
    var c2 := EmitSlots(slot.sub.slots, KwLocal(c.n), c1).value;
    EmitSlotsExtends(slot.sub.slots, KwLocal(c.n), c1);
    assert MsgRef(c.n) !in c1.ns;
    assert FnRef(c.n) in c1.ns;
    var end := LeaveDep(slot, c, c2).ns;
    assert Within(c2.ns, end);
    assert forall r :: r in MessageConsts(c.n, slot) ==> r in end;
  }

  /** The emitted lines of a dependency: a fresh dict, its arguments, the call. */
  lemma DepLines(h: Host, ns: Namespace, c: Ctx, cEnd: Ctx, slot: Slot, args: seq<Stmt>, m: Machine, m1: Machine)
    requires slot.DependsSlot? && m1 == m.(dicts := m.dicts[KwLocal(c.n) := map[]])
    requires cEnd.lines == EnterDep(slot, c).lines + args + EmitCall(c.n, slot.mode)
    ensures c.lines <= cEnd.lines
    ensures Run(h, ns, cEnd.lines[|c.lines|..], m) ==
            var (o, m2) := Run(h, ns, args, m1);
            if o.Some? then (o, m2) else Run(h, ns, EmitCall(c.n, slot.mode), m2)
  {
    var first := NewDict(KwLocal(c.n));
    assert cEnd.lines[|c.lines|..] == [first] + args + EmitCall(c.n, slot.mode);
    RunConcat(h, ns, [first] + args, EmitCall(c.n, slot.mode), m);
    RunConcat(h, ns, [first], args, m);
    Run1(h, ns, first, m);
  }

  /** Every slot but a dependency binds one value. */
  lemma SimulateBinding(h: Host, ns: Namespace, slot: Slot, target: Local, c: Ctx, kw: Kwargs, st: State, m: Machine)
    requires Supported(slot) && !slot.DependsSlot? && Related(c, st, m)
    requires target in m.dicts && m.dicts[target] == kw
    requires EmitSlot(slot, target, c).Some? && Within(EmitSlot(slot, target, c).value.ns, ns)
    ensures var (r, st1) := ResolveSlot(h, slot, st);
            Simulates(h, ns, c, EmitSlot(slot, target, c).value, target, m, BindResult(kw, slot.name, r), st1)
  {
    match slot
    case RequestSlot(name, _) =>
      var line := Put(target, name, RequestE);
      Run1(h, ns, line, m);
      BindsSimulates(h, ns, c, c.(lines := c.lines + [line]), [line], target, name, kw, st, m, Ok(RequestValue),
          m.world);
    case BackgroundSlot(name) =>
      BackgroundBinds(h, ns, name, target, m);
      var lines := EmitBackground(name, target);
      var (v, w) := BindBackground(h, m.world);
      BindsSimulates(h, ns, c, c.(lines := c.lines + lines), lines, target, name, kw, st, m, Ok(v), w);
    case ResponseSlot(name) =>
      ResponseBinds(h, ns, name, target, m);
      var lines := EmitResponse(name, target);
      var (v, w) := BindResponse(h, m.world);
      BindsSimulates(h, ns, c, c.(lines := c.lines + lines), lines, target, name, kw, st, m, Ok(v), w);
    case ScopesSlot(name) => SimulateScopes(h, ns, name, target, c, kw, st, m);
    case ScalarSlot(name, s) => SimulateScalar(h, ns, name, s, target, c, kw, st, m);
    case MarkerSlot(name, mk) => SimulateMarker(h, ns, name, mk, target, c, kw, st, m);
  }

  lemma SimulateScopes(h: Host, ns: Namespace, name: string, target: Local, c: Ctx, kw: Kwargs, st: State, m: Machine)
    requires Related(c, st, m) && target in m.dicts && m.dicts[target] == kw
    requires Within(EmitSlot(ScopesSlot(name), target, c).value.ns, ns)
    ensures Simulates(h, ns, c, EmitSlot(ScopesSlot(name), target, c).value, target, m,
                      Ok(kw[name := ScopesValue(st.scopes)]), st)
  {
    var line := Put(target, name, ScopesE(ScopesRef(c.n)));
    var consts := map[ScopesRef(c.n) := ScopesConst(c.scopes)];
    NumberingWithin(c, consts, line, ns);
    assert consts[ScopesRef(c.n)] == ScopesConst(c.scopes);
    Run1(h, ns, line, m);
    BindsSimulates(h, ns, c, Numbering(c, consts, line), [line], target, name, kw, st, m, Ok(ScopesValue(c.scopes)),
        m.world);
  }

  lemma SimulateScalar(h: Host, ns: Namespace, name: string, s: ScalarSpec, target: Local, c: Ctx, kw: Kwargs,
                       st: State, m: Machine)
    requires Related(c, st, m) && target in m.dicts && m.dicts[target] == kw
    requires Within(Numbering(c, ScalarConsts(c.n, s), EmitScalar(c.n, name, s, target)).ns, ns)
    ensures var (r, w) := ResolveScalar(h, name, s, st.world);
            Simulates(h, ns, c, Numbering(c, ScalarConsts(c.n, s), EmitScalar(c.n, name, s, target)), target, m,
                      BindResult(kw, name, Lift(r)), st.(world := w))
  {
    var line := EmitScalar(c.n, name, s, target);
    NumberingWithin(c, ScalarConsts(c.n, s), line, ns);
    ScalarBinds(h, ns, c.n, name, s, target, m);
    Run1(h, ns, line, m);
    var (r, w) := ResolveScalar(h, name, s, m.world);
    BindsSimulates(h, ns, c, Numbering(c, ScalarConsts(c.n, s), line), [line], target, name, kw, st, m, r, w);
  }

  lemma SimulateMarker(h: Host, ns: Namespace, name: string, mk: MarkerSpec, target: Local, c: Ctx, kw: Kwargs,
                       st: State, m: Machine)
    requires Related(c, st, m) && target in m.dicts && m.dicts[target] == kw
    requires Within(Numbering(c, MarkerConsts(c.n, mk), EmitMarker(c.n, name, mk, target)).ns, ns)
    ensures var (r, w) := ResolveMarker(h, name, mk, st.world);
            Simulates(h, ns, c, Numbering(c, MarkerConsts(c.n, mk), EmitMarker(c.n, name, mk, target)), target, m,
                      BindResult(kw, name, Lift(r)), st.(world := w))
  {
    var line := EmitMarker(c.n, name, mk, target);
    NumberingWithin(c, MarkerConsts(c.n, mk), line, ns);
    MarkerBinds(h, ns, c.n, name, mk, target, m);
    Run1(h, ns, line, m);
    var (r, w) := ResolveMarker(h, name, mk, m.world);
    BindsSimulates(h, ns, c, Numbering(c, MarkerConsts(c.n, mk), line), [line], target, name, kw, st, m, r, w);
  }

  lemma {:induction false} SimulateSlot(h: Host, ns: Namespace, slot: Slot, target: Local, c: Ctx, kw: Kwargs,
                                        st: State, m: Machine)
    requires Supported(slot) && Numbered(c) && Related(c, st, m)
    requires Older(target, c.n) && target in m.dicts && m.dicts[target] == kw
    requires EmitSlot(slot, target, c).Some? && Within(EmitSlot(slot, target, c).value.ns, ns)
    ensures var (r, st1) := ResolveSlot(h, slot, st);
            Simulates(h, ns, c, EmitSlot(slot, target, c).value, target, m, BindResult(kw, slot.name, r), st1)
    decreases slot, 1
  {
    if !slot.DependsSlot? {
      SimulateBinding(h, ns, slot, target, c, kw, st, m);
    } else {
      EmitDepExtends(slot, c);
      SimulateDep(h, ns, slot, c, st, m);
      var (v, c2) := EmitDep(slot, c).value;
      var (r, st1) := ExecDepends(h, slot, st);
      PutResultSimulates(h, ns, target, slot.name, c, c2, v, kw, m, r, st1);
    }
  }

  /** Binding a dependency's result local after its resolution. */
  lemma PutResultSimulates(h: Host, ns: Namespace, target: Local, name: string, c: Ctx, c2: Ctx, v: nat, kw: Kwargs,
                           m: Machine, r: Result<Value, Exc>, st1: State)
    requires c.lines <= c2.lines && DepRan(c.n, c2, v, m, Run(h, ns, c2.lines[|c.lines|..], m), r, st1)
    requires Older(target, c.n) && target in m.dicts && m.dicts[target] == kw
    ensures var line := Put(target, name, LocalE(ResultLocal(v)));
            Simulates(h, ns, c, c2.(lines := c2.lines + [line]), target, m, BindResult(kw, name, Lift(r)), st1)
  {
    var line := Put(target, name, LocalE(ResultLocal(v)));
    var args := c2.lines[|c.lines|..];
    assert (c2.lines + [line])[|c.lines|..] == args + [line];
    RunConcat(h, ns, args, [line], m);
    Run1(h, ns, line, Run(h, ns, args, m).1);
  }

  lemma NumberingWithin(c: Ctx, consts: Namespace, line: Stmt, ns: Namespace)
    requires Within(Numbering(c, consts, line).ns, ns)
    ensures Within(consts, ns)
  {
    assert forall r :: r in consts ==> r in Numbering(c, consts, line).ns;
  }

  lemma {:induction false} SimulateSlots(h: Host, ns: Namespace, slots: seq<Slot>, target: Local, c: Ctx, kw: Kwargs,
                                         st: State, m: Machine)
    requires AllSupported(slots)
    requires Numbered(c) && Related(c, st, m)
    requires Older(target, c.n) && target in m.dicts && m.dicts[target] == kw
    requires EmitSlots(slots, target, c).Some? && Within(EmitSlots(slots, target, c).value.ns, ns)
    ensures var (r, st1) := ResolveSlots(h, slots, kw, st);
            Simulates(h, ns, c, EmitSlots(slots, target, c).value, target, m, r, st1)
    decreases slots
  {
    var c2 := EmitSlots(slots, target, c).value;
    if slots == [] {
      assert c2.lines[|c.lines|..] == [];
    } else {
      var c1 := EmitSlot(slots[0], target, c).value;
      SlotNames(slots, target, c, ns);
      SimulateSlot(h, ns, slots[0], target, c, kw, st, m);
      var m1 := Run(h, ns, c1.lines[|c.lines|..], m).1;
      var (r, st1) := ResolveSlot(h, slots[0], st);
      if r.Ok? {
        var kw1 := Bind(kw, slots[0].name, r.value);
        SimulateSlots(h, ns, slots[1..], target, c1, kw1, st1, m1);
        var (r2, st2) := ResolveSlots(h, slots[1..], kw1, st1);
        SimulatesInSequence(h, ns, c, c1, c2, target, m, kw1, st1, r2, st2);
      } else {
        SimulatesStopped(h, ns, c, c1, c2, target, m, r.error, st1);
      }
    }
  }

  lemma SimulatesStopped(h: Host, ns: Namespace, c: Ctx, c1: Ctx, c2: Ctx, target: Local, m: Machine, e: Exc,
      st1: State)
    requires c.lines <= c1.lines <= c2.lines && Simulates(h, ns, c, c1, target, m, Err(e), st1)
    ensures Simulates(h, ns, c, c2, target, m, Err(e), st1)
  {
    assert c2.lines[|c.lines|..] == c1.lines[|c.lines|..] + c2.lines[|c1.lines|..];
    RunConcat(h, ns, c1.lines[|c.lines|..], c2.lines[|c1.lines|..], m);
  }

  lemma SlotNames(slots: seq<Slot>, target: Local, c: Ctx, ns: Namespace)
    requires slots != [] && Numbered(c) && EmitSlots(slots, target, c).Some?
    requires Within(EmitSlots(slots, target, c).value.ns, ns)
    ensures
      var c1 := EmitSlot(slots[0], target, c).value;
      Numbered(c1) && c.n <= c1.n && c.lines <= c1.lines <= EmitSlots(slots, target, c).value.lines && Within(c1.ns, ns)
  {
    EmitSlotExtends(slots[0], target, c);
    EmitSlotsExtends(slots[1..], target, EmitSlot(slots[0], target, c).value);
  }

  lemma SimulatesInSequence(h: Host, ns: Namespace, c: Ctx, c1: Ctx, c2: Ctx, target: Local, m: Machine, kw: Kwargs,
                            st1: State, r: Result<Kwargs, Exc>, st2: State)
    requires c.n <= c1.n && c.lines <= c1.lines <= c2.lines
    requires Simulates(h, ns, c, c1, target, m, Ok(kw), st1)
    requires Simulates(h, ns, c1, c2, target, Run(h, ns, c1.lines[|c.lines|..], m).1, r, st2)
    ensures Simulates(h, ns, c, c2, target, m, r, st2)
  {
    var head, rest := c1.lines[|c.lines|..], c2.lines[|c1.lines|..];
    assert c2.lines[|c.lines|..] == head + rest;
    RunConcat(h, ns, head, rest, m);
    FramedTransitive(c.n, c1.n, target, m, Run(h, ns, head, m).1, Run(h, ns, head + rest, m).1);
  }

  lemma FramedTransitive(n: nat, n1: nat, target: Local, m: Machine, m1: Machine, m2: Machine)
    requires n <= n1
    ensures Framed(n, target, m, m1) && Framed(n1, target, m1, m2) ==> Framed(n, target, m, m2)
  {
  }

  // ---- The theorem ----------------------------------------------------------

  /** Compiler correctness: whenever `compile_graph_resolver` returns a resolver, calling it gives the same
      kwargs or the same exception as interpreting the plan, makes the same dependency calls with the same
      arguments in the same order, and leaves the same teardown list and world behind. */
  lemma CompiledGraphCorrect(h: Host, plan: Plan, w: World)
    requires CompileGraph(plan).Some?
    ensures
      var (r, st) := ResolveSlots(h, plan.slots, map[], Fresh(w));
      var (got, m) := CallCompiled(h, CompileGraph(plan).value, [], [], w);
      got == r && SameEffects(st, m)
  {
    var m := Machine(map[], map[], map[KLocal := map[]], [], [], w);
    var code := CompileGraph(plan).value;
    SimulateSlots(h, code.ns, plan.slots, KLocal, START, map[], Fresh(w), m);
    assert code.lines[0..] == code.lines;
  }

  // ---- The param-only compiler ----------------------------------------------

  lemma EmitParamExtends(slot: Slot, c: Ctx)
    requires Numbered(c)
    ensures Extends(c, EmitParam(slot, c))
  {
    match slot
    case ScalarSlot(name, s) =>
      ScalarConstsNumbered(c.n, s);
      NumberingExtends(c, ScalarConsts(c.n, s), EmitScalar(c.n, name, s, KLocal));
    case MarkerSlot(name, m) =>
      MarkerConstsNumbered(c.n, m);
      NumberingExtends(c, MarkerConsts(c.n, m), EmitMarker(c.n, name, m, KLocal));
    case _ => NumberingExtends(c, map[], Put(KLocal, slot.name, RequestE));
  }

  lemma {:induction false} EmitParamsExtend(slots: seq<Slot>, c: Ctx)
    requires Numbered(c)
    ensures Extends(c, EmitParams(slots, c))
  {
    if slots != [] {
      EmitParamExtends(slots[0], c);
      EmitParamsExtend(slots[1..], EmitParam(slots[0], c));
      ExtendsTransitive(c, EmitParam(slots[0], c), EmitParams(slots, c));
    }
  }

  lemma SimulateParam(h: Host, ns: Namespace, slot: Slot, c: Ctx, kw: Kwargs, st: State, m: Machine)
    requires slot.RequestSlot? || slot.ScalarSlot? || slot.MarkerSlot?
    requires Related(c, st, m) && KLocal in m.dicts && m.dicts[KLocal] == kw && Within(EmitParam(slot, c).ns, ns)
    ensures var (r, st1) := ResolveSlot(h, slot, st);
            Simulates(h, ns, c, EmitParam(slot, c), KLocal, m, BindResult(kw, slot.name, r), st1)
  {
    match slot
    case ScalarSlot(name, s) => SimulateScalar(h, ns, name, s, KLocal, c, kw, st, m);
    case MarkerSlot(name, mk) => SimulateMarker(h, ns, name, mk, KLocal, c, kw, st, m);
    case RequestSlot(name, _) =>
      var line := Put(KLocal, name, RequestE);
      Run1(h, ns, line, m);
      BindsSimulates(h, ns, c, EmitParam(slot, c), [line], KLocal, name, kw, st, m, Ok(RequestValue), m.world);
  }

  lemma {:induction false} SimulateParams(h: Host, ns: Namespace, slots: seq<Slot>, c: Ctx, kw: Kwargs, st: State,
      m: Machine)
    requires forall i :: 0 <= i < |slots| ==> slots[i].RequestSlot? || slots[i].ScalarSlot? || slots[i].MarkerSlot?
    requires Numbered(c) && Related(c, st, m) && KLocal in m.dicts && m.dicts[KLocal] == kw
    requires Within(EmitParams(slots, c).ns, ns)
    ensures var (r, st1) := ResolveSlots(h, slots, kw, st);
            Simulates(h, ns, c, EmitParams(slots, c), KLocal, m, r, st1)
  {
    var c2 := EmitParams(slots, c);
    if slots == [] {
      assert c2.lines[|c.lines|..] == [];
    } else {
      var c1 := EmitParam(slots[0], c);
      EmitParamExtends(slots[0], c);
      EmitParamsExtend(slots[1..], c1);
      SimulateParam(h, ns, slots[0], c, kw, st, m);
      var m1 := Run(h, ns, c1.lines[|c.lines|..], m).1;
      var (r, st1) := ResolveSlot(h, slots[0], st);
      if r.Ok? {
        var kw1 := Bind(kw, slots[0].name, r.value);
        SimulateParams(h, ns, slots[1..], c1, kw1, st1, m1);
        var (r2, st2) := ResolveSlots(h, slots[1..], kw1, st1);
        SimulatesInSequence(h, ns, c, c1, c2, KLocal, m, kw1, st1, r2, st2);
      } else {
        SimulatesStopped(h, ns, c, c1, c2, KLocal, m, r.error, st1);
      }
    }
  }

  /** The same theorem for `compile_param_resolver`. */
  lemma CompiledParamsCorrect(h: Host, plan: Plan, w: World)
    requires CompileParams(plan).Some?
    ensures
      var (r, st) := ResolveSlots(h, plan.slots, map[], Fresh(w));
      var (got, m) := CallCompiled(h, CompileParams(plan).value, [], [], w);
      got == r && SameEffects(st, m)
  {
    var m := Machine(map[], map[], map[KLocal := map[]], [], [], w);
    var code := CompileParams(plan).value;
    SimulateParams(h, code.ns, plan.slots, START, map[], Fresh(w), m);
    assert code.lines[0..] == code.lines;
  }
}
