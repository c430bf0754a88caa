/** When one dependency answers for another: two callers of the same callable, each under its own scopes. */
module ScopeCaching {
  import opened Wrappers
  import opened Hosts
  import opened Plans
  import opened PlanTrees
  import I = Interpreter

  // ---- What a resolution leaves alone ---------------------------------------

  /** Every result of `a` is still there in `b`. */
  ghost predicate Keeps(a: map<Key, Value>, b: map<Key, Value>) {
    forall k :: k in a ==> k in b && b[k] == a[k]
  }

  /** From `st` to `t`: the log and the cache only grow, the cache by callables of `cached`. */
  ghost predicate Grows(st: I.State, t: I.State, cached: set<Callable>) {
    && st.log <= t.log && t.scopes == st.scopes && Keeps(st.cache, t.cache)
    && forall k :: k in t.cache && k !in st.cache ==> k.callable in cached
  }

  lemma GrowsOn(a: I.State, b: I.State, c: I.State, x: set<Callable>, y: set<Callable>)
    requires Grows(a, b, x) && Grows(b, c, y)
    ensures Grows(a, c, x + y)
  {
  }

  lemma {:induction false} SlotsGrow(h: Host, slots: seq<Slot>, kw: Kwargs, st: I.State)
    ensures Grows(st, I.ResolveSlots(h, slots, kw, st).1, AllCached(slots))
    decreases slots
  {
    if slots != [] {
      var (r, st1) := I.ResolveSlot(h, slots[0], st);
      SlotGrows(h, slots[0], st);
      if r.Ok? {
        var kw1 := I.Bind(kw, slots[0].name, r.value);
        SlotsGrow(h, slots[1..], kw1, st1);
        GrowsOn(st, st1, I.ResolveSlots(h, slots[1..], kw1, st1).1, CachedCallables(slots[0]), AllCached(slots[1..]));
      }
    }
  }

  lemma {:induction false} SlotGrows(h: Host, s: Slot, st: I.State)
    ensures Grows(st, I.ResolveSlot(h, s, st).1, CachedCallables(s))
    decreases s, 1
  {
    if s.DependsSlot? {
      DependsGrows(h, s, st);
    }
  }

  lemma {:induction false} DependsGrows(h: Host, s: Slot, st: I.State)
    requires s.DependsSlot?
    ensures Grows(st, I.ExecDepends(h, s, st).1, CachedCallables(s))
    decreases s, 0
  {
    SlotsGrow(h, s.sub.slots, map[], st.(scopes := st.scopes + s.scopes));
    var (kw, st1) := I.ResolveSlots(h, s.sub.slots, map[], st.(scopes := st.scopes + s.scopes));
    if kw.Ok? {
      CallGrows(h, s, kw.value, st1.(scopes := st.scopes));
    }
  }

  lemma CallGrows(h: Host, s: Slot, kw: Kwargs, st: I.State)
    requires s.DependsSlot?
    ensures var st1 := I.RunCallable(h, s, kw, st).1;
      st1.cache == st.cache && st1.scopes == st.scopes && st.log + [Invoke(s.mode, s.callable, kw)] <= st1.log
  {
  }

  // ---- Two callers ----------------------------------------------------------

  /** The scopes active around each caller, and its own, are together the same; or nothing below asks for them. */
  ghost predicate Alike(a: Slot, active: seq<string>, b: Slot, active': seq<string>)
    requires a.DependsSlot? && b.DependsSlot?
  {
    !a.scopeSensitive || forall x :: x in active || x in a.scopes <==> x in active' || x in b.scopes
  }

  /** Two cacheable calls of one callable, planned alike. */
  predicate SameCallable(a: Slot, b: Slot) {
    && a.DependsSlot? && b.DependsSlot? && a.callable == b.callable && a.useCache && b.useCache
    && a.scopeSensitive == b.scopeSensitive
  }

  /** The first call of a callable is cached where the second looks exactly when their scopes are alike. */
  lemma FoundWhenAlike(a: Slot, active: seq<string>, b: Slot, active': seq<string>)
    requires SameCallable(a, b)
    ensures KeyOf(a, active) == KeyOf(b, active') <==> Alike(a, active, b, active')
  {
    var u, v := SetOf(active) + SetOf(a.scopes), SetOf(active') + SetOf(b.scopes);
    assert forall x :: x in u <==> x in active || x in a.scopes;
    assert forall x :: x in v <==> x in active' || x in b.scopes;
  }

  /**
    * The second of two callers is answered by the first, without a single call and with its value, exactly when the
    * scopes are alike. Otherwise the arguments are resolved under its own scopes and the callable is called on them.
    * In between, anything may have run that does not call it.
    */
  lemma SecondCaller(h: Host, a: Slot, b: Slot, st: I.State, later: I.State)
    requires SameCallable(a, b) && a.callable !in AllCached(a.sub.slots)
    requires forall k :: k in st.cache ==> k.callable != a.callable
    requires I.ExecDepends(h, a, st).0.Ok? && Keeps(I.ExecDepends(h, a, st).1.cache, later.cache)
    requires forall k :: k in later.cache && k.callable == a.callable ==> k in I.ExecDepends(h, a, st).1.cache
    ensures var (r, _) := I.ExecDepends(h, a, st);
      var (r', end) := I.ExecDepends(h, b, later);
      && ((r' == r && end.log == later.log) <==> Alike(a, st.scopes, b, later.scopes))
      && (Alike(a, st.scopes, b, later.scopes) ==> end == later)
    ensures var (kw, m) := I.ResolveSlots(h, b.sub.slots, map[], later.(scopes := later.scopes + b.scopes));
      !Alike(a, st.scopes, b, later.scopes) ==>
        if kw.Ok? then m.log + [Invoke(b.mode, b.callable, kw.value)] <= I.ExecDepends(h, b, later).1.log
        else I.ExecDepends(h, b, later).0 == Err(kw.error)
  {
    FoundWhenAlike(a, st.scopes, b, later.scopes);
    FirstStored(h, a, st);
    if !Alike(a, st.scopes, b, later.scopes) {
      SlotsGrow(h, b.sub.slots, map[], later.(scopes := later.scopes + b.scopes));
      Uncached(h, b, later);
    }
  }

  /** The first call stores its value, and nothing else under its callable. */
  lemma FirstStored(h: Host, a: Slot, st: I.State)
    requires a.DependsSlot? && a.useCache && a.callable !in AllCached(a.sub.slots)
    requires forall k :: k in st.cache ==> k.callable != a.callable
    requires I.ExecDepends(h, a, st).0.Ok?
    ensures var (r, st1) := I.ExecDepends(h, a, st);
      var key := KeyOf(a, st.scopes);
      && key in st1.cache && st1.cache[key] == r.value
      && forall k :: k in st1.cache && k.callable == a.callable ==> k == key
  {
    assert KeyOf(a, st.scopes).callable == a.callable;
    SlotsGrow(h, a.sub.slots, map[], st.(scopes := st.scopes + a.scopes));
    var (kw, m) := I.ResolveSlots(h, a.sub.slots, map[], st.(scopes := st.scopes + a.scopes));
    CallGrows(h, a, kw.value, m.(scopes := st.scopes));
  }

  lemma Uncached(h: Host, b: Slot, st: I.State)
    requires b.DependsSlot? && KeyOf(b, st.scopes) !in st.cache
    ensures var (kw, m) := I.ResolveSlots(h, b.sub.slots, map[], st.(scopes := st.scopes + b.scopes));
      var (r, end) := I.ExecDepends(h, b, st);
      if kw.Ok? then m.log + [Invoke(b.mode, b.callable, kw.value)] <= end.log else r == Err(kw.error)
  {
    var (kw, m) := I.ResolveSlots(h, b.sub.slots, map[], st.(scopes := st.scopes + b.scopes));
    if kw.Ok? {
      CallGrows(h, b, kw.value, m.(scopes := st.scopes));
    }
  }

  /** A dependency that opted out of the cache is called every time, and leaves nothing there for others. */
  lemma CalledEveryTime(h: Host, b: Slot, st: I.State)
    requires b.DependsSlot? && !b.useCache
    ensures var (kw, m) := I.ResolveSlots(h, b.sub.slots, map[], st.(scopes := st.scopes + b.scopes));
      var (r, end) := I.ExecDepends(h, b, st);
      && end.cache == m.cache
      && if kw.Ok? then m.log + [Invoke(b.mode, b.callable, kw.value)] <= end.log else r == Err(kw.error)
  {
    var (kw, m) := I.ResolveSlots(h, b.sub.slots, map[], st.(scopes := st.scopes + b.scopes));
    if kw.Ok? {
      CallGrows(h, b, kw.value, m.(scopes := st.scopes));
    }
  }

  // ---- Two parameters of one signature --------------------------------------

  lemma {:induction false} SlotsAppend(h: Host, front: seq<Slot>, last: Slot, kw: Kwargs, st: I.State)
    ensures var (r, m) := I.ResolveSlots(h, front, kw, st);
      I.ResolveSlots(h, front + [last], kw, st) ==
      if r.Err? then (r, m)
      else
        var (v, end) := I.ResolveSlot(h, last, m);
        (if v.Err? then Err(v.error) else Ok(I.Bind(r.value, last.name, v.value)), end)
    decreases front
  {
    if front == [] {
      assert [] + [last] == [last] && [last][1..] == [];
    } else {
      var (v, st1) := I.ResolveSlot(h, front[0], st);
      assert (front + [last])[1..] == front[1..] + [last];
      if v.Ok? {
        SlotsAppend(h, front[1..], last, I.Bind(kw, front[0].name, v.value), st1);
      }
    }
  }

  /** Two parameters of one signature that declare the same dependency, with others between them: the second is bound
      to the first's value without a call when their scopes are alike, and is called, under its own, when not. */
  lemma TwoParameters(h: Host, a: Slot, mid: seq<Slot>, b: Slot, st: I.State)
    requires SameCallable(a, b) && a.callable !in AllCached(a.sub.slots) && a.callable !in AllCached(mid)
    requires forall k :: k in st.cache ==> k.callable != a.callable
    requires I.ResolveSlots(h, [a] + mid, map[], st).0.Ok?
    ensures I.ExecDepends(h, a, st).0.Ok?
    ensures var v := I.ExecDepends(h, a, st).0.value;
      var (kw, m) := I.ResolveSlots(h, [a] + mid, map[], st);
      var (r, end) := I.ResolveSlots(h, [a] + mid + [b], map[], st);
      && (Alike(a, st.scopes, b, st.scopes) ==> r == Ok(kw.value[b.name := v]) && end == m)
      && (!Alike(a, st.scopes, b, st.scopes) && r.Ok? ==>
            var (args, n) := I.ResolveSlots(h, b.sub.slots, map[], m.(scopes := st.scopes + b.scopes));
            args.Ok? && m.log <= n.log && n.log + [Invoke(b.mode, b.callable, args.value)] <= end.log)
  {
    assert ([a] + mid)[1..] == mid && ([a] + mid)[0] == a;
    var (v, st1) := I.ResolveSlot(h, a, st);
    var kw1 := I.Bind(map[], a.name, v.value);
    DependsGrows(h, a, st);
    SlotsGrow(h, mid, kw1, st1);
    var m := I.ResolveSlots(h, mid, kw1, st1).1;
    SlotsAppend(h, [a] + mid, b, map[], st);
    SecondCaller(h, a, b, st, m);
    SlotsGrow(h, b.sub.slots, map[], m.(scopes := st.scopes + b.scopes));
  }
}
