/** The level-order walk that publishes a route's wire parameters, dependency sub-graphs included. */
module ContractWalk {
  import opened Wrappers

  type PlanId = nat

  /** What `describe_slot` makes of a slot: one descriptor, several for a grouped model, none if inject-only. */
  datatype Descriptor = Descriptor(wireName: string, id: nat)

  datatype Slot = Described(items: seq<Descriptor>) | Dependency(sub: Option<PlanId>)

  type Graph = map<PlanId, seq<Slot>>

  predicate Complete(g: Graph) {
    forall p, i :: p in g && 0 <= i < |g[p]| && g[p][i].Dependency? && g[p][i].sub.Some? ==> g[p][i].sub.value in g
  }

  predicate Leads(s: Slot, q: PlanId) {
    s == Dependency(Some(q))
  }

  predicate Below(g: Graph, p: PlanId, q: PlanId) {
    p in g && exists i :: 0 <= i < |g[p]| && Leads(g[p][i], q)
  }

  predicate Names(s: Slot, d: Descriptor) {
    s.Described? && d in s.items
  }

  /** Plan `p` declares descriptor `d` itself. */
  predicate Declares(g: Graph, p: PlanId, d: Descriptor) {
    p in g && exists i :: 0 <= i < |g[p]| && Names(g[p][i], d)
  }

  // ---- Depth ----------------------------------------------------------------

  /** `p` is reached from the handler's plan by exactly `k` dependency edges. */
  ghost predicate At(g: Graph, root: PlanId, k: nat, p: PlanId) {
    if k == 0 then p == root else exists q :: At(g, root, k - 1, q) && Below(g, q, p)
  }

  /** `p` is first met as a dependency after `k` edges. */
  ghost predicate InLevel(g: Graph, root: PlanId, k: nat, p: PlanId) {
    At(g, root, k, p) && forall j :: 1 <= j < k ==> !At(g, root, j, p)
  }

  /** Some plan at depth `k` declares the wire name. */
  ghost predicate NamedAt(g: Graph, root: PlanId, k: nat, name: string) {
    exists p, d :: At(g, root, k, p) && Declares(g, p, d) && d.wireName == name
  }

  /** `k` is the shallowest depth declaring the name. */
  ghost predicate Shallowest(g: Graph, root: PlanId, k: nat, name: string) {
    NamedAt(g, root, k, name) && forall j :: 0 <= j < k ==> !NamedAt(g, root, j, name)
  }

  /** A plan at depth `k` is either new at that level or was met shallower. */
  lemma AtOrEarlier(g: Graph, root: PlanId, k: nat, p: PlanId)
    requires At(g, root, k, p)
    ensures InLevel(g, root, k, p) || exists j :: 1 <= j < k && At(g, root, j, p)
  {
    if !InLevel(g, root, k, p) {
      var j :| 1 <= j < k && At(g, root, j, p);
      assert At(g, root, j, p);
    }
  }

  /** A level with no edges out of it ends the graph. */
  lemma {:induction false} NothingDeeper(g: Graph, root: PlanId, k: nat, j: nat, p: PlanId)
    requires At(g, root, j, p) && forall q, r :: InLevel(g, root, k, q) ==> !Below(g, q, r)
    ensures exists i :: 0 <= i <= k && At(g, root, i, p)
  {
    if j <= k {
      assert 0 <= j <= k && At(g, root, j, p);
    } else {
      var q :| At(g, root, j - 1, q) && Below(g, q, p);
      NothingDeeper(g, root, k, j - 1, q);
      var i :| 0 <= i <= k && At(g, root, i, q);
      if i == k {
        assert !InLevel(g, root, k, q);
        AtOrEarlier(g, root, k, q);
        var h :| 1 <= h < k && At(g, root, h, q);
        assert At(g, root, h + 1, p) && h + 1 <= k;
      } else {
        assert At(g, root, i + 1, p) && i + 1 <= k;
      }
    }
  }

  // ---- The walk -------------------------------------------------------------

  /** The level being walked holds exactly the slots of the plans first met at depth `k`, each tagged by `from`. */
  ghost predicate IsLevel(g: Graph, root: PlanId, k: nat, level: seq<Slot>, from: seq<PlanId>) {
    && |from| == |level|
    && (forall i :: 0 <= i < |level| ==> InLevel(g, root, k, from[i]) && from[i] in g && level[i] in g[from[i]])
    && (forall p, s :: InLevel(g, root, k, p) && p in g && s in g[p] ==> s in level)
  }

  /** `p` is met as a dependency within `k` edges. */
  ghost predicate MetWithin(g: Graph, root: PlanId, k: nat, p: PlanId) {
    exists j: nat :: 1 <= j <= k && At(g, root, j, p)
  }

  ghost predicate NamedBefore(g: Graph, root: PlanId, k: nat, n: string) {
    exists j: nat :: j < k && NamedAt(g, root, j, n)
  }

  lemma MetWithinNext(g: Graph, root: PlanId, k: nat, p: PlanId)
    ensures MetWithin(g, root, k + 1, p) <==> MetWithin(g, root, k, p) || At(g, root, k + 1, p)
  {
    if MetWithin(g, root, k + 1, p) {
      var j: nat :| 1 <= j <= k + 1 && At(g, root, j, p);
      assert At(g, root, j, p);
    }
    if At(g, root, k + 1, p) {
      assert 1 <= k + 1 <= k + 1 && At(g, root, k + 1, p);
    }
    if MetWithin(g, root, k, p) {
      var j: nat :| 1 <= j <= k && At(g, root, j, p);
      assert At(g, root, j, p);
    }
  }

  lemma NamedBeforeNext(g: Graph, root: PlanId, k: nat, n: string)
    ensures NamedBefore(g, root, k + 1, n) <==> NamedBefore(g, root, k, n) || NamedAt(g, root, k, n)
  {
  }

  ghost predicate SeenWithin(g: Graph, root: PlanId, k: nat, seen: set<PlanId>) {
    forall p :: p in seen <==> MetWithin(g, root, k, p)
  }

  ghost predicate NamesWithin(g: Graph, root: PlanId, k: nat, names: set<string>) {
    forall n :: n in names <==> NamedBefore(g, root, k, n)
  }

  /** One of the first `i` slots of the level leads to `q`. */
  predicate LeadsBefore(level: seq<Slot>, i: nat, q: PlanId)
    requires i <= |level|
  {
    exists j :: 0 <= j < i && Leads(level[j], q)
  }

  predicate SlotNames(s: Slot, n: string) {
    s.Described? && n in WireNames(s.items)
  }

  predicate NamesBefore(level: seq<Slot>, i: nat, n: string)
    requires i <= |level|
  {
    exists j :: 0 <= j < i && SlotNames(level[j], n)
  }

  predicate Yields(out: seq<Descriptor>, n: string) {
    exists i :: 0 <= i < |out| && out[i].wireName == n
  }

  // ---- In which order -------------------------------------------------------

  /** `out` and behind it the items whose wire name is new, each where it is first met. */
  function Kept(out: seq<Descriptor>, items: seq<Descriptor>): seq<Descriptor> {
    if items == [] then out
    else
      var front, last := Kept(out, items[..|items| - 1]), items[|items| - 1];
      if Yields(front, last.wireName) then front else front + [last]
  }

  /** `plans` and behind it the sub-plans that are new, each where it is first met. */
  function Met(plans: seq<PlanId>, subs: seq<PlanId>): seq<PlanId> {
    if subs == [] then plans
    else
      var front, last := Met(plans, subs[..|subs| - 1]), subs[|subs| - 1];
      if last in front then front else front + [last]
  }

  function ItemsOf(slots: seq<Slot>): seq<Descriptor> {
    if slots == [] then []
    else ItemsOf(slots[..|slots| - 1]) + ItemsIn(slots[|slots| - 1])
  }

  function ItemsIn(s: Slot): seq<Descriptor> {
    match s case Described(items) => items case Dependency(_) => []
  }

  function SubsOf(slots: seq<Slot>): seq<PlanId> {
    if slots == [] then []
    else SubsOf(slots[..|slots| - 1]) + SubsIn(slots[|slots| - 1])
  }

  function SubsIn(s: Slot): seq<PlanId> {
    if s.Dependency? && s.sub.Some? then [s.sub.value] else []
  }

  predicate Known(g: Graph, plans: seq<PlanId>) {
    forall p :: p in plans ==> p in g
  }

  function SlotsOf(g: Graph, plans: seq<PlanId>): seq<Slot>
    requires Known(g, plans)
  {
    if plans == [] then [] else SlotsOf(g, plans[..|plans| - 1]) + g[plans[|plans| - 1]]
  }

  /** The handler's own slots, and behind them those of the plans in the order they were expanded. */
  function Visited(g: Graph, root: PlanId, expanded: seq<PlanId>): seq<Slot>
    requires root in g && Known(g, expanded)
  {
    g[root] + SlotsOf(g, expanded)
  }

  lemma {:induction false} KeptOn(out: seq<Descriptor>, a: seq<Descriptor>, b: seq<Descriptor>)
    ensures Kept(Kept(out, a), b) == Kept(out, a + b)
  {
    if b == [] {
      assert a + b == a;
    } else {
      KeptOn(out, a, b[..|b| - 1]);
      assert (a + b)[..|a + b| - 1] == a + b[..|b| - 1];
    }
  }

  lemma {:induction false} MetOn(plans: seq<PlanId>, a: seq<PlanId>, b: seq<PlanId>)
    ensures Met(Met(plans, a), b) == Met(plans, a + b)
  {
    if b == [] {
      assert a + b == a;
    } else {
      MetOn(plans, a, b[..|b| - 1]);
      assert (a + b)[..|a + b| - 1] == a + b[..|b| - 1];
    }
  }

  lemma Regroup<T>(a: seq<T>, b: seq<T>, c: seq<T>)
    ensures a + (b + c) == a + b + c
  {
  }

  lemma {:induction false} ItemsAppend(a: seq<Slot>, b: seq<Slot>)
    ensures ItemsOf(a + b) == ItemsOf(a) + ItemsOf(b)
  {
    if b == [] {
      assert a + b == a;
    } else {
      var front, last := b[..|b| - 1], b[|b| - 1];
      ItemsAppend(a, front);
      assert a + b == (a + front) + [last];
      Regroup(ItemsOf(a), ItemsOf(front), ItemsIn(last));
      ItemsLast(a + front, last);
    }
  }

  lemma {:induction false} SubsAppend(a: seq<Slot>, b: seq<Slot>)
    ensures SubsOf(a + b) == SubsOf(a) + SubsOf(b)
  {
    if b == [] {
      assert a + b == a;
    } else {
      var front, last := b[..|b| - 1], b[|b| - 1];
      SubsAppend(a, front);
      assert a + b == (a + front) + [last];
      Regroup(SubsOf(a), SubsOf(front), SubsIn(last));
      SubsLast(a + front, last);
    }
  }

  lemma ItemsLast(slots: seq<Slot>, s: Slot)
    ensures ItemsOf(slots + [s]) == ItemsOf(slots) + ItemsIn(s)
  {
    assert (slots + [s])[..|slots|] == slots;
  }

  lemma SubsLast(slots: seq<Slot>, s: Slot)
    ensures SubsOf(slots + [s]) == SubsOf(slots) + SubsIn(s)
  {
    assert (slots + [s])[..|slots|] == slots;
  }

  lemma SlotOrder(slots: seq<Slot>, i: nat, out: seq<Descriptor>, plans: seq<PlanId>)
    requires i < |slots|
    ensures Kept(out, ItemsOf(slots[..i + 1])) == Kept(Kept(out, ItemsOf(slots[..i])), ItemsIn(slots[i]))
    ensures Met(plans, SubsOf(slots[..i + 1])) == Met(Met(plans, SubsOf(slots[..i])), SubsIn(slots[i]))
  {
    assert slots[..i + 1][..i] == slots[..i];
    KeptOn(out, ItemsOf(slots[..i]), ItemsIn(slots[i]));
    MetOn(plans, SubsOf(slots[..i]), SubsIn(slots[i]));
  }

  lemma TakeOne<T>(s: seq<T>, i: nat)
    requires i < |s|
    ensures s[..i + 1] == s[..i] + [s[i]]
  {
  }

  lemma KeptOne(out: seq<Descriptor>, done: seq<Descriptor>, item: Descriptor)
    ensures Kept(out, done + [item])
      == if Yields(Kept(out, done), item.wireName) then Kept(out, done) else Kept(out, done) + [item]
  {
    assert (done + [item])[..|done|] == done;
  }

  lemma OneMet(plans: seq<PlanId>, q: PlanId)
    ensures Met(plans, [q]) == if q in plans then plans else plans + [q]
  {
    assert [q][..0] == [];
  }

  lemma SlotsNext(g: Graph, plans: seq<PlanId>, q: PlanId)
    requires Known(g, plans) && q in g
    ensures Known(g, plans + [q]) && SlotsOf(g, plans + [q]) == SlotsOf(g, plans) + g[q]
  {
    assert (plans + [q])[..|plans|] == plans;
  }

  predicate FirstOfName(items: seq<Descriptor>, i: nat)
    requires i < |items|
  {
    forall j :: 0 <= j < i ==> items[j].wireName != items[i].wireName
  }

  /** The positions of the items that are the first of their name. */
  function FirstsAt(items: seq<Descriptor>): (at: seq<nat>)
    ensures forall k :: 0 <= k < |at| ==> at[k] < |items|
  {
    if items == [] then []
    else FirstsAt(items[..|items| - 1]) + if FirstOfName(items, |items| - 1) then [|items| - 1] else []
  }

  function Picked(items: seq<Descriptor>, at: seq<nat>): seq<Descriptor>
    requires forall k :: 0 <= k < |at| ==> at[k] < |items|
  {
    seq(|at|, k requires 0 <= k < |at| => items[at[k]])
  }

  lemma {:induction false} FirstsExactly(items: seq<Descriptor>, i: nat)
    requires i < |items|
    ensures i in FirstsAt(items) <==> FirstOfName(items, i)
  {
    var n := |items| - 1;
    if i < n {
      FirstsExactly(items[..n], i);
      assert FirstOfName(items, i) <==> FirstOfName(items[..n], i);
    }
  }

  lemma {:induction false} FirstsAscend(items: seq<Descriptor>)
    ensures forall a, b :: 0 <= a < b < |FirstsAt(items)| ==> FirstsAt(items)[a] < FirstsAt(items)[b]
  {
    if items != [] {
      FirstsAscend(items[..|items| - 1]);
    }
  }

  /** Of the items met, exactly the first of each wire name are kept, in the order they were met. */
  lemma {:induction false} FirstOfEachName(items: seq<Descriptor>)
    ensures Kept([], items) == Picked(items, FirstsAt(items))
  {
    if items != [] {
      var n, front := |items| - 1, items[..|items| - 1];
      FirstOfEachName(front);
      assert Picked(items, FirstsAt(front)) == Picked(front, FirstsAt(front));
      NewNames(items);
    }
  }

  lemma NewNames(items: seq<Descriptor>)
    requires items != []
    ensures var n, front := |items| - 1, items[..|items| - 1];
      Yields(Picked(front, FirstsAt(front)), items[n].wireName) <==> !FirstOfName(items, n)
  {
    var n, front := |items| - 1, items[..|items| - 1];
    var at := FirstsAt(front);
    if j :| 0 <= j < n && items[j].wireName == items[n].wireName {
      FirstNamed(front, j);
      var i: nat :| i <= j && front[i].wireName == front[j].wireName && FirstOfName(front, i);
      FirstsExactly(front, i);
      var k :| 0 <= k < |at| && at[k] == i;
      assert Picked(front, at)[k].wireName == items[n].wireName;
    }
  }

  lemma {:induction false} FirstNamed(items: seq<Descriptor>, j: nat)
    requires j < |items|
    ensures exists i: nat :: i <= j && items[i].wireName == items[j].wireName && FirstOfName(items, i)
  {
    if !FirstOfName(items, j) {
      var i :| 0 <= i < j && items[i].wireName == items[j].wireName;
      FirstNamed(items, i);
    }
  }

  /** `d` is declared at depth `k`, and no plan above declares its wire name. */
  ghost predicate FromShallowest(g: Graph, root: PlanId, k: nat, d: Descriptor) {
    Shallowest(g, root, k, d.wireName) && exists p :: At(g, root, k, p) && Declares(g, p, d)
  }

  /** Every yielded descriptor is the only one of its name, declared at its shallowest depth. */
  ghost predicate GoodOutput(g: Graph, root: PlanId, out: seq<Descriptor>, depth: seq<nat>, names: set<string>) {
    && |depth| == |out|
    && (forall i, j :: 0 <= i < j < |out| ==> out[i].wireName != out[j].wireName)
    && (forall n :: n in names <==> Yields(out, n))
    && (forall i :: 0 <= i < |out| ==> FromShallowest(g, root, depth[i], out[i]))
  }

  /** Descriptors come level by level, none from below level `k`. */
  predicate Levelled(depth: seq<nat>, k: nat) {
    && (forall i :: 0 <= i < |depth| ==> depth[i] <= k)
    && (forall i, j :: 0 <= i < j < |depth| ==> depth[i] <= depth[j])
  }

  function WireNames(items: seq<Descriptor>): set<string> {
    if items == [] then {} else WireNames(items[..|items| - 1]) + {items[|items| - 1].wireName}
  }

  lemma {:induction false} WireNamesMember(items: seq<Descriptor>, n: string)
    ensures n in WireNames(items) <==> exists d :: d in items && d.wireName == n
  {
    if items != [] {
      var front, last := items[..|items| - 1], items[|items| - 1];
      WireNamesMember(front, n);
      assert items == front + [last];
    }
  }

  lemma NewName(g: Graph, root: PlanId, k: nat, p: PlanId, item: Descriptor, older: set<string>)
    requires NamesWithin(g, root, k, older) && item.wireName !in older && At(g, root, k, p) && Declares(g, p, item)
    ensures Shallowest(g, root, k, item.wireName)
  {
    assert NamedAt(g, root, k, item.wireName);
  }

  lemma OutputGrows(g: Graph, root: PlanId, out: seq<Descriptor>, depth: seq<nat>, names: set<string>, item: Descriptor,
                    k: nat, p: PlanId)
    requires GoodOutput(g, root, out, depth, names) && item.wireName !in names
    requires Shallowest(g, root, k, item.wireName) && At(g, root, k, p) && Declares(g, p, item)
    ensures GoodOutput(g, root, out + [item], depth + [k], names + {item.wireName})
  {
    var out', depth' := out + [item], depth + [k];
    assert out'[|out|].wireName == item.wireName;
    forall n
      ensures n in names + {item.wireName} <==> Yields(out', n)
    {
      if Yields(out, n) {
        var i :| 0 <= i < |out| && out[i].wireName == n;
        assert out'[i].wireName == n;
      }
    }
  }

  lemma LevelGrows(depth: seq<nat>, k: nat)
    requires Levelled(depth, k)
    ensures Levelled(depth + [k], k)
  {
  }

  lemma WireNamesNext(done: seq<Descriptor>, item: Descriptor)
    ensures WireNames(done + [item]) == WireNames(done) + {item.wireName}
  {
    assert (done + [item])[..|done|] == done;
  }

  /** The first `i` items have been yielded, or passed over. */
  predicate YieldedUpTo(names: set<string>, out: seq<Descriptor>, items: seq<Descriptor>, i: nat,
                        names': set<string>, out': seq<Descriptor>)
  {
    i <= |items| && names' == names + WireNames(items[..i]) && out' == Kept(out, items[..i])
  }

  lemma YieldedNext(names: set<string>, out: seq<Descriptor>, items: seq<Descriptor>, i: nat, names': set<string>,
                    out': seq<Descriptor>)
    requires YieldedUpTo(names, out, items, i, names', out') && i < |items|
    ensures YieldedUpTo(names, out, items, i + 1, names' + {items[i].wireName},
                        if Yields(out', items[i].wireName) then out' else out' + [items[i]])
  {
    TakeOne(items, i);
    KeptOne(out, items[..i], items[i]);
    WireNamesNext(items[..i], items[i]);
  }

  /** One item: yielded when its name is new. */
  method YieldItem(g: Graph, root: PlanId, ghost k: nat, ghost p: PlanId, item: Descriptor, names: set<string>,
                   out: seq<Descriptor>, ghost depth: seq<nat>, ghost older: set<string>)
    returns (names': set<string>, out': seq<Descriptor>, ghost depth': seq<nat>)
    requires GoodOutput(g, root, out, depth, names) && Levelled(depth, k) && At(g, root, k, p) && older <= names
    requires Declares(g, p, item) && NamesWithin(g, root, k, older)
    ensures GoodOutput(g, root, out', depth', names') && Levelled(depth', k)
    ensures names' == names + {item.wireName}
    ensures out' == if Yields(out, item.wireName) then out else out + [item]
  {
    names', out', depth' := names, out, depth;
    if item.wireName !in names {
      NewName(g, root, k, p, item, older);
      OutputGrows(g, root, out, depth, names, item, k, p);
      LevelGrows(depth, k);
      names' := names + {item.wireName};
      out', depth' := out + [item], depth + [k];
    }
  }

  /** The `for item in expanded` loop: yield the descriptors of one slot whose name is new. */
  method YieldNew(g: Graph, root: PlanId, ghost k: nat, ghost p: PlanId, items: seq<Descriptor>, names: set<string>,
                  out: seq<Descriptor>, ghost depth: seq<nat>, ghost older: set<string>)
    returns (names': set<string>, out': seq<Descriptor>, ghost depth': seq<nat>)
    requires GoodOutput(g, root, out, depth, names) && Levelled(depth, k) && At(g, root, k, p) && older <= names
    requires forall d :: d in items ==> Declares(g, p, d)
    requires NamesWithin(g, root, k, older)
    ensures GoodOutput(g, root, out', depth', names') && Levelled(depth', k)
    ensures names' == names + WireNames(items) && out' == Kept(out, items)
  {
    names', out', depth' := names, out, depth;
    for i := 0 to |items|
      invariant GoodOutput(g, root, out', depth', names') && Levelled(depth', k) && older <= names'
      invariant YieldedUpTo(names, out, items, i, names', out')
    {
      YieldedNext(names, out, items, i, names', out');
      names', out', depth' := YieldItem(g, root, k, p, items[i], names', out', depth', older);
    }
    assert items[..|items|] == items;
  }

  // ---- From one level to the next -------------------------------------------

  lemma LevelEdge(g: Graph, root: PlanId, k: nat, level: seq<Slot>, from: seq<PlanId>, i: nat, q: PlanId)
    requires IsLevel(g, root, k, level, from) && i < |level| && Leads(level[i], q)
    ensures At(g, root, k + 1, q)
  {
    var p := from[i];
    var j :| 0 <= j < |g[p]| && g[p][j] == level[i];
    assert At(g, root, k, p) && Below(g, p, q);
  }

  lemma EdgeInLevel(g: Graph, root: PlanId, k: nat, level: seq<Slot>, from: seq<PlanId>, q: PlanId)
    requires IsLevel(g, root, k, level, from) && At(g, root, k + 1, q)
    ensures LeadsBefore(level, |level|, q) || MetWithin(g, root, k, q)
  {
    var p :| At(g, root, k, p) && Below(g, p, q);
    AtOrEarlier(g, root, k, p);
    if InLevel(g, root, k, p) {
      var j :| 0 <= j < |g[p]| && Leads(g[p][j], q);
      assert g[p][j] in g[p] && g[p][j] in level;
      var i :| 0 <= i < |level| && level[i] == g[p][j];
      assert Leads(level[i], q);
    } else {
      var j :| 1 <= j < k && At(g, root, j, p);
      assert At(g, root, j + 1, q);
    }
  }

  lemma SeenNext(g: Graph, root: PlanId, k: nat, level: seq<Slot>, from: seq<PlanId>, seen: set<PlanId>,
      seen': set<PlanId>)
    requires IsLevel(g, root, k, level, from) && SeenWithin(g, root, k, seen)
    requires forall q :: q in seen' <==> q in seen || LeadsBefore(level, |level|, q)
    ensures SeenWithin(g, root, k + 1, seen')
    ensures forall q :: q in seen' && q !in seen <==> InLevel(g, root, k + 1, q)
  {
    forall q
      ensures q in seen' <==> q in seen || At(g, root, k + 1, q)
      ensures q in seen' <==> MetWithin(g, root, k + 1, q)
      ensures q in seen' && q !in seen <==> InLevel(g, root, k + 1, q)
    {
      if q in seen' && q !in seen {
        var i :| 0 <= i < |level| && Leads(level[i], q);
        LevelEdge(g, root, k, level, from, i, q);
      }
      if At(g, root, k + 1, q) {
        EdgeInLevel(g, root, k, level, from, q);
      }
      MetWithinNext(g, root, k, q);
      NewAtLevel(g, root, k, q);
    }
  }

  lemma NewAtLevel(g: Graph, root: PlanId, k: nat, q: PlanId)
    ensures InLevel(g, root, k + 1, q) <==> At(g, root, k + 1, q) && !MetWithin(g, root, k, q)
  {
    if MetWithin(g, root, k, q) {
      var j: nat :| 1 <= j <= k && At(g, root, j, q);
      assert At(g, root, j, q);
    }
    if At(g, root, k + 1, q) && !InLevel(g, root, k + 1, q) {
      AtOrEarlier(g, root, k + 1, q);
      var j :| 1 <= j < k + 1 && At(g, root, j, q);
      assert At(g, root, j, q);
    }
  }

  lemma NamesNext(g: Graph, root: PlanId, k: nat, level: seq<Slot>, from: seq<PlanId>, names: set<string>,
      names': set<string>)
    requires IsLevel(g, root, k, level, from) && NamesWithin(g, root, k, names)
    requires forall n :: n in names' <==> n in names || NamesBefore(level, |level|, n)
    ensures NamesWithin(g, root, k + 1, names')
  {
    forall n
      ensures n in names' <==> n in names || NamedAt(g, root, k, n)
      ensures n in names' <==> NamedBefore(g, root, k + 1, n)
    {
      if NamesBefore(level, |level|, n) {
        var i :| 0 <= i < |level| && SlotNames(level[i], n);
        WireNamesMember(level[i].items, n);
        var d :| d in level[i].items && d.wireName == n;
        SlotDeclares(g, root, k, level, from, i, d);
      }
      if NamedAt(g, root, k, n) {
        NamedInLevel(g, root, k, level, from, n);
      }
      NamedBeforeNext(g, root, k, n);
    }
  }

  lemma SlotDeclares(g: Graph, root: PlanId, k: nat, level: seq<Slot>, from: seq<PlanId>, i: nat, d: Descriptor)
    requires IsLevel(g, root, k, level, from) && i < |level| && Names(level[i], d)
    ensures At(g, root, k, from[i]) && Declares(g, from[i], d) && NamedAt(g, root, k, d.wireName)
  {
    var j :| 0 <= j < |g[from[i]]| && g[from[i]][j] == level[i];
    assert Names(g[from[i]][j], d);
  }

  lemma NamedInLevel(g: Graph, root: PlanId, k: nat, level: seq<Slot>, from: seq<PlanId>, n: string)
    requires IsLevel(g, root, k, level, from) && NamedAt(g, root, k, n)
    ensures NamesBefore(level, |level|, n) || NamedBefore(g, root, k, n)
  {
    var p, d :| At(g, root, k, p) && Declares(g, p, d) && d.wireName == n;
    AtOrEarlier(g, root, k, p);
    if InLevel(g, root, k, p) {
      var j :| 0 <= j < |g[p]| && Names(g[p][j], d);
      assert g[p][j] in g[p] && g[p][j] in level;
      WireNamesMember(g[p][j].items, n);
      var i :| 0 <= i < |level| && level[i] == g[p][j];
      assert SlotNames(level[i], n);
    } else {
      var j :| 1 <= j < k && At(g, root, j, p);
      assert NamedAt(g, root, j, n);
    }
  }

  /** `p` is a dependency, at some depth. */
  ghost predicate Reachable(g: Graph, root: PlanId, p: PlanId) {
    exists j: nat :: 1 <= j && At(g, root, j, p)
  }

  /** The wire name is declared somewhere in the graph. */
  ghost predicate Declared(g: Graph, root: PlanId, n: string) {
    exists k: nat :: NamedAt(g, root, k, n)
  }

  ghost predicate DeadEnd(g: Graph, root: PlanId, k: nat) {
    forall q, r :: InLevel(g, root, k, q) ==> !Below(g, q, r)
  }

  lemma LevelHolds(g: Graph, root: PlanId, k: nat, level: seq<Slot>, from: seq<PlanId>, q: PlanId, i: nat)
    requires IsLevel(g, root, k, level, from) && InLevel(g, root, k, q) && q in g && i < |g[q]|
    ensures g[q][i] in level
  {
    assert g[q][i] in g[q];
  }

  lemma EmptyLevelDeadEnd(g: Graph, root: PlanId, k: nat, level: seq<Slot>, from: seq<PlanId>)
    requires IsLevel(g, root, k, level, from) && level == []
    ensures DeadEnd(g, root, k)
  {
    forall q, r | InLevel(g, root, k, q)
      ensures !Below(g, q, r)
    {
      if Below(g, q, r) {
        var i :| 0 <= i < |g[q]| && Leads(g[q][i], r);
        LevelHolds(g, root, k, level, from, q, i);
      }
    }
  }

  lemma MetIsReachable(g: Graph, root: PlanId, k: nat, p: PlanId)
    requires DeadEnd(g, root, k)
    ensures MetWithin(g, root, k, p) <==> Reachable(g, root, p)
  {
    if MetWithin(g, root, k, p) {
      var j: nat :| 1 <= j <= k && At(g, root, j, p);
      assert 1 <= j && At(g, root, j, p);
      assert Reachable(g, root, p);
    }
    if Reachable(g, root, p) {
      var j: nat :| 1 <= j && At(g, root, j, p);
      Within(g, root, k, j, p);
    }
  }

  /** Once a level is empty, nothing reachable has been missed. */
  lemma EmptyLevelEnds(g: Graph, root: PlanId, k: nat, seen: set<PlanId>, names: set<string>)
    requires IsLevel(g, root, k, [], []) && SeenWithin(g, root, k, seen) && NamesWithin(g, root, k, names)
    ensures forall p :: p in seen <==> Reachable(g, root, p)
    ensures forall n :: n in names <==> Declared(g, root, n)
  {
    EmptyLevelDeadEnd(g, root, k, [], []);
    forall p
      ensures p in seen <==> Reachable(g, root, p)
    {
      MetIsReachable(g, root, k, p);
    }
    forall n
      ensures n in names <==> Declared(g, root, n)
    {
      if Declared(g, root, n) {
        var j: nat :| NamedAt(g, root, j, n);
        NamedWithin(g, root, k, j, n);
      }
    }
  }

  lemma NamedWithin(g: Graph, root: PlanId, k: nat, j: nat, n: string)
    requires IsLevel(g, root, k, [], []) && DeadEnd(g, root, k) && NamedAt(g, root, j, n)
    ensures NamedBefore(g, root, k, n)
  {
    var p, d :| At(g, root, j, p) && Declares(g, p, d) && d.wireName == n;
    NothingDeeper(g, root, k, j, p);
    var i :| 0 <= i <= k && At(g, root, i, p);
    assert NamedAt(g, root, i, n);
    if i == k {
      NamedInLevel(g, root, k, [], [], n);
    }
  }

  /** A dependency met at any depth is met within `k` edges, when level `k` leads nowhere. */
  lemma {:induction false} Within(g: Graph, root: PlanId, k: nat, j: nat, p: PlanId)
    requires 1 <= j && At(g, root, j, p) && DeadEnd(g, root, k)
    ensures MetWithin(g, root, k, p)
  {
    if j <= k {
      assert 1 <= j <= k && At(g, root, j, p);
    } else {
      var q :| At(g, root, j - 1, q) && Below(g, q, p);
      NothingDeeper(g, root, k, j - 1, q);
      var i :| 0 <= i <= k && At(g, root, i, q);
      if i == k {
        assert !InLevel(g, root, k, q);
        AtOrEarlier(g, root, k, q);
        var h :| 1 <= h < k && At(g, root, h, q);
        assert At(g, root, h + 1, p) && h + 1 <= k;
      } else {
        assert At(g, root, i + 1, p) && 1 <= i + 1 <= k;
      }
    }
  }

  predicate NoRepeats(s: seq<PlanId>) {
    forall i, j :: 0 <= i < j < |s| ==> s[i] != s[j]
  }

  /** The slots queued for the next level are those of the plans first seen at this one. */
  ghost predicate Queued(g: Graph, old_: set<PlanId>, seen: set<PlanId>, deeper: seq<Slot>, from: seq<PlanId>) {
    && |from| == |deeper|
    && (forall j :: 0 <= j < |deeper| ==>
         from[j] in seen && from[j] !in old_ && from[j] in g && deeper[j] in g[from[j]])
    && (forall q: PlanId, s: Slot :: q in seen && q !in old_ && q in g && s in g[q] ==> s in deeper)
  }

  /** Expand one sub-plan: `deeper.extend(sub_plan.slots)`. */
  lemma QueueOne(g: Graph, old_: set<PlanId>, seen: set<PlanId>, deeper: seq<Slot>, from: seq<PlanId>, q: PlanId)
    requires Queued(g, old_, seen, deeper, from) && q in g && q !in old_
    ensures Queued(g, old_, seen + {q}, deeper + g[q], from + seq(|g[q]|, _ => q))
  {
  }

  lemma BeforeNext(level: seq<Slot>, i: nat)
    requires i < |level|
    ensures forall q :: LeadsBefore(level, i + 1, q) <==> LeadsBefore(level, i, q) || Leads(level[i], q)
    ensures forall n :: NamesBefore(level, i + 1, n) <==> NamesBefore(level, i, n) || SlotNames(level[i], n)
  {
  }

  ghost predicate SameMembers(expanded: seq<PlanId>, seen: set<PlanId>) {
    NoRepeats(expanded) && forall p :: p in expanded <==> p in seen
  }

  lemma ExpandOne(g: Graph, expanded: seq<PlanId>, plans: set<PlanId>, above: seq<Slot>, deeper: seq<Slot>, q: PlanId)
    requires Known(g, expanded) && SlotsOf(g, expanded) == above + deeper && SameMembers(expanded, plans)
    requires q in g && q !in plans
    ensures Known(g, expanded + [q]) && SlotsOf(g, expanded + [q]) == above + (deeper + g[q])
    ensures SameMembers(expanded + [q], plans + {q})
  {
    SlotsNext(g, expanded, q);
    assert above + deeper + g[q] == above + (deeper + g[q]);
  }

  /** One slot of the level: queue a sub-plan met for the first time, or yield the new names it describes. */
  method WalkSlot(g: Graph, root: PlanId, ghost k: nat, ghost level: seq<Slot>, ghost from: seq<PlanId>, ghost i: nat,
      slot: Slot,
                  plans: set<PlanId>, names: set<string>, out: seq<Descriptor>, deeper: seq<Slot>,
                  ghost plans0: set<PlanId>, ghost names0: set<string>, ghost fromDeeper: seq<PlanId>,
                  ghost depth: seq<nat>, ghost expanded: seq<PlanId>, ghost above: seq<Slot>)
    returns (plans': set<PlanId>, names': set<string>, out': seq<Descriptor>, deeper': seq<Slot>,
             ghost fromDeeper': seq<PlanId>, ghost depth': seq<nat>, ghost expanded': seq<PlanId>)
    requires Complete(g) && IsLevel(g, root, k, level, from) && i < |level| && slot == level[i]
    requires NamesWithin(g, root, k, names0) && names0 <= names && GoodOutput(g, root, out, depth, names)
    requires Levelled(depth, k)
    requires plans0 <= plans <= g.Keys && Queued(g, plans0, plans, deeper, fromDeeper) && SameMembers(expanded, plans)
    requires Known(g, expanded) && SlotsOf(g, expanded) == above + deeper
    ensures plans <= plans' <= g.Keys && forall q :: q in plans' <==> q in plans || Leads(slot, q)
    ensures names <= names' && forall n :: n in names' <==> n in names || SlotNames(slot, n)
    ensures GoodOutput(g, root, out', depth', names') && Levelled(depth', k) && SameMembers(expanded', plans')
    ensures Queued(g, plans0, plans', deeper', fromDeeper') && (plans' == plans ==> deeper' == deeper)
    ensures Known(g, expanded') && SlotsOf(g, expanded') == above + deeper'
    ensures out' == Kept(out, ItemsIn(slot)) && expanded' == Met(expanded, SubsIn(slot))
  {
    plans', names', out', deeper' := plans, names, out, deeper;
    fromDeeper', depth', expanded' := fromDeeper, depth, expanded;
    match slot {
      case Dependency(sub) =>
        if sub.Some? {
          OneMet(expanded, sub.value);
        }
        if sub.Some? && sub.value !in plans {
          assert sub.value in g by {
            var j :| 0 <= j < |g[from[i]]| && g[from[i]][j] == slot;
          }
          QueueOne(g, plans0, plans, deeper, fromDeeper, sub.value);
          ExpandOne(g, expanded, plans, above, deeper, sub.value);
          plans' := plans + {sub.value};
          expanded' := expanded + [sub.value];
          deeper' := deeper + g[sub.value];
          fromDeeper' := fromDeeper + seq(|g[sub.value]|, _ => sub.value);
        }
      case Described(items) =>
        forall d | d in items
          ensures Declares(g, from[i], d)
        {
          assert Names(slot, d);
          SlotDeclares(g, root, k, level, from, i, d);
        }
        names', out', depth' := YieldNew(g, root, k, from[i], items, names, out, depth, names0);
    }
  }

  /** One level: its slots in order. */
  method WalkLevel(g: Graph, root: PlanId, ghost k: nat, level: seq<Slot>, ghost from: seq<PlanId>,
                   plans: set<PlanId>, names: set<string>, out: seq<Descriptor>,
                   ghost depth: seq<nat>, ghost expanded: seq<PlanId>)
    returns (plans': set<PlanId>, names': set<string>, out': seq<Descriptor>, deeper: seq<Slot>,
             ghost fromDeeper: seq<PlanId>, ghost depth': seq<nat>, ghost expanded': seq<PlanId>)
    requires Complete(g) && IsLevel(g, root, k, level, from) && NamesWithin(g, root, k, names) && plans <= g.Keys
    requires GoodOutput(g, root, out, depth, names) && Levelled(depth, k) && SameMembers(expanded, plans)
    requires Known(g, expanded)
    ensures plans <= plans' <= g.Keys && forall q :: q in plans' <==> q in plans || LeadsBefore(level, |level|, q)
    ensures forall n :: n in names' <==> n in names || NamesBefore(level, |level|, n)
    ensures GoodOutput(g, root, out', depth', names') && Levelled(depth', k) && SameMembers(expanded', plans')
    ensures Queued(g, plans, plans', deeper, fromDeeper) && (plans' == plans ==> deeper == [])
    ensures Known(g, expanded') && SlotsOf(g, expanded') == SlotsOf(g, expanded) + deeper
    ensures out' == Kept(out, ItemsOf(level)) && expanded' == Met(expanded, SubsOf(level))
  {
    plans', names', out', deeper := plans, names, out, [];
    fromDeeper, depth', expanded' := [], depth, expanded;
    for i := 0 to |level|
      invariant plans <= plans' <= g.Keys && names <= names'
      invariant forall q :: q in plans' <==> q in plans || LeadsBefore(level, i, q)
      invariant forall n :: n in names' <==> n in names || NamesBefore(level, i, n)
      invariant Queued(g, plans, plans', deeper, fromDeeper)
      invariant GoodOutput(g, root, out', depth', names') && Levelled(depth', k) && SameMembers(expanded', plans')
      invariant plans' == plans ==> deeper == []
      invariant Known(g, expanded') && SlotsOf(g, expanded') == SlotsOf(g, expanded) + deeper
      invariant out' == Kept(out, ItemsOf(level[..i])) && expanded' == Met(expanded, SubsOf(level[..i]))
    {
      BeforeNext(level, i);
      SlotOrder(level, i, out, expanded);
      plans', names', out', deeper, fromDeeper, depth', expanded' :=
        WalkSlot(g, root, k, level, from, i, level[i], plans', names', out', deeper,
                 plans, names, fromDeeper, depth', expanded', SlotsOf(g, expanded));
    }
    assert level[..|level|] == level;
  }

  /** What was queued is the next level. */
  lemma QueuedIsLevel(g: Graph, root: PlanId, k: nat, before: set<PlanId>, seen: set<PlanId>, deeper: seq<Slot>,
                      from: seq<PlanId>)
    requires Queued(g, before, seen, deeper, from)
    requires forall q :: q in seen && q !in before <==> InLevel(g, root, k, q)
    ensures IsLevel(g, root, k, deeper, from)
  {
  }

  /** What is done and the level to come are the slots visited so far; the output is what the former amounts to. */
  ghost predicate InOrder(g: Graph, root: PlanId, done: seq<Slot>, level: seq<Slot>, out: seq<Descriptor>,
                          expanded: seq<PlanId>)
  {
    && root in g && Known(g, expanded) && done + level == Visited(g, root, expanded)
    && out == Kept([], ItemsOf(done)) && expanded == Met([], SubsOf(done))
  }

  lemma OrderNext(g: Graph, root: PlanId, done: seq<Slot>, level: seq<Slot>, out: seq<Descriptor>,
                  expanded: seq<PlanId>, deeper: seq<Slot>, out': seq<Descriptor>, expanded': seq<PlanId>)
    requires InOrder(g, root, done, level, out, expanded)
    requires out' == Kept(out, ItemsOf(level)) && expanded' == Met(expanded, SubsOf(level))
    requires Known(g, expanded') && SlotsOf(g, expanded') == SlotsOf(g, expanded) + deeper
    ensures InOrder(g, root, done + level, deeper, out', expanded')
  {
    KeptNext(done, level);
    MetNext(done, level);
    VisitedNext(g, root, expanded, expanded', deeper);
  }

  lemma KeptNext(done: seq<Slot>, level: seq<Slot>)
    ensures Kept(Kept([], ItemsOf(done)), ItemsOf(level)) == Kept([], ItemsOf(done + level))
  {
    ItemsAppend(done, level);
    KeptOn([], ItemsOf(done), ItemsOf(level));
  }

  lemma MetNext(done: seq<Slot>, level: seq<Slot>)
    ensures Met(Met([], SubsOf(done)), SubsOf(level)) == Met([], SubsOf(done + level))
  {
    SubsAppend(done, level);
    MetOn([], SubsOf(done), SubsOf(level));
  }

  lemma VisitedNext(g: Graph, root: PlanId, expanded: seq<PlanId>, expanded': seq<PlanId>, deeper: seq<Slot>)
    requires root in g && Known(g, expanded) && Known(g, expanded')
    requires SlotsOf(g, expanded') == SlotsOf(g, expanded) + deeper
    ensures Visited(g, root, expanded') == Visited(g, root, expanded) + deeper
  {
  }

  lemma OrderStart(g: Graph, root: PlanId)
    requires root in g
    ensures InOrder(g, root, [], g[root], [], [])
  {
  }

  lemma OrderEnd(g: Graph, root: PlanId, done: seq<Slot>, out: seq<Descriptor>, expanded: seq<PlanId>)
    requires InOrder(g, root, done, [], out, expanded)
    ensures Known(g, expanded) && expanded == Met([], SubsOf(Visited(g, root, expanded)))
    ensures out == Kept([], ItemsOf(Visited(g, root, expanded)))
  {
    assert done + [] == done;
  }

  lemma LevelDeepens(depth: seq<nat>, k: nat)
    requires Levelled(depth, k)
    ensures Levelled(depth, k + 1)
  {
  }

  /** The walk before level `k`: everything above has been yielded and expanded. */
  ghost predicate Walking(g: Graph, root: PlanId, k: nat, level: seq<Slot>, from: seq<PlanId>, plans: set<PlanId>,
                          names: set<string>, out: seq<Descriptor>, depth: seq<nat>, expanded: seq<PlanId>)
  {
    && IsLevel(g, root, k, level, from) && SeenWithin(g, root, k, plans) && plans <= g.Keys
    && NamesWithin(g, root, k, names) && GoodOutput(g, root, out, depth, names)
    && Levelled(depth, k) && SameMembers(expanded, plans)
  }

  lemma WalkStart(g: Graph, root: PlanId, from: seq<PlanId>)
    requires Complete(g) && root in g && from == seq(|g[root]|, _ => root)
    ensures Walking(g, root, 0, g[root], from, {}, {}, [], [], [])
  {
    assert forall p :: At(g, root, 0, p) <==> p == root;
  }

  lemma WalkEnd(g: Graph, root: PlanId, k: nat, from: seq<PlanId>, plans: set<PlanId>, names: set<string>,
                out: seq<Descriptor>, depth: seq<nat>, expanded: seq<PlanId>)
    requires Walking(g, root, k, [], from, plans, names, out, depth, expanded)
    ensures forall p :: p in expanded <==> Reachable(g, root, p)
    ensures forall n :: Yields(out, n) <==> Declared(g, root, n)
  {
    assert from == [];
    EmptyLevelEnds(g, root, k, plans, names);
  }

  /** `for slot in level`, and the level behind it. */
  method NextLevel(g: Graph, root: PlanId, ghost k: nat, level: seq<Slot>, ghost from: seq<PlanId>, plans: set<PlanId>,
                   names: set<string>, out: seq<Descriptor>, ghost depth: seq<nat>, ghost expanded: seq<PlanId>,
                   ghost done: seq<Slot>)
    returns (deeper: seq<Slot>, plans': set<PlanId>, names': set<string>, out': seq<Descriptor>,
             ghost fromDeeper: seq<PlanId>, ghost depth': seq<nat>, ghost expanded': seq<PlanId>)
    requires Complete(g) && Walking(g, root, k, level, from, plans, names, out, depth, expanded)
    requires InOrder(g, root, done, level, out, expanded)
    ensures Walking(g, root, k + 1, deeper, fromDeeper, plans', names', out', depth', expanded')
    ensures InOrder(g, root, done + level, deeper, out', expanded')
    ensures plans <= plans' && (plans' == plans ==> deeper == [])
  {
    plans', names', out', deeper, fromDeeper, depth', expanded' :=
      WalkLevel(g, root, k, level, from, plans, names, out, depth, expanded);
    SeenNext(g, root, k, level, from, plans, plans');
    NamesNext(g, root, k, level, from, names, names');
    QueuedIsLevel(g, root, k + 1, plans, plans', deeper, fromDeeper);
    LevelDeepens(depth', k);
    OrderNext(g, root, done, level, out, expanded, deeper, out', expanded');
  }

  /** `_iter_through_dependencies`: one descriptor per reachable wire name, the first one met of those at the shallowest
      level declaring it; every reachable sub-plan expanded once, in the order they are met. */
  method IterThroughDependencies(g: Graph, root: PlanId)
    returns (out: seq<Descriptor>, ghost depth: seq<nat>, ghost expanded: seq<PlanId>)
    requires Complete(g) && root in g
    ensures |depth| == |out|
    ensures forall i, j :: 0 <= i < j < |out| ==> out[i].wireName != out[j].wireName
    ensures forall n :: Yields(out, n) <==> Declared(g, root, n)
    ensures forall i :: 0 <= i < |out| ==> FromShallowest(g, root, depth[i], out[i])
    ensures forall i, j :: 0 <= i < j < |out| ==> depth[i] <= depth[j]
    ensures NoRepeats(expanded)
    ensures forall p :: p in expanded <==> Reachable(g, root, p)
    ensures Known(g, expanded) && expanded == Met([], SubsOf(Visited(g, root, expanded)))
    ensures out == Kept([], ItemsOf(Visited(g, root, expanded)))
  {
    var seenNames: set<string> := {};
    var seenPlans: set<PlanId> := {};
    var level := g[root];
    out, depth, expanded := [], [], [];
    ghost var k: nat := 0;
    ghost var from: seq<PlanId> := seq(|level|, _ => root);
    ghost var done: seq<Slot> := [];
    WalkStart(g, root, from);
    OrderStart(g, root);
    while level != []
      invariant Walking(g, root, k, level, from, seenPlans, seenNames, out, depth, expanded)
      invariant InOrder(g, root, done, level, out, expanded)
      decreases g.Keys - seenPlans, |level|
    {
      ghost var walked := done + level;
      level, seenPlans, seenNames, out, from, depth, expanded :=
        NextLevel(g, root, k, level, from, seenPlans, seenNames, out, depth, expanded, done);
      done, k := walked, k + 1;
    }
    OrderEnd(g, root, done, out, expanded);
    WalkEnd(g, root, k, from, seenPlans, seenNames, out, depth, expanded);
  }
}
