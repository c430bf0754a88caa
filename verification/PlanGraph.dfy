/** Plans as objects with identity: the seen-set walks over a plan graph that may be shared or even cyclic. */
module PlanGraph {
  import opened Wrappers
  import opened Plans
  import C = Codegen
  import T = PlanTrees

  /** `id(plan)` */
  type PlanId = nat

  datatype Node =
    | ScopesNode
    | DependsNode(callable: Callable, useCache: bool, scopes: seq<string>, mode: Mode, sub: Option<PlanId>)
    | BindNode                                   // any slot kind the graph compiler supports
    | OtherNode                                  // any it does not

  datatype PlanObject = PlanObject(slots: seq<Node>, batched: bool)

  type Graph = map<PlanId, PlanObject>

  /** Every `sub_plan` reference leads to a plan object. */
  predicate Complete(g: Graph) {
    forall p, i :: p in g && 0 <= i < |g[p].slots| && g[p].slots[i].DependsNode? && g[p].slots[i].sub.Some? ==>
      g[p].slots[i].sub.value in g
  }

  predicate Below(g: Graph, p: PlanId, q: PlanId) {
    p in g && exists i :: 0 <= i < |g[p].slots| && g[p].slots[i].DependsNode? && g[p].slots[i].sub == Some(q)
  }

  ghost predicate IsPath(g: Graph, path: seq<PlanId>) {
    && path != [] && path[0] in g
    && forall i :: 0 <= i < |path| - 1 ==> Below(g, path[i], path[i + 1])
  }

  ghost predicate Reaches(g: Graph, p: PlanId, q: PlanId) {
    exists path :: IsPath(g, path) && path[0] == p && path[|path| - 1] == q
  }

  // ---- What each walk looks for ---------------------------------------------

  predicate UnsafeNode(n: Node) {
    n.DependsNode? && (n.scopes != [] || n.mode.Generator? || n.mode.AsyncGenerator?)
  }

  predicate HasUnsafe(g: Graph, p: PlanId) {
    p in g && exists i :: 0 <= i < |g[p].slots| && UnsafeNode(g[p].slots[i])
  }

  predicate HasScopes(g: Graph, p: PlanId) {
    p in g && exists i :: 0 <= i < |g[p].slots| && g[p].slots[i].ScopesNode?
  }

  predicate CachesHere(g: Graph, p: PlanId, c: Callable) {
    p in g && exists i ::
      0 <= i < |g[p].slots| && g[p].slots[i].DependsNode? && g[p].slots[i].useCache && g[p].slots[i].callable == c
  }

  predicate UncompilableNode(n: Node) {
    n.OtherNode? || (n.DependsNode? && (!n.useCache || n.sub.None?))
  }

  predicate Uncompilable(g: Graph, p: PlanId) {
    p in g && (g[p].batched || exists i :: 0 <= i < |g[p].slots| && UncompilableNode(g[p].slots[i]))
  }

  // ---- Closure --------------------------------------------------------------

  /** Every plan visited since `before` has had everything below it visited. */
  ghost predicate ClosedSince(g: Graph, before: set<PlanId>, seen: set<PlanId>) {
    forall p, q :: p in seen && p !in before && Below(g, p, q) ==> q in seen
  }

  lemma {:induction false} ClosedCovers(g: Graph, seen: set<PlanId>, path: seq<PlanId>)
    requires Complete(g) && IsPath(g, path) && path[0] in seen && ClosedSince(g, {}, seen)
    ensures path[|path| - 1] in seen
  {
    if |path| > 1 {
      assert Below(g, path[0], path[1]);
      ClosedCovers(g, seen, path[1..]);
    }
  }

  lemma ReachesSelf(g: Graph, p: PlanId)
    requires p in g
    ensures Reaches(g, p, p)
  {
    assert IsPath(g, [p]);
  }

  lemma ReachesBelow(g: Graph, p: PlanId, q: PlanId, r: PlanId)
    requires Below(g, p, q) && Reaches(g, q, r)
    ensures Reaches(g, p, r)
  {
    var path :| IsPath(g, path) && path[0] == q && path[|path| - 1] == r;
    var longer := [p] + path;
    assert IsPath(g, longer);
  }

  /** The `seen_plans` set of one top-level call, mutated as the walk recurses. */
  class Visitor {
    const g: Graph
    var seen: set<PlanId>

    constructor (g: Graph)
      ensures this.g == g && seen == {}
    {
      this.g, seen := g, {};
    }

    /** `_cached_callables`, below one plan. */
    method CachedBelow(sub: Option<PlanId>) returns (found: set<Callable>)
      requires Complete(g) && (sub.Some? ==> sub.value in g)
      modifies this
      ensures old(seen) <= seen && ClosedSince(g, old(seen), seen) && (sub.Some? ==> sub.value in seen)
      ensures forall p :: p in seen && p !in old(seen) ==> sub.Some? && Reaches(g, sub.value, p)
      ensures forall c :: c in found <==> exists p :: p in seen && p !in old(seen) && CachesHere(g, p, c)
      decreases g.Keys - seen
    {
      found := {};
      if sub.None? || sub.value in seen {
        return;
      }
      var p := sub.value;
      seen := seen + {p};
      ReachesSelf(g, p);
      var slots := g[p].slots;
      for i := 0 to |slots|
        invariant old(seen) + {p} <= seen && p !in old(seen)
        invariant forall q :: q in seen && q !in old(seen) ==> Reaches(g, p, q)
        invariant forall q, r :: q in seen && q !in old(seen) && q != p && Below(g, q, r) ==> r in seen
        invariant forall j :: 0 <= j < i && slots[j].DependsNode? && slots[j].sub.Some? ==> slots[j].sub.value in seen
        invariant forall c :: c in found <==>
                    || (exists j :: 0 <= j < i && slots[j].DependsNode? && slots[j].useCache && slots[j].callable == c)
                    || (exists q :: q in seen && q !in old(seen) && q != p && CachesHere(g, q, c))
      {
        var s := slots[i];
        if s.DependsNode? {
          label before:
          ghost var had := found;
          var below := CachedBelow(s.sub);
          found := found + (if s.useCache then {s.callable} else {}) + below;
          forall q | q in seen && q !in old@before(seen)
            ensures Reaches(g, p, q)
          {
            assert Below(g, p, s.sub.value);
            ReachesBelow(g, p, s.sub.value, q);
          }
          forall c
            ensures c in below ==> exists q :: q in seen && q !in old(seen) && q != p && CachesHere(g, q, c)
            ensures (exists q :: q in seen && q !in old(seen) && q != p && CachesHere(g, q, c)) ==>
                    c in below || exists q :: q in old@before(seen) && q !in old(seen) && q != p && CachesHere(g, q, c)
          {
          }
        }
      }
    }

    /** `_subgraph_reads_scopes` */
    method ReadsScopes(plan: Option<PlanId>) returns (r: bool)
      requires Complete(g) && (plan.Some? ==> plan.value in g)
      modifies this
      ensures old(seen) <= seen
      ensures r ==> plan.Some? && exists q :: Reaches(g, plan.value, q) && HasScopes(g, q)
      ensures !r ==> ClosedSince(g, old(seen), seen) && (plan.Some? ==> plan.value in seen)
      ensures !r ==> forall p :: p in seen && p !in old(seen) ==> !HasScopes(g, p)
      decreases g.Keys - seen
    {
      if plan.None? || plan.value in seen {
        return false;
      }
      var p := plan.value;
      seen := seen + {p};
      ReachesSelf(g, p);
      var slots := g[p].slots;
      for i := 0 to |slots|
        invariant old(seen) + {p} <= seen && p !in old(seen)
        invariant forall q, r :: q in seen && q !in old(seen) && q != p && Below(g, q, r) ==> r in seen
        invariant forall q :: q in seen && q !in old(seen) && q != p ==> !HasScopes(g, q)
        invariant forall j :: 0 <= j < i ==>
                    !slots[j].ScopesNode? && (slots[j].DependsNode? && slots[j].sub.Some?
                        ==> slots[j].sub.value in seen)
      {
        var s := slots[i];
        if s.ScopesNode? {
          assert HasScopes(g, p);
          return true;
        }
        if s.DependsNode? {
          r := ReadsScopes(s.sub);
          if r {
            assert Below(g, p, s.sub.value);
            ghost var q :| Reaches(g, s.sub.value, q) && HasScopes(g, q);
            ReachesBelow(g, p, s.sub.value, q);
            return;
          }
        }
      }
      r := false;
    }

    /** `_slot_parallel_safe` */
    method ParallelSafe(slot: Node) returns (r: bool)
      requires Complete(g) && slot.DependsNode? && (slot.sub.Some? ==> slot.sub.value in g)
      modifies this
      ensures old(seen) <= seen
      ensures !r ==> UnsafeNode(slot) || (slot.sub.Some? && exists q ::
        Reaches(g, slot.sub.value, q) && HasUnsafe(g, q))
      ensures r ==> !UnsafeNode(slot) && ClosedSince(g, old(seen), seen) && (slot.sub.Some? ==> slot.sub.value in seen)
      ensures r ==> forall p :: p in seen && p !in old(seen) ==> !HasUnsafe(g, p)
      decreases g.Keys - seen
    {
      if slot.scopes != [] || slot.mode.Generator? || slot.mode.AsyncGenerator? {
        return false;
      }
      if slot.sub.None? || slot.sub.value in seen {
        return true;
      }
      var p := slot.sub.value;
      seen := seen + {p};
      ReachesSelf(g, p);
      var slots := g[p].slots;
      for i := 0 to |slots|
        invariant old(seen) + {p} <= seen && p !in old(seen)
        invariant forall q, r :: q in seen && q !in old(seen) && q != p && Below(g, q, r) ==> r in seen
        invariant forall q :: q in seen && q !in old(seen) && q != p ==> !HasUnsafe(g, q)
        invariant forall j :: 0 <= j < i ==>
                    !UnsafeNode(slots[j]) && (slots[j].DependsNode? && slots[j].sub.Some?
                        ==> slots[j].sub.value in seen)
      {
        var s := slots[i];
        if s.DependsNode? {
          r := ParallelSafe(s);
          if !r {
            if UnsafeNode(s) {
              assert HasUnsafe(g, p);
            } else {
              assert Below(g, p, s.sub.value);
              ghost var q :| Reaches(g, s.sub.value, q) && HasUnsafe(g, q);
              ReachesBelow(g, p, s.sub.value, q);
            }
            return;
          }
        }
      }
      r := true;
    }

    /** `_graph_compilable`, whose wave test comes before its seen test. */
    method GraphCompilable(p: PlanId) returns (r: bool)
      requires Complete(g) && p in g
      modifies this
      ensures old(seen) <= seen
      ensures !r ==> exists q :: Reaches(g, p, q) && Uncompilable(g, q)
      ensures r ==> ClosedSince(g, old(seen), seen) && p in seen
      ensures r ==> forall q :: q in seen && q !in old(seen) ==> !Uncompilable(g, q)
      decreases g.Keys - seen
    {
      ReachesSelf(g, p);
      if g[p].batched {
        assert Uncompilable(g, p);
        return false;
      }
      if p in seen {
        return true;
      }
      seen := seen + {p};
      var slots := g[p].slots;
      for i := 0 to |slots|
        invariant old(seen) + {p} <= seen && p !in old(seen)
        invariant forall q, r :: q in seen && q !in old(seen) && q != p && Below(g, q, r) ==> r in seen
        invariant forall q :: q in seen && q !in old(seen) && q != p ==> !Uncompilable(g, q)
        invariant forall j :: 0 <= j < i ==>
                    !UncompilableNode(slots[j]) && (slots[j].DependsNode? && slots[j].sub.Some?
                        ==> slots[j].sub.value in seen)
      {
        var s := slots[i];
        if s.OtherNode? || (s.DependsNode? && (!s.useCache || s.sub.None?)) {
          assert Uncompilable(g, p);
          return false;
        }
        if s.DependsNode? {
          r := GraphCompilable(s.sub.value);
          if !r {
            assert Below(g, p, s.sub.value);
            ghost var q :| Reaches(g, s.sub.value, q) && Uncompilable(g, q);
            ReachesBelow(g, p, s.sub.value, q);
            return;
          }
        }
      }
      r := true;
    }
  }

  // ---- The four questions, asked afresh -------------------------------------

  lemma CoversAll(g: Graph, seen: set<PlanId>, p: PlanId)
    requires Complete(g) && p in seen && ClosedSince(g, {}, seen)
    ensures forall q :: Reaches(g, p, q) ==> q in seen
  {
    forall q | Reaches(g, p, q)
      ensures q in seen
    {
      var path :| IsPath(g, path) && path[0] == p && path[|path| - 1] == q;
      ClosedCovers(g, seen, path);
    }
  }

  /** `_cached_callables(slot, set())`: exactly the cacheable callables at the slot or reachable from it. */
  method CachedCallables(g: Graph, slot: Node) returns (found: set<Callable>)
    requires Complete(g) && slot.DependsNode? && (slot.sub.Some? ==> slot.sub.value in g)
    ensures forall c :: c in found <==>
              || (slot.useCache && c == slot.callable)
              || (slot.sub.Some? && exists p :: Reaches(g, slot.sub.value, p) && CachesHere(g, p, c))
  {
    var v := new Visitor(g);
    var below := v.CachedBelow(slot.sub);
    found := (if slot.useCache then {slot.callable} else {}) + below;
    if slot.sub.Some? {
      CoversAll(g, v.seen, slot.sub.value);
    }
  }

  /** `_subgraph_reads_scopes(plan, set())`: whether any reachable plan has a `SecurityScopes` slot. */
  method SubgraphReadsScopes(g: Graph, plan: Option<PlanId>) returns (r: bool)
    requires Complete(g) && (plan.Some? ==> plan.value in g)
    ensures r <==> plan.Some? && exists q :: Reaches(g, plan.value, q) && HasScopes(g, q)
  {
    var v := new Visitor(g);
    r := v.ReadsScopes(plan);
    if !r && plan.Some? {
      CoversAll(g, v.seen, plan.value);
    }
  }

  /** `_slot_parallel_safe(slot, set())`: whether nothing at the slot or reachable from it is unsafe. */
  method SlotParallelSafe(g: Graph, slot: Node) returns (r: bool)
    requires Complete(g) && slot.DependsNode? && (slot.sub.Some? ==> slot.sub.value in g)
    ensures r <==> !UnsafeNode(slot) && !(slot.sub.Some? && exists q ::
      Reaches(g, slot.sub.value, q) && HasUnsafe(g, q))
  {
    var v := new Visitor(g);
    r := v.ParallelSafe(slot);
    if r && slot.sub.Some? {
      CoversAll(g, v.seen, slot.sub.value);
    }
  }

  /** `_graph_compilable(plan, set())`: whether every reachable plan is free of waves and unsupported slots. */
  method PlanCompilable(g: Graph, plan: PlanId) returns (r: bool)
    requires Complete(g) && plan in g
    ensures r <==> forall q :: Reaches(g, plan, q) ==> !Uncompilable(g, q)
  {
    var v := new Visitor(g);
    r := v.GraphCompilable(plan);
    if r {
      CoversAll(g, v.seen, plan);
    }
  }

  // ---- The tree a graph unfolds to ------------------------------------------

  predicate Matches(n: Node, s: Slot) {
    match n
    case ScopesNode => s.ScopesSlot?
    case DependsNode(c, u, scopes, m, sub) =>
      sub.Some? && s.DependsSlot? && s.callable == c && s.useCache == u && s.scopes == scopes && s.mode == m
    case BindNode => !s.ScopesSlot? && !s.DependsSlot? && !s.OtherSlot?
    case OtherNode => s.OtherSlot?
  }

  /** Plan object `p` unfolds to the tree `plan`. */
  predicate Unfolds(g: Graph, p: PlanId, plan: Plan)
    decreases plan
  {
    && p in g && |g[p].slots| == |plan.slots| && (g[p].batched <==> plan.waves != [])
    && forall i | 0 <= i < |plan.slots| ::
         && Matches(g[p].slots[i], plan.slots[i])
         && (plan.slots[i].DependsSlot? ==> Unfolds(g, g[p].slots[i].sub.value, plan.slots[i].sub))
  }

  /** On the tree a graph unfolds to, the recursive reading and reachability agree: scopes. */
  lemma {:induction false} ScopesReachable(g: Graph, p: PlanId, plan: Plan)
    requires Unfolds(g, p, plan) && T.ReadsScopes(plan)
    ensures exists q :: Reaches(g, p, q) && HasScopes(g, q)
    decreases plan
  {
    var i :| 0 <= i < |plan.slots| && (plan.slots[i].ScopesSlot?
        || (plan.slots[i].DependsSlot? && T.ReadsScopes(plan.slots[i].sub)));
    ReachesSelf(g, p);
    if plan.slots[i].ScopesSlot? {
      assert g[p].slots[i].ScopesNode?;
      assert HasScopes(g, p);
    } else {
      var b := g[p].slots[i].sub.value;
      ScopesReachable(g, b, plan.slots[i].sub);
      var q :| Reaches(g, b, q) && HasScopes(g, q);
      ReachesBelow(g, p, b, q);
    }
  }

  lemma {:induction false} ScopesFound(g: Graph, path: seq<PlanId>, plan: Plan)
    requires IsPath(g, path) && Unfolds(g, path[0], plan) && HasScopes(g, path[|path| - 1])
    ensures T.ReadsScopes(plan)
    decreases |path|
  {
    if |path| == 1 {
      var i :| 0 <= i < |g[path[0]].slots| && g[path[0]].slots[i].ScopesNode?;
      assert Matches(g[path[0]].slots[i], plan.slots[i]);
    } else {
      assert Below(g, path[0], path[1]);
      var i :| 0 <= i < |g[path[0]].slots| && g[path[0]].slots[i].DependsNode? && g[path[0]].slots[i].sub
          == Some(path[1]);
      assert Matches(g[path[0]].slots[i], plan.slots[i]);
      ScopesFound(g, path[1..], plan.slots[i].sub);
    }
  }

  /** The same for cached callables. */
  lemma {:induction false} CachedReachable(g: Graph, p: PlanId, plan: Plan, from: nat, c: Callable)
    requires Unfolds(g, p, plan) && from <= |plan.slots| && c in T.AllCached(plan.slots[from..])
    ensures exists q :: Reaches(g, p, q) && CachesHere(g, q, c)
    decreases plan, |plan.slots| - from
  {
    var s := plan.slots[from];
    assert plan.slots[from..][0] == s && plan.slots[from..][1..] == plan.slots[from + 1..];
    ReachesSelf(g, p);
    if c in T.AllCached(plan.slots[from + 1..]) {
      CachedReachable(g, p, plan, from + 1, c);
    } else if s.useCache && c == s.callable {
      assert Matches(g[p].slots[from], s);
      assert CachesHere(g, p, c);
    } else {
      var b := g[p].slots[from].sub.value;
      assert s.sub.slots[0..] == s.sub.slots;
      CachedReachable(g, b, s.sub, 0, c);
      var q :| Reaches(g, b, q) && CachesHere(g, q, c);
      ReachesBelow(g, p, b, q);
    }
  }

  lemma {:induction false} CachedFound(g: Graph, path: seq<PlanId>, plan: Plan, c: Callable)
    requires IsPath(g, path) && Unfolds(g, path[0], plan) && CachesHere(g, path[|path| - 1], c)
    ensures c in T.AllCached(plan.slots)
    decreases |path|
  {
    if |path| == 1 {
      var i :| 0 <= i < |g[path[0]].slots| && g[path[0]].slots[i].DependsNode? && g[path[0]].slots[i].useCache
               && g[path[0]].slots[i].callable == c;
      assert Matches(g[path[0]].slots[i], plan.slots[i]);
      T.CachedBelow(plan.slots, i);
    } else {
      assert Below(g, path[0], path[1]);
      var i :| 0 <= i < |g[path[0]].slots| && g[path[0]].slots[i].DependsNode? && g[path[0]].slots[i].sub
          == Some(path[1]);
      assert Matches(g[path[0]].slots[i], plan.slots[i]);
      CachedFound(g, path[1..], plan.slots[i].sub, c);
      T.CachedBelow(plan.slots, i);
    }
  }

  /** The same for safety. */
  predicate PlanSafe(plan: Plan) {
    forall i :: 0 <= i < |plan.slots| && plan.slots[i].DependsSlot? ==> T.ParallelSafe(plan.slots[i])
  }

  lemma {:induction false} UnsafeReachable(g: Graph, p: PlanId, plan: Plan)
    requires Unfolds(g, p, plan) && !PlanSafe(plan)
    ensures exists q :: Reaches(g, p, q) && HasUnsafe(g, q)
    decreases plan
  {
    var i :| 0 <= i < |plan.slots| && plan.slots[i].DependsSlot? && !T.ParallelSafe(plan.slots[i]);
    var n := g[p].slots[i];
    assert Matches(n, plan.slots[i]);
    ReachesSelf(g, p);
    if UnsafeNode(n) {
      assert HasUnsafe(g, p);
    } else {
      UnsafeReachable(g, n.sub.value, plan.slots[i].sub);
      var q :| Reaches(g, n.sub.value, q) && HasUnsafe(g, q);
      assert Below(g, p, n.sub.value);
      ReachesBelow(g, p, n.sub.value, q);
    }
  }

  lemma {:induction false} UnsafeFound(g: Graph, path: seq<PlanId>, plan: Plan)
    requires IsPath(g, path) && Unfolds(g, path[0], plan) && HasUnsafe(g, path[|path| - 1])
    ensures !PlanSafe(plan)
    decreases |path|
  {
    if |path| == 1 {
      var i :| 0 <= i < |g[path[0]].slots| && UnsafeNode(g[path[0]].slots[i]);
      assert Matches(g[path[0]].slots[i], plan.slots[i]);
    } else {
      assert Below(g, path[0], path[1]);
      var i :| 0 <= i < |g[path[0]].slots| && g[path[0]].slots[i].DependsNode? && g[path[0]].slots[i].sub
          == Some(path[1]);
      assert Matches(g[path[0]].slots[i], plan.slots[i]);
      UnsafeFound(g, path[1..], plan.slots[i].sub);
    }
  }

  /** The same for what the compiler refuses. */
  lemma {:induction false} RefusedReachable(g: Graph, p: PlanId, plan: Plan)
    requires Unfolds(g, p, plan) && !C.Compilable(plan)
    ensures exists q :: Reaches(g, p, q) && Uncompilable(g, q)
    decreases plan
  {
    ReachesSelf(g, p);
    if plan.waves != [] {
      assert Uncompilable(g, p);
    } else {
      var i :| 0 <= i < |plan.slots| && (plan.slots[i].OtherSlot?
          || (plan.slots[i].DependsSlot? && !(plan.slots[i].useCache && C.Compilable(plan.slots[i].sub))));
      var n := g[p].slots[i];
      assert Matches(n, plan.slots[i]);
      if UncompilableNode(n) {
        assert Uncompilable(g, p);
      } else {
        RefusedReachable(g, n.sub.value, plan.slots[i].sub);
        var q :| Reaches(g, n.sub.value, q) && Uncompilable(g, q);
        assert Below(g, p, n.sub.value);
        ReachesBelow(g, p, n.sub.value, q);
      }
    }
  }

  lemma {:induction false} RefusedFound(g: Graph, path: seq<PlanId>, plan: Plan)
    requires IsPath(g, path) && Unfolds(g, path[0], plan) && Uncompilable(g, path[|path| - 1])
    ensures !C.Compilable(plan)
    decreases |path|
  {
    var slots := g[path[0]].slots;
    if |path| == 1 {
      if !g[path[0]].batched {
        var i :| 0 <= i < |slots| && UncompilableNode(slots[i]);
        assert Matches(slots[i], plan.slots[i]);
      }
    } else {
      assert Below(g, path[0], path[1]);
      var i :| 0 <= i < |slots| && slots[i].DependsNode? && slots[i].sub == Some(path[1]);
      assert Matches(slots[i], plan.slots[i]);
      RefusedFound(g, path[1..], plan.slots[i].sub);
    }
  }

  lemma CompilableMatchesTree(g: Graph, p: PlanId, plan: Plan)
    requires Unfolds(g, p, plan)
    ensures C.Compilable(plan) <==> !exists q :: Reaches(g, p, q) && Uncompilable(g, q)
  {
    if !C.Compilable(plan) {
      RefusedReachable(g, p, plan);
    }
    if q :| Reaches(g, p, q) && Uncompilable(g, q) {
      var path :| IsPath(g, path) && path[0] == p && path[|path| - 1] == q;
      RefusedFound(g, path, plan);
    }
  }

  /** The seen-set walks over plan objects answer what plain recursion over the unfolded tree answers. */
  lemma WalksMatchTree(g: Graph, p: PlanId, plan: Plan)
    requires Unfolds(g, p, plan)
    ensures T.ReadsScopes(plan) <==> exists q :: Reaches(g, p, q) && HasScopes(g, q)
    ensures forall c :: c in T.AllCached(plan.slots) <==> exists q :: Reaches(g, p, q) && CachesHere(g, q, c)
    ensures PlanSafe(plan) <==> !exists q :: Reaches(g, p, q) && HasUnsafe(g, q)
    ensures C.Compilable(plan) <==> !exists q :: Reaches(g, p, q) && Uncompilable(g, q)
  {
    CompilableMatchesTree(g, p, plan);
    if T.ReadsScopes(plan) {
      ScopesReachable(g, p, plan);
    }
    if q :| Reaches(g, p, q) && HasScopes(g, q) {
      var path :| IsPath(g, path) && path[0] == p && path[|path| - 1] == q;
      ScopesFound(g, path, plan);
    }
    if !PlanSafe(plan) {
      UnsafeReachable(g, p, plan);
    }
    if q :| Reaches(g, p, q) && HasUnsafe(g, q) {
      var path :| IsPath(g, path) && path[0] == p && path[|path| - 1] == q;
      UnsafeFound(g, path, plan);
    }
    forall c
      ensures c in T.AllCached(plan.slots) <==> exists q :: Reaches(g, p, q) && CachesHere(g, q, c)
    {
      if c in T.AllCached(plan.slots) {
        assert plan.slots[0..] == plan.slots;
        CachedReachable(g, p, plan, 0, c);
      }
      if q :| Reaches(g, p, q) && CachesHere(g, q, c) {
        var path :| IsPath(g, path) && path[0] == p && path[|path| - 1] == q;
        CachedFound(g, path, plan, c);
      }
    }
  }
}
