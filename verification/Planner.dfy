/** Planning a handler: the recursion `build_plan` / `_build_depends_slot`, which must refuse cycles. */
module Planner {
  import opened Wrappers
  import opened Plans
  import opened PlanTrees
  import opened Waves

  /** One parameter of a signature: already a slot, or a `Depends` edge still to be planned. */
  datatype Param = Direct(slot: Slot) | Edge(name: string, callable: Callable, mode: Mode, useCache: bool,
      scopes: seq<string>)

  /** The signatures of every inspectable callable; one without a signature plans to nothing. */
  type Signatures = map<Callable, seq<Param>>

  function ParamsOf(g: Signatures, c: Callable): seq<Param> {
    if c in g then g[c] else []
  }

  function SetFrom(s: seq<Callable>): set<Callable> {
    set c | c in s
  }

  /** `HandlerPlan(handler, slots)`, with its waves. */
  function MakePlan(slots: seq<Slot>): Plan {
    Plan(slots, Batched(ComputeWaves(slots)))
  }

  function MakeSlot(p: Param, sub: Plan): Slot
    requires p.Edge?
  {
    DependsSlot(p.name, p.callable, p.mode, p.useCache, p.scopes, ReadsScopes(sub), sub)
  }

  /** `build_plan` with the chain being planned; the error carries the offending chain. */
  function Build(g: Signatures, c: Callable, chain: seq<Callable>): Result<Plan, seq<Callable>>
    decreases g.Keys - SetFrom(chain), 0
  {
    if c in chain then Err(chain + [c])
    else if c !in g then Ok(MakePlan([]))
    else
      assert c in g.Keys - SetFrom(chain) && c !in g.Keys - SetFrom(chain + [c]);
      match BuildSlots(g, g[c], chain + [c])
      case Err(e) => Err(e)
      case Ok(slots) => Ok(MakePlan(slots))
  }

  function BuildSlots(g: Signatures, ps: seq<Param>, chain: seq<Callable>): Result<seq<Slot>, seq<Callable>>
    decreases g.Keys - SetFrom(chain), |ps| + 1
  {
    if ps == [] then Ok([])
    else
      match BuildSlot(g, ps[0], chain)
      case Err(e) => Err(e)
      case Ok(s) =>
        match BuildSlots(g, ps[1..], chain)
        case Err(e) => Err(e)
        case Ok(rest) => Ok([s] + rest)
  }

  /** `_build_depends_slot`, for an edge. */
  function BuildSlot(g: Signatures, p: Param, chain: seq<Callable>): Result<Slot, seq<Callable>>
    decreases g.Keys - SetFrom(chain), 1
  {
    if p.Direct? then Ok(p.slot)
    else
      match Build(g, p.callable, chain)
      case Err(e) => Err(e)
      case Ok(sub) => Ok(MakeSlot(p, sub))
  }

  function After(slots: seq<Slot>, r: Result<seq<Slot>, seq<Callable>>): Result<seq<Slot>, seq<Callable>> {
    match r case Err(e) => Err(e) case Ok(rest) => Ok(slots + rest)
  }

  lemma AfterNone(r: Result<seq<Slot>, seq<Callable>>)
    ensures After([], r) == r
  {
    if r.Ok? {
      assert [] + r.value == r.value;
    }
  }

  lemma AfterOne(slots: seq<Slot>, s: Slot, r: Result<seq<Slot>, seq<Callable>>)
    ensures After(slots, After([s], r)) == After(slots + [s], r)
  {
    if r.Ok? {
      assert slots + ([s] + r.value) == slots + [s] + r.value;
    }
  }

  /** `build_plan` as it runs: extend the chain, then plan the parameters one by one. */
  method BuildPlan(g: Signatures, c: Callable, chain: seq<Callable>) returns (r: Result<Plan, seq<Callable>>)
    ensures r == Build(g, c, chain)
    decreases g.Keys - SetFrom(chain)
  {
    if c in chain {
      return Err(chain + [c]);
    }
    if c !in g {
      return Ok(MakePlan([]));
    }
    var seen := chain + [c];
    assert c in g.Keys - SetFrom(chain) && c !in g.Keys - SetFrom(seen);
    var slots: seq<Slot> := [];
    assert g[c][0..] == g[c];
    AfterNone(BuildSlots(g, g[c], seen));
    for i := 0 to |g[c]|
      invariant BuildSlots(g, g[c], seen) == After(slots, BuildSlots(g, g[c][i..], seen))
    {
      var p := g[c][i];
      assert g[c][i..][0] == p && g[c][i..][1..] == g[c][i + 1..];
      if p.Direct? {
        AfterOne(slots, p.slot, BuildSlots(g, g[c][i + 1..], seen));
        slots := slots + [p.slot];
      } else {
        var sub := BuildPlan(g, p.callable, seen);
        if sub.Err? {
          return sub;
        }
        AfterOne(slots, MakeSlot(p, sub.value), BuildSlots(g, g[c][i + 1..], seen));
        slots := slots + [MakeSlot(p, sub.value)];
      }
    }
    assert g[c][|g[c]|..] == [] && slots + [] == slots;
    r := Ok(MakePlan(slots));
  }

  // ---- Cycles ---------------------------------------------------------------

  predicate DependsOn(g: Signatures, c: Callable, d: Callable) {
    exists i :: 0 <= i < |ParamsOf(g, c)| && ParamsOf(g, c)[i].Edge? && ParamsOf(g, c)[i].callable == d
  }

  ghost predicate IsWalk(g: Signatures, p: seq<Callable>) {
    p != [] && forall i :: 0 <= i < |p| - 1 ==> DependsOn(g, p[i], p[i + 1])
  }

  predicate Distinct(p: seq<Callable>) {
    forall i, j :: 0 <= i < j < |p| ==> p[i] != p[j]
  }

  /** Some chain of `Depends` edges from `c` comes back to a callable already on it. */
  ghost predicate CycleReachable(g: Signatures, c: Callable) {
    exists p :: IsWalk(g, p) && p[0] == c && !Distinct(p)
  }

  lemma {:induction false} BuildRefusal(g: Signatures, c: Callable, chain: seq<Callable>)
    requires IsWalk(g, chain + [c]) && Build(g, c, chain).Err?
    ensures var e := Build(g, c, chain).error;
            IsWalk(g, e) && e[0] == (chain + [c])[0] && !Distinct(e)
    decreases g.Keys - SetFrom(chain), 0
  {
    if c in chain {
      var i :| 0 <= i < |chain| && chain[i] == c;
      var e := chain + [c];
      assert e[i] == e[|chain|];
    } else if c in g {
      assert c in g.Keys - SetFrom(chain) && c !in g.Keys - SetFrom(chain + [c]);
      BuildSlotsRefusal(g, c, g[c], chain + [c]);
    }
  }

  lemma {:induction false} BuildSlotsRefusal(g: Signatures, c: Callable, ps: seq<Param>, chain: seq<Callable>)
    requires IsWalk(g, chain) && chain[|chain| - 1] == c && c in g && BuildSlots(g, ps, chain).Err?
    requires forall p :: p in ps ==> p in g[c]
    ensures var e := BuildSlots(g, ps, chain).error;
            IsWalk(g, e) && e[0] == chain[0] && !Distinct(e)
    decreases g.Keys - SetFrom(chain), |ps| + 1
  {
    var p := ps[0];
    if BuildSlot(g, p, chain).Err? {
      assert p in g[c];
      var i :| 0 <= i < |g[c]| && g[c][i] == p;
      assert ParamsOf(g, c)[i] == p && DependsOn(g, c, p.callable);
      BuildRefusal(g, p.callable, chain);
    } else {
      BuildSlotsRefusal(g, c, ps[1..], chain);
    }
  }

  /** A successful build planned every edge of the signature. */
  lemma {:induction false} BuildSlotsAt(g: Signatures, ps: seq<Param>, chain: seq<Callable>, i: nat)
    requires BuildSlots(g, ps, chain).Ok? && i < |ps|
    ensures var slots := BuildSlots(g, ps, chain).value;
            |slots| == |ps| && BuildSlot(g, ps[i], chain) == Ok(slots[i])
    decreases ps
  {
    BuildSlotsLength(g, ps, chain);
    if i > 0 {
      BuildSlotsAt(g, ps[1..], chain, i - 1);
    }
  }

  lemma {:induction false} BuildSlotsLength(g: Signatures, ps: seq<Param>, chain: seq<Callable>)
    requires BuildSlots(g, ps, chain).Ok?
    ensures |BuildSlots(g, ps, chain).value| == |ps|
    decreases ps
  {
    if ps != [] {
      BuildSlotsLength(g, ps[1..], chain);
    }
  }

  /** When planning succeeds, no walk from the handler repeats a callable. */
  lemma {:induction false} BuildAcyclic(g: Signatures, c: Callable, chain: seq<Callable>, p: seq<Callable>)
    requires Build(g, c, chain).Ok? && Distinct(chain) && IsWalk(g, p) && p[0] == c
    ensures Distinct(chain + p)
    decreases |p|
  {
    if |p| == 1 {
      assert p == [c];
    } else {
      WalkTail(g, p);
      BuildEdge(g, c, chain, p[1]);
      BuildAcyclic(g, p[1], chain + [c], p[1..]);
      assert chain + [c] + p[1..] == chain + p;
    }
  }

  lemma WalkTail(g: Signatures, p: seq<Callable>)
    requires IsWalk(g, p) && |p| > 1
    ensures IsWalk(g, p[1..]) && DependsOn(g, p[0], p[1])
  {
    forall i | 0 <= i < |p[1..]| - 1
      ensures DependsOn(g, p[1..][i], p[1..][i + 1])
    {
      assert DependsOn(g, p[i + 1], p[i + 1 + 1]);
    }
  }

  /** A successful build planned what lies behind each edge. */
  lemma BuildEdge(g: Signatures, c: Callable, chain: seq<Callable>, d: Callable)
    requires Build(g, c, chain).Ok? && DependsOn(g, c, d)
    ensures c !in chain && Build(g, d, chain + [c]).Ok?
  {
    var i :| 0 <= i < |ParamsOf(g, c)| && ParamsOf(g, c)[i].Edge? && ParamsOf(g, c)[i].callable == d;
    BuildSlotsAt(g, g[c], chain + [c], i);
  }

  /** Planning refuses a handler exactly when a dependency cycle is reachable from it. */
  lemma PlanningRefusesCycles(g: Signatures, c: Callable)
    ensures Build(g, c, []).Err? <==> CycleReachable(g, c)
  {
    if Build(g, c, []).Err? {
      assert [] + [c] == [c];
      BuildRefusal(g, c, []);
    } else if CycleReachable(g, c) {
      var p :| IsWalk(g, p) && p[0] == c && !Distinct(p);
      assert [] + p == p;
      BuildAcyclic(g, c, [], p);
    }
  }

  // ---- The planned tree -----------------------------------------------------

  /** A parameter planned in place is not a dependency. */
  predicate DirectIsPlain(g: Signatures) {
    forall c, i :: c in g && 0 <= i < |g[c]| && g[c][i].Direct? ==> !g[c][i].slot.DependsSlot?
  }

  /** On a planned tree no callable repeats on a path from the root. */
  lemma {:induction false} BuildNoRepeat(g: Signatures, c: Callable, chain: seq<Callable>)
    requires DirectIsPlain(g) && Build(g, c, chain).Ok?
    ensures NoRepeat(Build(g, c, chain).value, SetFrom(chain + [c]))
    decreases g.Keys - SetFrom(chain)
  {
    if c in g {
      var slots := BuildSlots(g, g[c], chain + [c]).value;
      forall i | 0 <= i < |slots| && slots[i].DependsSlot?
        ensures slots[i].callable !in SetFrom(chain + [c])
        ensures NoRepeat(slots[i].sub, SetFrom(chain + [c]) + {slots[i].callable})
      {
        BuildSlotsLength(g, g[c], chain + [c]);
        BuildSlotsAt(g, g[c], chain + [c], i);
        var d := g[c][i].callable;
        assert c in g.Keys - SetFrom(chain) && c !in g.Keys - SetFrom(chain + [c]);
        BuildNoRepeat(g, d, chain + [c]);
        assert SetFrom(chain + [c] + [d]) == SetFrom(chain + [c]) + {d};
      }
    }
  }

  /** The plan of a callable does not depend on where in the graph it is met. */
  lemma {:induction false} BuildUnique(g: Signatures, c: Callable, a: seq<Callable>, b: seq<Callable>)
    requires Build(g, c, a).Ok? && Build(g, c, b).Ok?
    ensures Build(g, c, a) == Build(g, c, b)
    decreases g.Keys - SetFrom(a)
  {
    if c in g {
      var s, t := BuildSlots(g, g[c], a + [c]).value, BuildSlots(g, g[c], b + [c]).value;
      BuildSlotsLength(g, g[c], a + [c]);
      BuildSlotsLength(g, g[c], b + [c]);
      forall i | 0 <= i < |g[c]|
        ensures s[i] == t[i]
      {
        BuildSlotsAt(g, g[c], a + [c], i);
        BuildSlotsAt(g, g[c], b + [c], i);
        if g[c][i].Edge? {
          assert c in g.Keys - SetFrom(a) && c !in g.Keys - SetFrom(a + [c]);
          BuildUnique(g, g[c][i].callable, a + [c], b + [c]);
        }
      }
      assert s == t;
    }
  }

  lemma DistinctTail(a: seq<Callable>, b: seq<Callable>)
    requires Distinct(a + b)
    ensures Distinct(b)
  {
    forall i, j | 0 <= i < j < |b|
      ensures b[i] != b[j]
    {
      assert (a + b)[|a| + i] == b[i] && (a + b)[|a| + j] == b[j];
    }
  }

  /** Planning a callable below a handler that plans also succeeds on its own. */
  lemma BuildAlone(g: Signatures, c: Callable, chain: seq<Callable>)
    requires Distinct(chain) && Build(g, c, chain).Ok?
    ensures Build(g, c, []) == Build(g, c, chain)
  {
    PlanningRefusesCycles(g, c);
    if Build(g, c, []).Err? {
      var p :| IsWalk(g, p) && p[0] == c && !Distinct(p);
      BuildAcyclic(g, c, chain, p);
      DistinctTail(chain, p);
    }
    BuildUnique(g, c, [], chain);
  }

  function ParamName(p: Param): string {
    match p case Direct(s) => s.name case Edge(name, _, _, _, _) => name
  }

  /** The parameters of a signature have different names. */
  predicate DistinctNames(g: Signatures) {
    forall c, i, j :: c in g && 0 <= i < j < |g[c]| ==> ParamName(g[c][i]) != ParamName(g[c][j])
  }
}
