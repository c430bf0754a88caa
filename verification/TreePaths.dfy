/** What the planner's tests over a dependency tree say, by the paths that lead through it. */
module TreePaths {
  import opened Wrappers
  import opened Plans
  import opened PlanTrees

  /** The slot these positions lead to, from `s` downwards. */
  function Follow(s: Slot, path: seq<nat>): Option<Slot>
    decreases |path|
  {
    if path == [] then Some(s)
    else if s.DependsSlot? && path[0] < |s.sub.slots| then Follow(s.sub.slots[path[0]], path[1..])
    else None
  }

  ghost predicate LeadsTo(s: Slot, path: seq<nat>, d: Slot) {
    Follow(s, path) == Some(d) && d.DependsSlot?
  }

  lemma OneDown(s: Slot, i: nat, path: seq<nat>)
    requires s.DependsSlot? && i < |s.sub.slots|
    ensures Follow(s, [i] + path) == Follow(s.sub.slots[i], path)
  {
    assert ([i] + path)[1..] == path;
  }

  // ---- Parallel-safe --------------------------------------------------------

  /** May run beside others: it neither pushes scopes nor waits for teardown. */
  predicate RunsAlongside(d: Slot)
    requires d.DependsSlot?
  {
    d.scopes == [] && (d.mode == Inline || d.mode == Offloaded || d.mode == Coroutine)
  }

  lemma {:induction false} SafeDown(s: Slot, path: seq<nat>, d: Slot)
    requires s.DependsSlot? && ParallelSafe(s) && LeadsTo(s, path, d)
    ensures RunsAlongside(d)
    decreases |path|
  {
    if path != [] {
      var below := s.sub.slots[path[0]];
      assert below.DependsSlot? by {
        assert Follow(below, path[1..]) == Some(d);
      }
      SafeDown(below, path[1..], d);
    }
  }

  lemma {:induction false} UnsafeDown(s: Slot) returns (path: seq<nat>, d: Slot)
    requires s.DependsSlot? && !ParallelSafe(s)
    ensures LeadsTo(s, path, d) && !RunsAlongside(d)
    decreases s
  {
    if !RunsAlongside(s) {
      path, d := [], s;
    } else {
      var i :| 0 <= i < |s.sub.slots| && s.sub.slots[i].DependsSlot? && !ParallelSafe(s.sub.slots[i]);
      var rest;
      rest, d := UnsafeDown(s.sub.slots[i]);
      path := [i] + rest;
      OneDown(s, i, rest);
    }
  }

  /** A dependency is parallel-safe when every dependency a path leads to may run beside others. */
  lemma SafeExactly(s: Slot)
    requires s.DependsSlot?
    ensures ParallelSafe(s) <==> forall path, d :: LeadsTo(s, path, d) ==> RunsAlongside(d)
  {
    if ParallelSafe(s) {
      forall path, d | LeadsTo(s, path, d)
        ensures RunsAlongside(d)
      {
        SafeDown(s, path, d);
      }
    } else {
      var path, d := UnsafeDown(s);
    }
  }

  // ---- Cached callables -----------------------------------------------------

  lemma {:induction false} CachedIn(slots: seq<Slot>, c: Callable)
    ensures c in AllCached(slots) <==> exists i :: 0 <= i < |slots| && c in CachedCallables(slots[i])
    decreases |slots|
  {
    if slots != [] {
      CachedIn(slots[1..], c);
      if c in AllCached(slots[1..]) {
        var i :| 0 <= i < |slots| - 1 && c in CachedCallables(slots[1..][i]);
        assert c in CachedCallables(slots[i + 1]);
      }
      if i :| 0 <= i < |slots| && c in CachedCallables(slots[i]) {
        assert i > 0 ==> slots[1..][i - 1] == slots[i];
      }
    }
  }

  predicate Caches(d: Slot, c: Callable) {
    d.DependsSlot? && d.useCache && d.callable == c
  }

  lemma {:induction false} CachedUp(s: Slot, path: seq<nat>, d: Slot, c: Callable)
    requires LeadsTo(s, path, d) && Caches(d, c)
    ensures c in CachedCallables(s)
    decreases |path|
  {
    if path != [] {
      CachedUp(s.sub.slots[path[0]], path[1..], d, c);
      CachedIn(s.sub.slots, c);
    }
  }

  lemma {:induction false} CachedDown(s: Slot, c: Callable) returns (path: seq<nat>, d: Slot)
    requires c in CachedCallables(s)
    ensures LeadsTo(s, path, d) && Caches(d, c)
    decreases s
  {
    if Caches(s, c) {
      path, d := [], s;
    } else {
      CachedIn(s.sub.slots, c);
      var i :| 0 <= i < |s.sub.slots| && c in CachedCallables(s.sub.slots[i]);
      var rest;
      rest, d := CachedDown(s.sub.slots[i], c);
      path := [i] + rest;
      OneDown(s, i, rest);
    }
  }

  /** A callable counts as cached when a path leads to a dependency that caches it. */
  lemma CachedExactly(s: Slot, c: Callable)
    ensures c in CachedCallables(s) <==> exists path, d :: LeadsTo(s, path, d) && Caches(d, c)
  {
    if c in CachedCallables(s) {
      var path, d := CachedDown(s, c);
    }
    if path, d :| LeadsTo(s, path, d) && Caches(d, c) {
      CachedUp(s, path, d, c);
    }
  }
}
