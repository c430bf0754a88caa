/** Batching parallel-safe dependencies into waves (`compute_dep_waves`, `HandlerPlan.__init__`). */
module Waves {
  import opened Plans
  import opened PlanTrees

  predicate IsSafe(s: Slot) {
    s.DependsSlot? && ParallelSafe(s)
  }

  /** Indices below `n` of the parallel-safe dependencies, in slot order. */
  function SafeIndices(slots: seq<Slot>, n: nat): seq<nat>
    requires n <= |slots|
  {
    if n == 0 then []
    else SafeIndices(slots, n - 1) + if IsSafe(slots[n - 1]) then [n - 1] else []
  }

  predicate InRange(slots: seq<Slot>, wave: seq<nat>) {
    forall k :: 0 <= k < |wave| ==> wave[k] < |slots|
  }

  /** The cached callables of a whole wave. */
  function Taken(slots: seq<Slot>, wave: seq<nat>): set<Callable>
    requires InRange(slots, wave)
  {
    if wave == [] then {} else Taken(slots, wave[..|wave| - 1]) + CachedCallables(slots[wave[|wave| - 1]])
  }

  lemma {:induction false} TakenMember(slots: seq<Slot>, wave: seq<nat>, k: nat)
    requires InRange(slots, wave) && k < |wave|
    ensures CachedCallables(slots[wave[k]]) <= Taken(slots, wave)
  {
    if k < |wave| - 1 {
      TakenMember(slots, wave[..|wave| - 1], k);
    }
  }

  predicate AllInRange(slots: seq<Slot>, waves: seq<seq<nat>>) {
    forall w :: 0 <= w < |waves| ==> InRange(slots, waves[w])
  }

  /** Earliest wave sharing no cached callable with slot `idx`, or a new last one. */
  function Place(slots: seq<Slot>, waves: seq<seq<nat>>, idx: nat): (r: seq<seq<nat>>)
    requires AllInRange(slots, waves) && idx < |slots|
    ensures AllInRange(slots, r)
  {
    if waves == [] then [[idx]]
    else if CachedCallables(slots[idx]) !! Taken(slots, waves[0]) then [waves[0] + [idx]] + waves[1..]
    else [waves[0]] + Place(slots, waves[1..], idx)
  }

  function PlaceAll(slots: seq<Slot>, idxs: seq<nat>): (r: seq<seq<nat>>)
    requires InRange(slots, idxs)
    ensures AllInRange(slots, r)
  {
    if idxs == [] then [] else Place(slots, PlaceAll(slots, idxs[..|idxs| - 1]), idxs[|idxs| - 1])
  }

  lemma {:induction false} SafeIndicesInRange(slots: seq<Slot>, n: nat)
    requires n <= |slots|
    ensures InRange(slots, SafeIndices(slots, n))
    ensures forall i: nat :: i in SafeIndices(slots, n) <==> i < n && IsSafe(slots[i])
    ensures forall k :: 0 <= k < |SafeIndices(slots, n)| ==> SafeIndices(slots, n)[k] < n
  {
    if n > 0 {
      SafeIndicesInRange(slots, n - 1);
    }
  }

  /** `compute_dep_waves` */
  function ComputeWaves(slots: seq<Slot>): (r: seq<seq<nat>>)
    ensures AllInRange(slots, r)
  {
    SafeIndicesInRange(slots, |slots|);
    var safe := SafeIndices(slots, |slots|);
    if |safe| < 2 then []
    else
      var waves := PlaceAll(slots, safe);
      if forall w :: 0 <= w < |waves| ==> |waves[w]| < 2 then [] else waves
  }

  /** `HandlerPlan.__init__`: only waves that run something concurrently are batched. */
  function Batched(waves: seq<seq<nat>>): seq<seq<nat>> {
    if waves == [] then []
    else (if |waves[0]| < 2 then [] else [waves[0]]) + Batched(waves[1..])
  }

  // ---- What a batching promises ---------------------------------------------

  predicate Ascending(wave: seq<nat>) {
    forall a, b :: 0 <= a < b < |wave| ==> wave[a] < wave[b]
  }

  /** Two members of one wave cache no callable in common. */
  predicate PairwiseDisjoint(slots: seq<Slot>, wave: seq<nat>)
    requires InRange(slots, wave)
  {
    forall a, b :: 0 <= a < b < |wave| ==> CachedCallables(slots[wave[a]]) !! CachedCallables(slots[wave[b]])
  }

  /** An ascending batch of safe, mutually disjoint dependencies. */
  predicate GoodWave(slots: seq<Slot>, wave: seq<nat>) {
    && InRange(slots, wave) && wave != [] && Ascending(wave) && PairwiseDisjoint(slots, wave)
    && forall k :: 0 <= k < |wave| ==> IsSafe(slots[wave[k]])
  }

  predicate GoodWaves(slots: seq<Slot>, waves: seq<seq<nat>>) {
    forall w :: 0 <= w < |waves| ==> GoodWave(slots, waves[w])
  }

  /** No index is in two waves. */
  ghost predicate Exclusive(waves: seq<seq<nat>>) {
    forall v, w, i :: 0 <= v < |waves| && 0 <= w < |waves| && i in waves[v] && i in waves[w] ==> v == w
  }

  ghost predicate Somewhere(waves: seq<seq<nat>>, i: nat) {
    exists w :: 0 <= w < |waves| && i in waves[w]
  }

  /** Placing a new largest index keeps every promise and adds exactly that index. */
  lemma {:induction false} PlaceKeeps(slots: seq<Slot>, waves: seq<seq<nat>>, idx: nat)
    requires AllInRange(slots, waves) && idx < |slots| && IsSafe(slots[idx])
    requires GoodWaves(slots, waves) && Exclusive(waves)
    requires forall w, k :: 0 <= w < |waves| && 0 <= k < |waves[w]| ==> waves[w][k] < idx
    ensures var r := Place(slots, waves, idx);
            GoodWaves(slots, r) && Exclusive(r) && forall i: nat :: Somewhere(r, i) <==> Somewhere(waves, i) || i == idx
  {
    var r := Place(slots, waves, idx);
    if waves == [] {
      assert idx in r[0];
    } else if CachedCallables(slots[idx]) !! Taken(slots, waves[0]) {
      JoinGood(slots, waves, idx);
      JoinExclusive(waves, idx);
      forall i: nat
        ensures Somewhere(r, i) <==> Somewhere(waves, i) || i == idx
      {
        JoinSomewhere(waves, idx, i);
      }
    } else {
      var rest := waves[1..];
      forall v, w, i | 0 <= v < |rest| && 0 <= w < |rest| && i in rest[v] && i in rest[w]
        ensures v == w
      {
        assert i in waves[v + 1] && i in waves[w + 1];
      }
      PlaceKeeps(slots, rest, idx);
      PlaceSkips(slots, waves, idx);
    }
  }

  /** The base case of `PlaceKeeps`: the index joins the first wave. */
  lemma JoinGood(slots: seq<Slot>, waves: seq<seq<nat>>, idx: nat)
    requires waves != [] && idx < |slots| && IsSafe(slots[idx]) && GoodWaves(slots, waves)
    requires CachedCallables(slots[idx]) !! Taken(slots, waves[0])
    requires forall k :: 0 <= k < |waves[0]| ==> waves[0][k] < idx
    ensures GoodWaves(slots, [waves[0] + [idx]] + waves[1..])
  {
    var r := [waves[0] + [idx]] + waves[1..];
    JoinWave(slots, waves[0], idx);
    forall w | 0 <= w < |r|
      ensures GoodWave(slots, r[w])
    {
      if w > 0 {
        assert r[w] == waves[w];
      }
    }
  }

  lemma JoinSomewhere(waves: seq<seq<nat>>, idx: nat, i: nat)
    requires waves != []
    ensures Somewhere([waves[0] + [idx]] + waves[1..], i) <==> Somewhere(waves, i) || i == idx
  {
    SomewhereCons(waves[0] + [idx], waves[1..], i);
    assert waves == [waves[0]] + waves[1..];
    SomewhereCons(waves[0], waves[1..], i);
  }

  lemma JoinExclusive(waves: seq<seq<nat>>, idx: nat)
    requires waves != [] && Exclusive(waves)
    requires forall w, k :: 0 <= w < |waves| && 0 <= k < |waves[w]| ==> waves[w][k] < idx
    ensures Exclusive([waves[0] + [idx]] + waves[1..])
  {
    var r := [waves[0] + [idx]] + waves[1..];
    forall v, w, i | 0 <= v < |r| && 0 <= w < |r| && i in r[v] && i in r[w]
      ensures v == w
    {
      if i != idx {
        assert i in waves[v] && i in waves[w];
      }
    }
  }

  lemma JoinWave(slots: seq<Slot>, wave: seq<nat>, idx: nat)
    requires GoodWave(slots, wave) && idx < |slots| && IsSafe(slots[idx])
    requires forall k :: 0 <= k < |wave| ==> wave[k] < idx
    requires CachedCallables(slots[idx]) !! Taken(slots, wave)
    ensures GoodWave(slots, wave + [idx])
  {
    forall a | 0 <= a < |wave|
      ensures CachedCallables(slots[wave[a]]) !! CachedCallables(slots[idx])
    {
      TakenMember(slots, wave, a);
    }
  }

  /** The recursive case of `PlaceKeeps`: the first wave stays, the promises hold of the rest. */
  lemma PlaceSkips(slots: seq<Slot>, waves: seq<seq<nat>>, idx: nat)
    requires waves != [] && AllInRange(slots, waves) && idx < |slots| && GoodWaves(slots, waves) && Exclusive(waves)
    requires forall w, k :: 0 <= w < |waves| && 0 <= k < |waves[w]| ==> waves[w][k] < idx
    requires var p := Place(slots, waves[1..], idx);
             GoodWaves(slots, p) && Exclusive(p) && forall i: nat :: Somewhere(p, i) <==>
               Somewhere(waves[1..], i) || i == idx
    ensures var r := [waves[0]] + Place(slots, waves[1..], idx);
            GoodWaves(slots, r) && Exclusive(r) && forall i: nat :: Somewhere(r, i) <==> Somewhere(waves, i) || i == idx
  {
    var p := Place(slots, waves[1..], idx);
    var r := [waves[0]] + p;
    forall i: nat
      ensures Somewhere(r, i) <==> i in waves[0] || Somewhere(p, i)
      ensures Somewhere(waves, i) <==> i in waves[0] || Somewhere(waves[1..], i)
    {
      SomewhereCons(waves[0], p, i);
      assert waves == [waves[0]] + waves[1..];
      SomewhereCons(waves[0], waves[1..], i);
    }
    forall v, w, i | 0 <= v < |r| && 0 <= w < |r| && i in r[v] && i in r[w]
      ensures v == w
    {
      if i in waves[0] {
        HeadAlone(waves, i);
        assert waves[0][0] < idx;
        HeadOrLater(waves[0], p, i, v);
        HeadOrLater(waves[0], p, i, w);
      } else {
        assert i in p[v - 1] && i in p[w - 1];
      }
    }
  }

  lemma SomewhereCons(head: seq<nat>, tail: seq<seq<nat>>, i: nat)
    ensures Somewhere([head] + tail, i) <==> i in head || Somewhere(tail, i)
  {
    var all := [head] + tail;
    if i in head { assert i in all[0]; }
    if Somewhere(tail, i) {
      var w :| 0 <= w < |tail| && i in tail[w];
      assert i in all[w + 1];
    }
    if Somewhere(all, i) {
      var w :| 0 <= w < |all| && i in all[w];
      if w > 0 { assert i in tail[w - 1]; }
    }
  }

  lemma HeadOrLater(head: seq<nat>, p: seq<seq<nat>>, i: nat, v: nat)
    requires v <= |p| && i in ([head] + p)[v]
    ensures v == 0 || Somewhere(p, i)
  {
    if v > 0 {
      assert ([head] + p)[v] == p[v - 1];
    }
  }

  /** An index of the first wave is in no later one. */
  lemma HeadAlone(waves: seq<seq<nat>>, i: nat)
    requires waves != [] && Exclusive(waves) && i in waves[0]
    ensures !Somewhere(waves[1..], i)
  {
    forall w | 0 <= w < |waves| - 1
      ensures i !in waves[1..][w]
    {
      assert waves[1..][w] == waves[w + 1];
    }
  }

  lemma {:induction false} PlaceAllKeeps(slots: seq<Slot>, n: nat)
    requires n <= |slots| && InRange(slots, SafeIndices(slots, n))
    ensures var r := PlaceAll(slots, SafeIndices(slots, n));
            GoodWaves(slots, r) && Exclusive(r)
            && forall i: nat :: Somewhere(r, i) <==> i < n && IsSafe(slots[i])
  {
    SafeIndicesInRange(slots, n);
    if n > 0 {
      SafeIndicesInRange(slots, n - 1);
      PlaceAllKeeps(slots, n - 1);
      if IsSafe(slots[n - 1]) {
        var safe := SafeIndices(slots, n);
        assert safe[..|safe| - 1] == SafeIndices(slots, n - 1);
        var waves := PlaceAll(slots, SafeIndices(slots, n - 1));
        forall w, k | 0 <= w < |waves| && 0 <= k < |waves[w]|
          ensures waves[w][k] < n - 1
        {
          assert waves[w][k] in waves[w];
          assert Somewhere(waves, waves[w][k]);
        }
        PlaceKeeps(slots, waves, n - 1);
      } else {
        assert SafeIndices(slots, n) == SafeIndices(slots, n - 1);
      }
    }
  }

  // ---- When anything is batched ---------------------------------------------

  ghost predicate Concurrent(waves: seq<seq<nat>>) {
    exists w :: 0 <= w < |waves| && |waves[w]| >= 2
  }

  /** Two parallel-safe dependencies below `n` that share no cached callable. */
  ghost predicate FreePair(slots: seq<Slot>, n: nat)
    requires n <= |slots|
  {
    exists a: nat, b: nat :: a < b < n && IsSafe(slots[a]) && IsSafe(slots[b])
                             && CachedCallables(slots[a]) !! CachedCallables(slots[b])
  }

  /** First fit never passes over a wave it could join. */
  lemma {:induction false} PlaceJoinsSome(slots: seq<Slot>, waves: seq<seq<nat>>, idx: nat)
    requires AllInRange(slots, waves) && idx < |slots| && forall w :: 0 <= w < |waves| ==> waves[w] != []
    requires Concurrent(waves) || exists w :: 0 <= w < |waves| && CachedCallables(slots[idx]) !! Taken(slots, waves[w])
    ensures Concurrent(Place(slots, waves, idx))
  {
    var r := Place(slots, waves, idx);
    if CachedCallables(slots[idx]) !! Taken(slots, waves[0]) {
      assert |r[0]| >= 2;
    } else if |waves[0]| >= 2 {
      assert |r[0]| >= 2;
    } else {
      var rest := waves[1..];
      if Concurrent(waves) {
        var w :| 0 <= w < |waves| && |waves[w]| >= 2;
        assert rest[w - 1] == waves[w];
      } else {
        var w :| 0 <= w < |waves| && CachedCallables(slots[idx]) !! Taken(slots, waves[w]);
        assert rest[w - 1] == waves[w];
      }
      PlaceJoinsSome(slots, rest, idx);
      var v :| 0 <= v < |Place(slots, rest, idx)| && |Place(slots, rest, idx)[v]| >= 2;
      assert r[v + 1] == Place(slots, rest, idx)[v];
    }
  }

  lemma {:induction false} FreePairConcurrent(slots: seq<Slot>, n: nat, a: nat, b: nat)
    requires n <= |slots| && InRange(slots, SafeIndices(slots, n))
    requires a < b < n && IsSafe(slots[a]) && IsSafe(slots[b]) && CachedCallables(slots[a]) !! CachedCallables(slots[b])
    ensures Concurrent(PlaceAll(slots, SafeIndices(slots, n)))
  {
    SafeIndicesInRange(slots, n - 1);
    PlaceAllKeeps(slots, n - 1);
    var safe, before := SafeIndices(slots, n), SafeIndices(slots, n - 1);
    if b < n - 1 {
      FreePairConcurrent(slots, n - 1, a, b);
      if IsSafe(slots[n - 1]) {
        assert safe[..|safe| - 1] == before;
        PlaceJoinsSome(slots, PlaceAll(slots, before), n - 1);
      } else {
        assert safe == before;
      }
    } else {
      assert safe[..|safe| - 1] == before;
      LastJoins(slots, PlaceAll(slots, before), a, b);
    }
  }

  lemma LastJoins(slots: seq<Slot>, waves: seq<seq<nat>>, a: nat, b: nat)
    requires AllInRange(slots, waves) && a < |slots| && b < |slots| && GoodWaves(slots, waves) && Somewhere(waves, a)
    requires CachedCallables(slots[a]) !! CachedCallables(slots[b])
    ensures Concurrent(Place(slots, waves, b))
  {
    var w :| 0 <= w < |waves| && a in waves[w];
    if |waves[w]| < 2 {
      assert waves[w] == [a] && waves[w][..0] == [];
      assert Taken(slots, waves[w]) == CachedCallables(slots[a]);
    }
    PlaceJoinsSome(slots, waves, b);
  }

  /** The waves partition the parallel-safe dependencies, and members of one wave share no cached callable. */
  lemma WavesPartition(slots: seq<Slot>)
    ensures var r := ComputeWaves(slots);
            && GoodWaves(slots, r) && Exclusive(r)
            && (r != [] ==> forall i: nat :: Somewhere(r, i) <==> i < |slots| && IsSafe(slots[i]))
  {
    SafeIndicesInRange(slots, |slots|);
    PlaceAllKeeps(slots, |slots|);
  }

  /** Something is batched exactly when two parallel-safe dependencies share no cached callable. */
  lemma WavesWhenFree(slots: seq<Slot>)
    ensures ComputeWaves(slots) != [] <==> FreePair(slots, |slots|)
  {
    SafeIndicesInRange(slots, |slots|);
    if FreePair(slots, |slots|) {
      FreeIsBatched(slots);
    }
    if ComputeWaves(slots) != [] {
      BatchedIsFree(slots);
    }
  }

  lemma FreeIsBatched(slots: seq<Slot>)
    requires FreePair(slots, |slots|)
    ensures ComputeWaves(slots) != []
  {
    var safe := SafeIndices(slots, |slots|);
    SafeIndicesInRange(slots, |slots|);
    var a: nat, b: nat :| a < b < |slots| && IsSafe(slots[a]) && IsSafe(slots[b])
                          && CachedCallables(slots[a]) !! CachedCallables(slots[b]);
    FreePairConcurrent(slots, |slots|, a, b);
    TwoMembers(safe, a, b);
  }

  lemma TwoMembers(s: seq<nat>, a: nat, b: nat)
    requires a in s && b in s && a != b
    ensures |s| >= 2
  {
    var i :| 0 <= i < |s| && s[i] == a;
    var j :| 0 <= j < |s| && s[j] == b;
  }

  lemma BatchedIsFree(slots: seq<Slot>)
    requires ComputeWaves(slots) != []
    ensures FreePair(slots, |slots|)
  {
    SafeIndicesInRange(slots, |slots|);
    PlaceAllKeeps(slots, |slots|);
    var waves := ComputeWaves(slots);
    var w :| 0 <= w < |waves| && |waves[w]| >= 2;
    TwoTogether(slots, waves[w]);
  }

  lemma TwoTogether(slots: seq<Slot>, wave: seq<nat>)
    requires GoodWave(slots, wave) && |wave| >= 2
    ensures FreePair(slots, |slots|)
  {
    var a, b := wave[0], wave[1];
    assert a < b && CachedCallables(slots[a]) !! CachedCallables(slots[b]);
  }

  predicate Tracks(slots: seq<Slot>, waves: seq<seq<nat>>, waveCached: seq<set<Callable>>)
    requires AllInRange(slots, waves)
  {
    |waveCached| == |waves| && forall w :: 0 <= w < |waves| ==> waveCached[w] == Taken(slots, waves[w])
  }

  lemma TakenJoin(slots: seq<Slot>, wave: seq<nat>, idx: nat)
    requires InRange(slots, wave) && idx < |slots|
    ensures Taken(slots, wave + [idx]) == Taken(slots, wave) + CachedCallables(slots[idx])
  {
    assert (wave + [idx])[..|wave|] == wave;
  }

  lemma SpliceWave(waves: seq<seq<nat>>, w: nat, wave: seq<nat>)
    requires w < |waves|
    ensures waves[w := wave] == waves[..w] + ([wave] + waves[w..][1..])
    ensures waves[w..][1..] == waves[w + 1..] && waves[..w] + [waves[w]] == waves[..w + 1]
    ensures forall t: seq<seq<nat>> :: waves[..w] + ([waves[w]] + t) == waves[..w + 1] + t
  {
    forall t: seq<seq<nat>>
      ensures waves[..w] + ([waves[w]] + t) == waves[..w + 1] + t
    {
      assert waves[..w] + ([waves[w]] + t) == waves[..w] + [waves[w]] + t;
    }
  }

  /** The placement loop of `compute_dep_waves`. */
  method PlaceSlot(slots: seq<Slot>, waves: seq<seq<nat>>, waveCached: seq<set<Callable>>, idx: nat)
    returns (waves': seq<seq<nat>>, waveCached': seq<set<Callable>>)
    requires AllInRange(slots, waves) && idx < |slots| && Tracks(slots, waves, waveCached)
    ensures waves' == Place(slots, waves, idx) && Tracks(slots, waves', waveCached')
  {
    var own := CachedCallables(slots[idx]);
    for w := 0 to |waves|
      invariant Place(slots, waves, idx) == waves[..w] + Place(slots, waves[w..], idx)
    {
      if own !! waveCached[w] {
        waves' := waves[w := waves[w] + [idx]];
        waveCached' := waveCached[w := waveCached[w] + own];
        TakenJoin(slots, waves[w], idx);
        SpliceWave(waves, w, waves[w] + [idx]);
        return;
      }
      SpliceWave(waves, w, waves[w]);
    }
    waves', waveCached' := waves + [[idx]], waveCached + [own];
    TakenJoin(slots, [], idx);
    assert [] + [idx] == [idx];
  }

  /** Its first loop: the parallel-safe dependencies. */
  method CollectSafe(slots: seq<Slot>) returns (safe: seq<nat>)
    ensures safe == SafeIndices(slots, |slots|)
  {
    safe := [];
    for i := 0 to |slots|
      invariant safe == SafeIndices(slots, i)
    {
      if slots[i].DependsSlot? && ParallelSafe(slots[i]) {
        safe := safe + [i];
      }
    }
  }

  /** `compute_dep_waves` as it runs: wave lists and their taken sets grown in place. */
  method ComputeDepWaves(slots: seq<Slot>) returns (r: seq<seq<nat>>)
    ensures r == ComputeWaves(slots)
  {
    SafeIndicesInRange(slots, |slots|);
    var safe := CollectSafe(slots);
    if |safe| < 2 {
      return [];
    }
    var waves: seq<seq<nat>> := [];
    var waveCached: seq<set<Callable>> := [];
    for k := 0 to |safe|
      invariant waves == PlaceAll(slots, safe[..k])
      invariant Tracks(slots, waves, waveCached)
    {
      assert safe[..k + 1][..k] == safe[..k];
      assert PlaceAll(slots, safe[..k + 1]) == Place(slots, waves, safe[k]);
      waves, waveCached := PlaceSlot(slots, waves, waveCached, safe[k]);
    }
    assert safe[..|safe|] == safe;
    if forall w :: 0 <= w < |waves| ==> |waves[w]| < 2 {
      return [];
    }
    r := waves;
  }

  lemma {:induction false} BatchedKeeps(slots: seq<Slot>, waves: seq<seq<nat>>)
    requires GoodWaves(slots, waves) && Exclusive(waves)
    ensures var b := Batched(waves);
            && GoodWaves(slots, b) && Exclusive(b)
            && (forall w :: 0 <= w < |b| ==> |b[w]| >= 2)
            && (forall i: nat :: Somewhere(b, i) ==> Somewhere(waves, i))
  {
    if waves != [] {
      var rest := waves[1..];
      forall v, w, i | 0 <= v < |rest| && 0 <= w < |rest| && i in rest[v] && i in rest[w]
        ensures v == w
      {
        assert i in waves[v + 1] && i in waves[w + 1];
      }
      BatchedKeeps(slots, rest);
      var b := Batched(rest);
      forall i: nat
        ensures Somewhere([waves[0]] + b, i) <==> i in waves[0] || Somewhere(b, i)
        ensures Somewhere(waves, i) <==> i in waves[0] || Somewhere(rest, i)
      {
        SomewhereCons(waves[0], b, i);
        assert waves == [waves[0]] + rest;
        SomewhereCons(waves[0], rest, i);
      }
      var r := [waves[0]] + b;
      forall v, w, i | 0 <= v < |r| && 0 <= w < |r| && i in r[v] && i in r[w]
        ensures v == w
      {
        if i in waves[0] {
          HeadAlone(waves, i);
          HeadOrLater(waves[0], b, i, v);
          HeadOrLater(waves[0], b, i, w);
        } else if v > 0 && w > 0 {
          assert i in b[v - 1] && i in b[w - 1];
        }
      }
    }
  }
}
