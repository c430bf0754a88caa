/** Which batching the waves are: each dependency in the earliest wave it fits, and the single ones left out. */
module FirstFit {
  import opened Plans
  import opened PlanTrees
  import opened Waves
  import opened Planner

  /** Slots `i` and `j` cache a callable in common. */
  predicate Shares(slots: seq<Slot>, i: nat, j: nat)
    requires i < |slots| && j < |slots|
  {
    !(CachedCallables(slots[i]) !! CachedCallables(slots[j]))
  }

  /** An earlier member of the wave stands in the way of slot `i`. */
  ghost predicate Blocked(slots: seq<Slot>, wave: seq<nat>, i: nat)
    requires InRange(slots, wave) && i < |slots|
  {
    exists j: nat :: j in wave && j < i && Shares(slots, j, i)
  }

  /** No index could have gone into an earlier wave. */
  ghost predicate Earliest(slots: seq<Slot>, waves: seq<seq<nat>>)
    requires AllInRange(slots, waves)
  {
    forall v, w, i: nat :: 0 <= v < w < |waves| && i in waves[w] ==> i < |slots| && Blocked(slots, waves[v], i)
  }

  ghost predicate Covers(slots: seq<Slot>, waves: seq<seq<nat>>) {
    forall i: nat :: Somewhere(waves, i) <==> i < |slots| && IsSafe(slots[i])
  }

  // ---- First fit ------------------------------------------------------------

  lemma {:induction false} TakenFrom(slots: seq<Slot>, wave: seq<nat>, c: Callable) returns (j: nat)
    requires InRange(slots, wave) && c in Taken(slots, wave)
    ensures j in wave && j < |slots| && c in CachedCallables(slots[j])
  {
    var n := |wave| - 1;
    if c in CachedCallables(slots[wave[n]]) {
      j := wave[n];
    } else {
      j := TakenFrom(slots, wave[..n], c);
    }
  }

  lemma TakenBlocks(slots: seq<Slot>, wave: seq<nat>, i: nat)
    requires InRange(slots, wave) && i < |slots| && (forall k :: 0 <= k < |wave| ==> wave[k] < i)
    requires !(CachedCallables(slots[i]) !! Taken(slots, wave))
    ensures Blocked(slots, wave, i)
  {
    var c :| c in CachedCallables(slots[i]) && c in Taken(slots, wave);
    var j := TakenFrom(slots, wave, c);
  }

  lemma HeadUpdated(waves: seq<seq<nat>>, at: nat, idx: nat)
    requires waves != [] && at <= |waves| - 1
    ensures at < |waves| - 1 ==>
      waves[at + 1 := waves[at + 1] + [idx]] == [waves[0]] + waves[1..][at := waves[1..][at] + [idx]]
    ensures waves + [[idx]] == [waves[0]] + (waves[1..] + [[idx]])
  {
  }

  /** Where an index is placed: the first wave whose taken callables it does not share. */
  lemma {:induction false} PlaceAt(slots: seq<Slot>, waves: seq<seq<nat>>, idx: nat) returns (at: nat)
    requires AllInRange(slots, waves) && idx < |slots|
    ensures at <= |waves|
    ensures Place(slots, waves, idx)
      == if at < |waves| then waves[at := waves[at] + [idx]] else waves + [[idx]]
    ensures forall v :: 0 <= v < at ==> !(CachedCallables(slots[idx]) !! Taken(slots, waves[v]))
  {
    if waves == [] || CachedCallables(slots[idx]) !! Taken(slots, waves[0]) {
      at := 0;
    } else {
      var rest := waves[1..];
      var behind := PlaceAt(slots, rest, idx);
      at := behind + 1;
      HeadUpdated(waves, behind, idx);
      forall v | 0 <= v < at
        ensures !(CachedCallables(slots[idx]) !! Taken(slots, waves[v]))
      {
        if v > 0 { assert waves[v] == rest[v - 1]; }
      }
    }
  }

  lemma BlockedMore(slots: seq<Slot>, wave: seq<nat>, more: seq<nat>, i: nat)
    requires InRange(slots, wave) && InRange(slots, more) && i < |slots| && Blocked(slots, wave, i)
    requires forall j :: j in wave ==> j in more
    ensures Blocked(slots, more, i)
  {
  }

  predicate AllBelow(waves: seq<seq<nat>>, n: nat) {
    forall w, k :: 0 <= w < |waves| && 0 <= k < |waves[w]| ==> waves[w][k] < n
  }

  lemma PlaceEarliest(slots: seq<Slot>, waves: seq<seq<nat>>, idx: nat)
    requires AllInRange(slots, waves) && idx < |slots| && Earliest(slots, waves)
    requires AllBelow(waves, idx)
    ensures Earliest(slots, Place(slots, waves, idx))
  {
    var r := Place(slots, waves, idx);
    var at := PlaceAt(slots, waves, idx);
    forall v, w, i: nat | 0 <= v < w < |r| && i in r[w]
      ensures i < |slots| && Blocked(slots, r[v], i)
    {
      assert v < |waves| && forall j :: j in waves[v] ==> j in r[v];
      if w < |waves| && i in waves[w] {
        BlockedMore(slots, waves[v], r[v], i);
      } else {
        assert i == idx && w == at;
        TakenBlocks(slots, waves[v], idx);
        BlockedMore(slots, waves[v], r[v], idx);
      }
    }
  }

  lemma PlaceAllBelow(slots: seq<Slot>, n: nat)
    requires n <= |slots| && InRange(slots, SafeIndices(slots, n))
    ensures AllBelow(PlaceAll(slots, SafeIndices(slots, n)), n)
  {
    PlaceAllKeeps(slots, n);
    var waves := PlaceAll(slots, SafeIndices(slots, n));
    forall w, k | 0 <= w < |waves| && 0 <= k < |waves[w]|
      ensures waves[w][k] < n
    {
      assert waves[w][k] in waves[w];
      assert Somewhere(waves, waves[w][k]);
    }
  }

  lemma PlaceAllNext(slots: seq<Slot>, n: nat)
    requires 0 < n <= |slots| && IsSafe(slots[n - 1])
    requires InRange(slots, SafeIndices(slots, n)) && InRange(slots, SafeIndices(slots, n - 1))
    ensures PlaceAll(slots, SafeIndices(slots, n)) == Place(slots, PlaceAll(slots, SafeIndices(slots, n - 1)), n - 1)
  {
    var safe := SafeIndices(slots, n);
    assert safe[..|safe| - 1] == SafeIndices(slots, n - 1);
  }

  lemma {:induction false} PlaceAllEarliest(slots: seq<Slot>, n: nat)
    requires n <= |slots| && InRange(slots, SafeIndices(slots, n))
    ensures Earliest(slots, PlaceAll(slots, SafeIndices(slots, n)))
  {
    if n > 0 {
      SafeIndicesInRange(slots, n - 1);
      PlaceAllEarliest(slots, n - 1);
      if IsSafe(slots[n - 1]) {
        PlaceAllNext(slots, n);
        PlaceAllBelow(slots, n - 1);
        PlaceEarliest(slots, PlaceAll(slots, SafeIndices(slots, n - 1)), n - 1);
      } else {
        assert SafeIndices(slots, n) == SafeIndices(slots, n - 1);
      }
    }
  }

  /** A batching of every parallel-safe dependency that keeps the promises and in which none could have come earlier. */
  ghost predicate FirstFitted(slots: seq<Slot>, waves: seq<seq<nat>>) {
    GoodWaves(slots, waves) && Exclusive(waves) && Covers(slots, waves) && Earliest(slots, waves)
  }

  /** All the waves, those of a single member among them. */
  ghost function AllWaves(slots: seq<Slot>): (waves: seq<seq<nat>>)
    ensures FirstFitted(slots, waves)
    ensures ComputeWaves(slots) == if Concurrent(waves) then waves else []
  {
    SafeIndicesInRange(slots, |slots|);
    PlaceAllKeeps(slots, |slots|);
    PlaceAllEarliest(slots, |slots|);
    SingleAlone(slots);
    PlaceAll(slots, SafeIndices(slots, |slots|))
  }

  /** A single parallel-safe dependency makes no wave of two. */
  lemma SingleAlone(slots: seq<Slot>)
    requires InRange(slots, SafeIndices(slots, |slots|))
    ensures var safe := SafeIndices(slots, |slots|); |safe| < 2 ==> !Concurrent(PlaceAll(slots, safe))
  {
    var safe := SafeIndices(slots, |slots|);
    if |safe| == 1 {
      assert safe[..0] == [];
    }
  }

  // ---- There is only one such batching --------------------------------------

  /** The wave of an index is the first in which nothing stands in its way. */
  lemma WaveOf(slots: seq<Slot>, waves: seq<seq<nat>>, w: nat, i: nat)
    requires FirstFitted(slots, waves) && w < |waves| && i in waves[w]
    ensures i < |slots| && !Blocked(slots, waves[w], i) && forall v :: 0 <= v < w ==> Blocked(slots, waves[v], i)
  {
    assert GoodWave(slots, waves[w]);
    var b :| 0 <= b < |waves[w]| && waves[w][b] == i;
    forall j: nat | j in waves[w] && j < i
      ensures !Shares(slots, j, i)
    {
      var a :| 0 <= a < |waves[w]| && waves[w][a] == j;
      Before(waves[w], a, b);
    }
  }

  lemma Before(wave: seq<nat>, a: nat, b: nat)
    requires Ascending(wave) && a < |wave| && b < |wave| && wave[a] < wave[b]
    ensures a < b
  {
  }

  /** Two such batchings hold every index below `n` in the same wave. */
  ghost predicate SameBelow(a: seq<seq<nat>>, b: seq<seq<nat>>, n: nat) {
    forall v, w, i: nat :: 0 <= v < |a| && 0 <= w < |b| && i in a[v] && i in b[w] && i < n ==> v == w
  }

  lemma SameSwapped(a: seq<seq<nat>>, b: seq<seq<nat>>, n: nat)
    requires SameBelow(a, b, n)
    ensures SameBelow(b, a, n)
  {
  }

  /** What stands in the way of an index in one batching does so in the other. */
  lemma BlockedAlike(slots: seq<Slot>, a: seq<seq<nat>>, b: seq<seq<nat>>, v: nat, i: nat)
    requires FirstFitted(slots, a) && FirstFitted(slots, b) && SameBelow(a, b, i)
    requires v < |a| && v < |b| && i < |slots| && Blocked(slots, b[v], i)
    ensures Blocked(slots, a[v], i)
  {
    var j: nat :| j in b[v] && j < i && Shares(slots, j, i);
    assert Somewhere(b, j);
    assert Somewhere(a, j);
    var u :| 0 <= u < |a| && j in a[u];
    assert u == v;
  }

  lemma NotLater(slots: seq<Slot>, a: seq<seq<nat>>, b: seq<seq<nat>>, v: nat, w: nat, i: nat)
    requires FirstFitted(slots, a) && FirstFitted(slots, b) && SameBelow(a, b, i)
    requires v < |a| && w < |b| && i in a[v] && i in b[w]
    ensures w <= v
  {
    WaveOf(slots, a, v, i);
    WaveOf(slots, b, w, i);
    if v < w {
      BlockedAlike(slots, a, b, v, i);
    }
  }

  lemma SameAt(slots: seq<Slot>, a: seq<seq<nat>>, b: seq<seq<nat>>, v: nat, w: nat, i: nat)
    requires FirstFitted(slots, a) && FirstFitted(slots, b) && SameBelow(a, b, i)
    requires v < |a| && w < |b| && i in a[v] && i in b[w]
    ensures v == w
  {
    NotLater(slots, a, b, v, w, i);
    SameSwapped(a, b, i);
    NotLater(slots, b, a, w, v, i);
  }

  lemma {:induction false} SameEverywhere(slots: seq<Slot>, a: seq<seq<nat>>, b: seq<seq<nat>>, n: nat)
    requires FirstFitted(slots, a) && FirstFitted(slots, b)
    ensures SameBelow(a, b, n)
  {
    if n > 0 {
      SameEverywhere(slots, a, b, n - 1);
      forall v, w | 0 <= v < |a| && 0 <= w < |b| && n - 1 in a[v] && n - 1 in b[w]
        ensures v == w
      {
        SameAt(slots, a, b, v, w, n - 1);
      }
    }
  }

  lemma WaveWithin(slots: seq<Slot>, a: seq<seq<nat>>, b: seq<seq<nat>>, w: nat)
    requires FirstFitted(slots, a) && FirstFitted(slots, b) && w < |a|
    ensures w < |b| && forall i :: i in a[w] ==> i in b[w]
  {
    assert GoodWave(slots, a[w]);
    forall i | i in a[w]
      ensures w < |b| && i in b[w]
    {
      assert Somewhere(a, i);
      assert Somewhere(b, i);
      var v :| 0 <= v < |b| && i in b[v];
      SameEverywhere(slots, a, b, i + 1);
      assert w == v;
    }
    assert a[w][0] in a[w];
  }

  lemma FirstIn(s: seq<nat>)
    ensures s != [] ==> s[0] in s
  {
  }

  /** Ascending sequences with the same members are the same. */
  lemma {:induction false} SameAscending(a: seq<nat>, b: seq<nat>)
    requires Ascending(a) && Ascending(b) && forall i :: i in a <==> i in b
    ensures a == b
    decreases |a|
  {
    if a == [] {
      FirstIn(b);
    } else {
      assert a[0] in b;
      assert b[0] in a;
      LeastFirst(a, b[0]);
      LeastFirst(b, a[0]);
      forall i
        ensures i in a[1..] <==> i in b[1..]
      {
        InTail(a, i);
        InTail(b, i);
      }
      SameAscending(a[1..], b[1..]);
      assert a == [a[0]] + a[1..] && b == [b[0]] + b[1..];
    }
  }

  lemma LeastFirst(s: seq<nat>, i: nat)
    requires Ascending(s) && i in s
    ensures s[0] <= i
  {
  }

  lemma InTail(s: seq<nat>, i: nat)
    requires Ascending(s) && s != []
    ensures i in s[1..] <==> i in s && i != s[0]
  {
    assert s == [s[0]] + s[1..];
  }

  /** The promises leave no choice: one batching keeps them. */
  lemma OnlyOneFit(slots: seq<Slot>, a: seq<seq<nat>>, b: seq<seq<nat>>)
    requires FirstFitted(slots, a) && FirstFitted(slots, b)
    ensures a == b
  {
    if a != [] { WaveWithin(slots, a, b, |a| - 1); }
    if b != [] { WaveWithin(slots, b, a, |b| - 1); }
    forall w | 0 <= w < |a|
      ensures a[w] == b[w]
    {
      WaveWithin(slots, a, b, w);
      WaveWithin(slots, b, a, w);
      assert GoodWave(slots, a[w]) && GoodWave(slots, b[w]);
      SameAscending(a[w], b[w]);
    }
  }

  // ---- What a plan batches --------------------------------------------------

  function Moved(at: seq<nat>): seq<nat> {
    seq(|at|, k requires 0 <= k < |at| => at[k] + 1)
  }

  lemma MovedMembers(at: seq<nat>, w: nat)
    ensures w in Moved(at) <==> w > 0 && w - 1 in at
  {
    if w in Moved(at) {
      var k :| 0 <= k < |at| && Moved(at)[k] == w;
      assert at[k] in at;
    }
    if w > 0 && w - 1 in at {
      var k :| 0 <= k < |at| && at[k] == w - 1;
      assert Moved(at)[k] == w;
    }
  }

  lemma InEither(a: seq<nat>, b: seq<nat>, w: nat)
    ensures w in a + b <==> w in a || w in b
  {
  }

  /** Where the waves of two members or more stand. */
  function LargeAt(waves: seq<seq<nat>>): seq<nat> {
    if waves == [] then [] else (if |waves[0]| < 2 then [] else [0]) + Moved(LargeAt(waves[1..]))
  }

  lemma {:induction false} LargeMembers(waves: seq<seq<nat>>, w: nat)
    ensures w in LargeAt(waves) <==> w < |waves| && |waves[w]| >= 2
    decreases |waves|
  {
    if waves != [] {
      var head := if |waves[0]| < 2 then [] else [0];
      InEither(head, Moved(LargeAt(waves[1..])), w);
      MovedMembers(LargeAt(waves[1..]), w);
      if w > 0 {
        LargeMembers(waves[1..], w - 1);
      }
    }
  }

  lemma {:induction false} LargeKept(waves: seq<seq<nat>>)
    ensures |LargeAt(waves)| == |Batched(waves)| && Ascending(LargeAt(waves))
    ensures forall k :: 0 <= k < |LargeAt(waves)| ==>
      LargeAt(waves)[k] < |waves| && Batched(waves)[k] == waves[LargeAt(waves)[k]]
    decreases |waves|
  {
    if waves != [] {
      LargeKept(waves[1..]);
    }
  }

  /** The waves of two members or more are kept, in their order. */
  lemma BatchedAre(waves: seq<seq<nat>>) returns (at: seq<nat>)
    ensures |at| == |Batched(waves)| && Ascending(at)
    ensures forall k :: 0 <= k < |at| ==> at[k] < |waves| && Batched(waves)[k] == waves[at[k]]
    ensures forall w: nat :: w in at <==> w < |waves| && |waves[w]| >= 2
  {
    at := LargeAt(waves);
    LargeKept(waves);
    forall w: nat
      ensures w in at <==> w < |waves| && |waves[w]| >= 2
    {
      LargeMembers(waves, w);
    }
  }

  lemma NothingBatched(waves: seq<seq<nat>>)
    requires !Concurrent(waves)
    ensures Batched(waves) == []
  {
    var at := BatchedAre(waves);
    FirstIn(at);
  }

  /** The waves of a plan: of the one first-fit batching of its parallel-safe dependencies, in order, exactly the
      waves that run something concurrently. */
  lemma PlanBatches(slots: seq<Slot>, all: seq<seq<nat>>) returns (at: seq<nat>)
    requires FirstFitted(slots, all)
    ensures var waves := MakePlan(slots).waves;
      && |at| == |waves| && Ascending(at)
      && (forall k :: 0 <= k < |at| ==> at[k] < |all| && waves[k] == all[at[k]])
      && (forall w: nat :: w in at <==> w < |all| && |all[w]| >= 2)
  {
    OnlyOneFit(slots, all, AllWaves(slots));
    at := BatchedAre(all);
    if !Concurrent(all) {
      NothingBatched(all);
    }
  }
}
