/** Over whole runs the entry thrown out to make room is the one that has been there longest. */
module EvictionAge {
  import opened ExpiringStore
  import C = Cache
  import B = RateLimitBackend
  import RateLimits

  /** When each key came in, and the keys in that order. */
  predicate ByAge(keys: seq<Key>, came: map<Key, nat>) {
    && (forall i :: 0 <= i < |keys| ==> keys[i] in came)
    && forall i, j :: 0 <= i < j < |keys| ==> came[keys[i]] < came[keys[j]]
  }

  lemma {:induction false} WithoutByAge(keys: seq<Key>, k: Key, came: map<Key, nat>)
    requires ByAge(keys, came)
    ensures ByAge(Without(keys, k), came) && forall j :: j in Without(keys, k) ==> j in keys
  {
    if keys != [] {
      var rest := Without(keys[1..], k);
      WithoutByAge(keys[1..], k, came);
      forall j | 0 <= j < |rest|
        ensures came[keys[0]] < came[rest[j]]
      {
        assert rest[j] in keys[1..];
      }
    }
  }

  lemma {:induction false} RemoveAllByAge<V>(s: Store<V>, keys: seq<Key>, came: map<Key, nat>)
    requires ByAge(s.order, came)
    ensures ByAge(RemoveAll(s, keys).order, came) && forall j :: j in RemoveAll(s, keys).order ==> j in s.order
  {
    if keys != [] {
      RemoveAllByAge(s, keys[..|keys| - 1], came);
      WithoutByAge(RemoveAll(s, keys[..|keys| - 1]).order, keys[|keys| - 1], came);
    }
  }

  lemma EvictedByAge<V>(s: Store<V>, capacity: nat, now: real, came: map<Key, nat>)
    requires WellFormed(s) && ByAge(s.order, came)
    ensures ByAge(Evicted(s, capacity, now).order, came)
    ensures forall j :: j in Evicted(s, capacity, now).order ==> j in s.order
  {
    RemoveAllByAge(s, Expired(s, s.order, now), came);
    var p := Purged(s, now);
    if p.order != [] {
      WithoutByAge(p.order, p.order[0], came);
    }
  }

  lemma PutByAge<V>(s: Store<V>, k: Key, e: Entry<V>, came: map<Key, nat>)
    requires ByAge(s.order, came) && k in came
    requires k in s.entries || forall j :: j in s.order ==> came[j] < came[k]
    ensures ByAge(Put(s, k, e).order, came)
  {
  }

  /** A new key comes in behind all others; one already there keeps its place. */
  lemma InsertByAge<V>(s: Store<V>, capacity: nat, k: Key, e: Entry<V>, now: real, came: map<Key, nat>)
    requires WellFormed(s) && ByAge(s.order, came) && k in came
    requires k !in s.entries ==> forall j :: j in s.order ==> came[j] < came[k]
    requires 1 <= capacity
    ensures ByAge(Insert(s, capacity, k, e, now).order, came)
  {
    if k !in s.entries && |s.order| >= capacity {
      EvictedByAge(s, capacity, now, came);
      PutByAge(Evicted(s, capacity, now), k, e, came);
    } else {
      PutByAge(s, k, e, came);
    }
  }

  lemma ByAgeAlike(keys: seq<Key>, came: map<Key, nat>, came': map<Key, nat>)
    requires ByAge(keys, came) && forall k :: k in keys ==> k in came' && came'[k] == came[k]
    ensures ByAge(keys, came')
  {
  }

  /** The one that came in first of those that are there. */
  predicate Eldest(keys: set<Key>, came: map<Key, nat>, k: Key) {
    k in keys && k in came && forall j :: j in keys && j != k ==> j in came && came[k] < came[j]
  }

  lemma FirstIsEldest<V>(s: Store<V>, came: map<Key, nat>, k: Key)
    requires WellFormed(s) && ByAge(s.order, came)
    ensures (s.order != [] && k == s.order[0]) <==> Eldest(s.entries.Keys, came, k)
  {
    if s.order != [] {
      var first := s.order[0];
      assert first in s.entries;
      forall j | j in s.entries.Keys && j != first
        ensures came[first] < came[j]
      {
        assert j in s.order;
      }
    }
    if k in s.entries {
      assert k in s.order;
    }
  }

  /** The ages after operation `n`: whatever was not there before came in with it. */
  function Next<V>(before: map<Key, nat>, n: nat, s: Store<V>): map<Key, nat> {
    map k | k in s.entries :: if k in before then before[k] else n
  }

  /** An operation that keeps the order keeps it under the new ages. */
  lemma NextByAge<V>(s: Store<V>, before: map<Key, nat>, came: map<Key, nat>, n: nat)
    requires WellFormed(s) && ByAge(s.order, came)
    requires forall k :: k in came ==> came[k] == if k in before then before[k] else n
    ensures ByAge(s.order, Next(before, n, s))
  {
    ByAgeAlike(s.order, came, Next(before, n, s));
  }

  /** Storing keeps the keys by age. */
  lemma NextStored<V>(s: Store<V>, capacity: nat, k: Key, e: Entry<V>, now: real, before: map<Key, nat>, n: nat)
    requires WellFormed(s) && 1 <= capacity && ByAge(s.order, before)
    requires forall j :: j in before <==> j in s.entries
    requires forall j :: j in before ==> before[j] < n
    ensures var r := Insert(s, capacity, k, e, now); ByAge(r.order, Next(before, n, r))
  {
    var came := if k in before then before else before[k := n];
    ByAgeAlike(s.order, before, came);
    InsertByAge(s, capacity, k, e, now, came);
    InsertFacts(s, capacity, k, e, now);
    NextByAge(Insert(s, capacity, k, e, now), before, came, n);
  }

  lemma NextRemoved<V>(s: Store<V>, k: Key, before: map<Key, nat>, n: nat)
    requires WellFormed(s) && ByAge(s.order, before)
    ensures var r := Remove(s, k); ByAge(r.order, Next(before, n, r))
  {
    WithoutByAge(s.order, k, before);
    RemoveFacts(s, k);
    NextByAge(Remove(s, k), before, before, n);
  }

  // ---- The cache ------------------------------------------------------------

  /** When the entry of each key present came in; one removed and stored again comes in anew. */
  function CacheAges(capacity: nat, ops: seq<C.Op>): (came: map<Key, nat>)
    requires 1 <= capacity
    ensures forall k :: k in came <==> k in C.After(capacity, ops).entries
    ensures forall k :: k in came ==> came[k] < |ops|
  {
    if ops == [] then map[]
    else Next(CacheAges(capacity, ops[..|ops| - 1]), |ops| - 1, C.After(capacity, ops))
  }

  lemma CacheStep(s: Store<C.Value>, capacity: nat, op: C.Op, before: map<Key, nat>, n: nat)
    requires WellFormed(s) && 1 <= capacity && ByAge(s.order, before)
    requires forall j :: j in before <==> j in s.entries
    requires forall j :: j in before ==> before[j] < n
    ensures var r := C.Apply(s, capacity, op); ByAge(r.order, Next(before, n, r))
  {
    match op
    case Ask(k, now) =>
      if C.Get(s, k, now).1 == s {
        NextByAge(s, before, before, n);
      } else {
        NextRemoved(s, k, before, n);
      }
    case Keep(k, v, ttl, evictAt, now) =>
      NextStored(s, capacity, k, Entry(v, now + ttl as real), evictAt, before, n);
    case Forget(k) => NextRemoved(s, k, before, n);
  }

  lemma {:induction false} CacheByAge(capacity: nat, ops: seq<C.Op>)
    requires 1 <= capacity
    ensures ByAge(C.After(capacity, ops).order, CacheAges(capacity, ops))
  {
    if ops != [] {
      var front, n := ops[..|ops| - 1], |ops| - 1;
      CacheByAge(capacity, front);
      CacheStep(C.After(capacity, front), capacity, ops[n], CacheAges(capacity, front), n);
    }
  }

  /** A full cache of live entries loses, to a new key, the one that came in first; nothing live is lost otherwise. */
  lemma CacheDropsEldest(capacity: nat, ops: seq<C.Op>, k: Key, now: real, victim: Key)
    requires 1 <= capacity
    ensures var s := C.After(capacity, ops);
      DropsLive(s, capacity, k, now, victim) <==>
        && k !in s.entries && |s.order| == capacity && (forall j :: j in s.entries ==> LiveAt(s, j, now))
        && Eldest(s.entries.Keys, CacheAges(capacity, ops), victim)
  {
    var s := C.After(capacity, ops);
    CacheByAge(capacity, ops);
    LiveDropsExactly(s, capacity, k, now, victim);
    FirstIsEldest(s, CacheAges(capacity, ops), victim);
  }

  // ---- The rate-limit backend -----------------------------------------------

  /** When the state of each key present came in; it keeps its place however often it is written again. */
  ghost function BackendAges(plan: B.Plan, capacity: nat, reqs: seq<B.Request>): (came: map<Key, nat>)
    requires B.PlanOk(plan) && 1 <= capacity
    ensures forall k :: k in came <==> k in B.After(plan, capacity, reqs).entries
    ensures forall k :: k in came ==> came[k] < |reqs|
  {
    if reqs == [] then map[]
    else Next(BackendAges(plan, capacity, reqs[..|reqs| - 1]), |reqs| - 1, B.After(plan, capacity, reqs))
  }

  lemma {:induction false} BackendByAge(plan: B.Plan, capacity: nat, reqs: seq<B.Request>)
    requires B.PlanOk(plan) && 1 <= capacity
    ensures ByAge(B.After(plan, capacity, reqs).order, BackendAges(plan, capacity, reqs))
  {
    if reqs != [] {
      var front, n := reqs[..|reqs| - 1], |reqs| - 1;
      var s, r := B.After(plan, capacity, front), reqs[n];
      BackendByAge(plan, capacity, front);
      var o := RateLimits.Evaluate(plan(r.key), B.Found(s, r.key, r.now), r.now);
      NextStored(s, capacity, r.key, Entry(o.next, r.now + o.ttl as real), r.now,
                 BackendAges(plan, capacity, front), n);
    }
  }

  /** The client forgotten while its state is live is the one whose state came in first. */
  lemma BackendDropsEldest(plan: B.Plan, capacity: nat, reqs: seq<B.Request>, k: Key, now: real, victim: Key)
    requires B.PlanOk(plan) && 1 <= capacity
    ensures var s := B.After(plan, capacity, reqs);
      DropsLive(s, capacity, k, now, victim) <==>
        && k !in s.entries && |s.order| == capacity && (forall j :: j in s.entries ==> LiveAt(s, j, now))
        && Eldest(s.entries.Keys, BackendAges(plan, capacity, reqs), victim)
  {
    var s := B.After(plan, capacity, reqs);
    BackendByAge(plan, capacity, reqs);
    LiveDropsExactly(s, capacity, k, now, victim);
    FirstIsEldest(s, BackendAges(plan, capacity, reqs), victim);
  }
}
