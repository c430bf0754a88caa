/**
  * A size-bounded dictionary whose entries expire, as the in-memory cache and the rate-limit backend keep it:
  * expired entries are dropped first, then the oldest inserted one.
  */
module ExpiringStore {

  type Key = string

  datatype Entry<+V> = Entry(value: V, expires: real)

  /** A Python `dict`: its entries, and its keys in the order they were inserted. */
  datatype Store<+V> = Store(order: seq<Key>, entries: map<Key, Entry<V>>)

  predicate Distinct(keys: seq<Key>) {
    forall i, j :: 0 <= i < j < |keys| ==> keys[i] != keys[j]
  }

  predicate WellFormed<V>(s: Store<V>) {
    && Distinct(s.order)
    && (forall k :: k in s.order ==> k in s.entries) && (forall k :: k in s.entries ==> k in s.order)
  }

  predicate LiveAt<V>(s: Store<V>, k: Key, now: real) {
    k in s.entries && s.entries[k].expires > now
  }

  function Without(keys: seq<Key>, k: Key): seq<Key> {
    if keys == [] then [] else (if keys[0] == k then [] else [keys[0]]) + Without(keys[1..], k)
  }

  /** `del d[k]` */
  function Remove<V>(s: Store<V>, k: Key): Store<V> {
    Store(Without(s.order, k), s.entries - {k})
  }

  /** `d[k] = e`; a key already present keeps its place. */
  function Put<V>(s: Store<V>, k: Key, e: Entry<V>): Store<V> {
    Store(if k in s.entries then s.order else s.order + [k], s.entries[k := e])
  }

  function RemoveAll<V>(s: Store<V>, keys: seq<Key>): Store<V> {
    if keys == [] then s else Remove(RemoveAll(s, keys[..|keys| - 1]), keys[|keys| - 1])
  }

  /** Keys of `keys` whose entry has expired. */
  function Expired<V>(s: Store<V>, keys: seq<Key>, now: real): seq<Key>
    requires forall k :: k in keys ==> k in s.entries
  {
    if keys == [] then []
    else
      var last := keys[|keys| - 1];
      Expired(s, keys[..|keys| - 1], now) + if s.entries[last].expires <= now then [last] else []
  }

  function Purged<V>(s: Store<V>, now: real): Store<V>
    requires WellFormed(s)
  {
    RemoveAll(s, Expired(s, s.order, now))
  }

  function Evicted<V>(s: Store<V>, capacity: nat, now: real): Store<V>
    requires WellFormed(s)
  {
    var p := Purged(s, now);
    if |p.order| >= capacity && p.order != [] then Remove(p, p.order[0]) else p
  }

  /** Storing an entry, with an eviction at time `now` when a new key meets a full store. */
  function Insert<V>(s: Store<V>, capacity: nat, k: Key, e: Entry<V>, now: real): Store<V>
    requires WellFormed(s)
  {
    Put(if k !in s.entries && |s.order| >= capacity then Evicted(s, capacity, now) else s, k, e)
  }

  // ---- The dictionary -------------------------------------------------------

  lemma {:induction false} WithoutFacts(keys: seq<Key>, k: Key)
    requires Distinct(keys)
    ensures Distinct(Without(keys, k))
    ensures forall j :: j in Without(keys, k) <==> j in keys && j != k
    ensures |Without(keys, k)| == if k in keys then |keys| - 1 else |keys|
  {
    if keys != [] {
      var rest := keys[1..];
      WithoutFacts(rest, k);
      assert forall j :: j in keys <==> j == keys[0] || j in rest;
      assert keys[0] !in rest;
    }
  }

  lemma RemoveFacts<V>(s: Store<V>, k: Key)
    requires WellFormed(s)
    ensures WellFormed(Remove(s, k))
    ensures |Remove(s, k).order| == if k in s.entries then |s.order| - 1 else |s.order|
  {
    WithoutFacts(s.order, k);
  }

  lemma PutFacts<V>(s: Store<V>, k: Key, e: Entry<V>)
    requires WellFormed(s)
    ensures WellFormed(Put(s, k, e))
    ensures |Put(s, k, e).order| == if k in s.entries then |s.order| else |s.order| + 1
  {
    var r := Put(s, k, e);
    if k !in s.entries {
      assert r.order[|s.order|] == k;
      assert forall i :: 0 <= i < |s.order| ==> r.order[i] == s.order[i];
    }
  }

  lemma {:induction false} RemoveAllFacts<V>(s: Store<V>, keys: seq<Key>)
    requires WellFormed(s)
    ensures WellFormed(RemoveAll(s, keys))
    ensures RemoveAll(s, keys).entries == s.entries - (set k | k in keys)
    ensures |RemoveAll(s, keys).order| <= |s.order|
    ensures (exists k :: k in keys && k in s.entries) ==> |RemoveAll(s, keys).order| < |s.order|
    ensures (forall k :: k in keys ==> k !in s.entries) ==> |RemoveAll(s, keys).order| == |s.order|
  {
    if keys != [] {
      var n := |keys| - 1;
      RemoveAllFacts(s, keys[..n]);
      RemoveFacts(RemoveAll(s, keys[..n]), keys[n]);
      assert forall k :: k in keys <==> k in keys[..n] || k == keys[n];
    }
  }

  lemma {:induction false} ExpiredFacts<V>(s: Store<V>, keys: seq<Key>, now: real)
    requires forall k :: k in keys ==> k in s.entries
    ensures forall k :: k in Expired(s, keys, now) <==> k in keys && s.entries[k].expires <= now
  {
    if keys != [] {
      ExpiredFacts(s, keys[..|keys| - 1], now);
      assert forall k :: k in keys <==> k in keys[..|keys| - 1] || k == keys[|keys| - 1];
    }
  }

  /** A purge keeps exactly the live entries, and is shorter when there was something to purge. */
  lemma PurgedFacts<V>(s: Store<V>, now: real)
    requires WellFormed(s)
    ensures WellFormed(Purged(s, now))
    ensures forall k :: k in Purged(s, now).entries <==> LiveAt(s, k, now)
    ensures forall k :: k in Purged(s, now).entries ==> k in s.entries && Purged(s, now).entries[k] == s.entries[k]
    ensures |Purged(s, now).order| <= |s.order|
    ensures (exists k :: k in s.entries && !LiveAt(s, k, now)) ==> |Purged(s, now).order| < |s.order|
  {
    var gone := Expired(s, s.order, now);
    ExpiredFacts(s, s.order, now);
    RemoveAllFacts(s, gone);
    if k :| k in s.entries && !LiveAt(s, k, now) {
      assert k in gone;
    }
  }

  // ---- Eviction ------------------------------------------------------------

  /** `_evict`, which the cache and the rate-limit backend write alike. */
  method Evict<V>(s: Store<V>, capacity: nat, now: real) returns (r: Store<V>)
    requires WellFormed(s) && 1 <= capacity
    ensures r == Evicted(s, capacity, now)
  {
    var expired: seq<Key> := [];
    for i := 0 to |s.order|
      invariant expired == Expired(s, s.order[..i], now)
    {
      assert s.order[..i + 1][..i] == s.order[..i];
      var k := s.order[i];
      if s.entries[k].expires <= now {
        expired := expired + [k];
      }
    }
    assert s.order[..|s.order|] == s.order;
    r := s;
    for i := 0 to |expired|
      invariant r == RemoveAll(s, expired[..i])
    {
      assert expired[..i + 1][..i] == expired[..i];
      r := Remove(r, expired[i]);
    }
    assert expired[..|expired|] == expired;
    if |r.order| >= capacity {
      r := Remove(r, r.order[0]);
    }
  }

  // ---- Who is dropped -------------------------------------------------------

  /** Storing under `k` throws out the live entry of `victim`. */
  predicate DropsLive<V>(s: Store<V>, capacity: nat, k: Key, now: real, victim: Key)
    requires WellFormed(s)
  {
    && k !in s.entries && |s.order| >= capacity
    && LiveAt(s, victim, now) && victim !in Evicted(s, capacity, now).entries
  }

  lemma EvictedFacts<V>(s: Store<V>, capacity: nat, now: real)
    requires WellFormed(s) && 1 <= capacity
    ensures WellFormed(Evicted(s, capacity, now))
    ensures forall k :: k in Evicted(s, capacity, now).entries ==>
      LiveAt(s, k, now) && Evicted(s, capacity, now).entries[k] == s.entries[k]
    ensures |s.order| <= capacity ==> |Evicted(s, capacity, now).order| < capacity
  {
    PurgedFacts(s, now);
    var p := Purged(s, now);
    if |p.order| >= capacity {
      RemoveFacts(p, p.order[0]);
    }
  }

  lemma InsertFacts<V>(s: Store<V>, capacity: nat, k: Key, e: Entry<V>, now: real)
    requires WellFormed(s) && 1 <= capacity
    ensures WellFormed(Insert(s, capacity, k, e, now))
    ensures |s.order| <= capacity ==> |Insert(s, capacity, k, e, now).order| <= capacity
  {
    EvictedFacts(s, capacity, now);
    var room := if k !in s.entries && |s.order| >= capacity then Evicted(s, capacity, now) else s;
    PutFacts(room, k, e);
  }

  /** Where an entry of the new store comes from. */
  lemma InsertEntries<V>(s: Store<V>, capacity: nat, k: Key, e: Entry<V>, now: real)
    requires WellFormed(s) && 1 <= capacity
    ensures var r := Insert(s, capacity, k, e, now).entries;
      k in r && r[k] == e && forall j :: j in r && j != k ==> j in s.entries && r[j] == s.entries[j]
  {
    EvictedFacts(s, capacity, now);
  }

  /** Storing under another key leaves a live entry alone, unless it throws it out. */
  lemma InsertKeepsLive<V>(s: Store<V>, capacity: nat, k: Key, e: Entry<V>, now: real, other: Key)
    requires WellFormed(s) && 1 <= capacity && other != k && !DropsLive(s, capacity, k, now, other)
    ensures LiveAt(Insert(s, capacity, k, e, now), other, now) <==> LiveAt(s, other, now)
    ensures LiveAt(s, other, now) ==> Insert(s, capacity, k, e, now).entries[other] == s.entries[other]
  {
    EvictedFacts(s, capacity, now);
  }

  /** A live entry is dropped exactly when a new key meets a full store of live entries of which it is the oldest. */
  lemma LiveDropsExactly<V>(s: Store<V>, capacity: nat, k: Key, now: real, victim: Key)
    requires WellFormed(s) && 1 <= capacity && |s.order| <= capacity
    ensures DropsLive(s, capacity, k, now, victim) <==>
      && k !in s.entries && |s.order| == capacity && victim == s.order[0]
      && forall j :: j in s.entries ==> LiveAt(s, j, now)
  {
    PurgedFacts(s, now);
    var p := Purged(s, now);
    if DropsLive(s, capacity, k, now, victim) {
      assert victim in p.entries;
      assert |p.order| >= capacity;
      NothingExpired(s, s.order, now);
    }
    if |s.order| == capacity && victim == s.order[0] && forall j :: j in s.entries ==> LiveAt(s, j, now) {
      NothingExpired(s, s.order, now);
      assert p == s;
      assert victim in s.order;
    }
  }

  lemma {:induction false} NothingExpired<V>(s: Store<V>, keys: seq<Key>, now: real)
    requires forall k :: k in keys ==> k in s.entries && s.entries[k].expires > now
    ensures Expired(s, keys, now) == []
  {
    if keys != [] {
      assert keys[|keys| - 1] in keys;
      NothingExpired(s, keys[..|keys| - 1], now);
    }
  }

  // ---- Against a dictionary that never forgets ------------------------------

  /** An unbounded map with expiry times, in which nothing is ever dropped. */
  type Ledger<V> = map<Key, Entry<V>>

  /** The store still has what the ledger has under `k`, unless it has expired by `now`. */
  predicate Tracks<V(==)>(s: Store<V>, ledger: Ledger<V>, k: Key, now: real) {
    && (k in s.entries ==> k in ledger && s.entries[k] == ledger[k])
    && (k in ledger && k !in s.entries ==> ledger[k].expires <= now)
  }

  lemma InsertTracks<V>(s: Store<V>, ledger: Ledger<V>, k: Key, now: real,
                        capacity: nat, key: Key, e: Entry<V>, later: real)
    requires WellFormed(s) && 1 <= capacity && Tracks(s, ledger, k, now) && now <= later
    requires !DropsLive(s, capacity, key, later, k)
    ensures Tracks(Insert(s, capacity, key, e, later), ledger[key := e], k, later)
  {
    EvictedFacts(s, capacity, later);
  }
}
