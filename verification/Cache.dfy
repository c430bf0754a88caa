/** The in-memory result cache, against an unbounded map with expiry times. */
module Cache {
  import opened ExpiringStore
  import opened Wrappers

  type Value = seq<int>

  /** `get`: the answer, and the store after the lazy removal of an expired entry. */
  function Get(s: Store<Value>, k: Key, now: real): (Option<Value>, Store<Value>) {
    if k !in s.entries then (None, s)
    else if s.entries[k].expires <= now then (None, Remove(s, k))
    else (Some(s.entries[k].value), s)
  }

  class InMemoryCache {
    var entries: Store<Value>
    const maxEntries: nat

    ghost predicate Valid()
      reads this
    {
      1 <= maxEntries && WellFormed(entries) && |entries.order| <= maxEntries
    }

    constructor (max: nat)
      requires 1 <= max
      ensures Valid() && maxEntries == max && entries == Store([], map[])
    {
      entries, maxEntries := Store([], map[]), max;
    }

    method Lookup(key: Key, now: real) returns (r: Option<Value>)
      requires Valid()
      modifies this
      ensures Valid() && (r, entries) == Get(old(entries), key, now)
    {
      if key !in entries.entries { return None; }
      var entry := entries.entries[key];
      if entry.expires <= now {
        RemoveFacts(entries, key);
        entries := Remove(entries, key);
        return None;
      }
      return Some(entry.value);
    }

    /** `set`; the clock is read once for an eviction and once for the expiry. */
    method Set(key: Key, value: Value, ttl: int, evictAt: real, now: real)
      requires Valid()
      modifies this
      ensures Valid() && entries == Insert(old(entries), maxEntries, key, Entry(value, now + ttl as real), evictAt)
    {
      InsertFacts(entries, maxEntries, key, Entry(value, now + ttl as real), evictAt);
      if key !in entries.entries && |entries.order| >= maxEntries {
        entries := Evict(entries, maxEntries, evictAt);
      }
      entries := Put(entries, key, Entry(value, now + ttl as real));
    }

    method Delete(key: Key)
      requires Valid()
      modifies this
      ensures Valid() && entries == Remove(old(entries), key)
    {
      RemoveFacts(entries, key);
      entries := Remove(entries, key);
    }
  }

  // ---- Runs -----------------------------------------------------------------

  datatype Op =
    | Ask(key: Key, now: real)
    | Keep(key: Key, value: Value, ttl: int, evictAt: real, now: real)
    | Forget(key: Key)

  function Apply(s: Store<Value>, capacity: nat, op: Op): Store<Value>
    requires WellFormed(s)
  {
    match op
    case Ask(k, now) => Get(s, k, now).1
    case Keep(k, v, ttl, evictAt, now) => Insert(s, capacity, k, Entry(v, now + ttl as real), evictAt)
    case Forget(k) => Remove(s, k)
  }

  lemma ApplyFacts(s: Store<Value>, capacity: nat, op: Op)
    requires WellFormed(s) && 1 <= capacity && |s.order| <= capacity
    ensures WellFormed(Apply(s, capacity, op)) && |Apply(s, capacity, op).order| <= capacity
  {
    match op
    case Ask(k, now) => RemoveFacts(s, k);
    case Keep(k, v, ttl, evictAt, now) => InsertFacts(s, capacity, k, Entry(v, now + ttl as real), evictAt);
    case Forget(k) => RemoveFacts(s, k);
  }

  /** The store after a run; it never outgrows its capacity. */
  function After(capacity: nat, ops: seq<Op>): (s: Store<Value>)
    requires 1 <= capacity
    ensures WellFormed(s) && |s.order| <= capacity
  {
    if ops == [] then Store([], map[])
    else
      var s := After(capacity, ops[..|ops| - 1]);
      ApplyFacts(s, capacity, ops[|ops| - 1]);
      Apply(s, capacity, ops[|ops| - 1])
  }

  /** What an unbounded map would hold. */
  function LedgerAfter(ops: seq<Op>): Ledger<Value> {
    if ops == [] then map[]
    else
      var ledger := LedgerAfter(ops[..|ops| - 1]);
      match ops[|ops| - 1]
      case Ask(_, _) => ledger
      case Keep(k, v, ttl, _, now) => ledger[k := Entry(v, now + ttl as real)]
      case Forget(k) => ledger - {k}
  }

  function LedgerGet(ledger: Ledger<Value>, k: Key, now: real): Option<Value> {
    if k in ledger && ledger[k].expires > now then Some(ledger[k].value) else None
  }

  /** When an operation begins, and when it ends. */
  function Begins(op: Op, last: real): real {
    match op
    case Ask(_, now) => now
    case Keep(_, _, _, evictAt, _) => evictAt
    case Forget(_) => last
  }

  function Ends(op: Op, last: real): real {
    match op
    case Ask(_, now) => now
    case Keep(_, _, _, _, now) => now
    case Forget(_) => last
  }

  /** The clock reading of the last operation. */
  function Clock(ops: seq<Op>): real {
    if ops == [] then 0.0 else Ends(ops[|ops| - 1], Clock(ops[..|ops| - 1]))
  }

  /** The monotonic clock never runs backwards. */
  predicate Ordered(ops: seq<Op>) {
    ops != [] ==>
      var before, op := Clock(ops[..|ops| - 1]), ops[|ops| - 1];
      Ordered(ops[..|ops| - 1]) && before <= Begins(op, before) <= Ends(op, before)
  }

  /** No operation of the run threw out a live entry of `k`. */
  predicate Undisturbed(capacity: nat, ops: seq<Op>, k: Key)
    requires 1 <= capacity
  {
    ops != [] ==>
      var s, op := After(capacity, ops[..|ops| - 1]), ops[|ops| - 1];
      Undisturbed(capacity, ops[..|ops| - 1], k)
      && (op.Keep? ==> !DropsLive(s, capacity, op.key, op.evictAt, k))
  }

  lemma {:induction false} RunTracks(capacity: nat, ops: seq<Op>, k: Key)
    requires 1 <= capacity && Ordered(ops) && Undisturbed(capacity, ops, k)
    ensures Tracks(After(capacity, ops), LedgerAfter(ops), k, Clock(ops))
  {
    if ops != [] {
      var front, op := ops[..|ops| - 1], ops[|ops| - 1];
      var s, ledger := After(capacity, front), LedgerAfter(front);
      RunTracks(capacity, front, k);
      match op
      case Ask(key, now) =>
      case Keep(key, v, ttl, evictAt, now) =>
        InsertTracks(s, ledger, k, Clock(front), capacity, key, Entry(v, now + ttl as real), evictAt);
      case Forget(key) =>
    }
  }

  /** The bounded cache answers as an unbounded map would, for every key it did not have to drop while live. */
  lemma CacheAgrees(capacity: nat, ops: seq<Op>, k: Key, now: real)
    requires 1 <= capacity && Ordered(ops) && Undisturbed(capacity, ops, k) && Clock(ops) <= now
    ensures Get(After(capacity, ops), k, now).0 == LedgerGet(LedgerAfter(ops), k, now)
  {
    RunTracks(capacity, ops, k);
  }
}
