/** The in-memory rate-limit backend, against one that never forgets, and what a token bucket admits over a run. */
module RateLimitBackend {
  import opened ExpiringStore
  import opened RateLimits
  import opened Wrappers

  /** One call of the backend; `now` is non-decreasing over a run. */
  datatype Request = Request(key: Key, now: real)

  /** The strategy a key is limited by; it does not change over a run. */
  type Plan = Key -> Strategy

  ghost predicate PlanOk(plan: Plan) {
    forall k :: Valid(plan(k))
  }

  predicate StoreOk(plan: Plan, s: Store<State>) {
    WellFormed(s) && forall k :: k in s.entries ==> Fits(plan(k), s.entries[k].value)
  }

  predicate Usable(st: Strategy, s: Store<State>, k: Key) {
    Valid(st) && WellFormed(s) && (k in s.entries ==> Fits(st, s.entries[k].value))
  }

  /** The live state of a key. */
  function Found(s: Store<State>, k: Key, now: real): Option<State> {
    if LiveAt(s, k, now) then Some(s.entries[k].value) else None
  }

  /** `evaluate` of the backend: the decision, and the store with the new state. */
  function Serve(st: Strategy, s: Store<State>, capacity: nat, r: Request): (Decision, Store<State>)
    requires Usable(st, s, r.key)
  {
    var o := Evaluate(st, Found(s, r.key, r.now), r.now);
    (o.decision, Insert(s, capacity, r.key, Entry(o.next, r.now + o.ttl as real), r.now))
  }

  class InMemoryRateLimitBackend {
    var states: Store<State>
    const maxKeys: nat

    ghost predicate Valid()
      reads this
    {
      1 <= maxKeys && WellFormed(states) && |states.order| <= maxKeys
    }

    constructor (max: nat)
      requires 1 <= max
      ensures Valid() && maxKeys == max && states == Store([], map[])
    {
      states, maxKeys := Store([], map[]), max;
    }

    method Evaluate(key: Key, strategy: Strategy, now: real) returns (r: Decision)
      requires Valid() && Usable(strategy, states, key)
      modifies this
      ensures Valid() && (r, states) == Serve(strategy, old(states), maxKeys, Request(key, now))
    {
      var state: Option<State> := None;
      if key in states.entries && states.entries[key].expires > now {
        state := Some(states.entries[key].value);
      }
      var o := RateLimits.Evaluate(strategy, state, now);
      r := o.decision;
      Persist(key, Entry(o.next, now + o.ttl as real), now);
    }

    /** The end of `evaluate`: room for the new state, and the state. */
    method Persist(key: Key, e: Entry<State>, now: real)
      requires Valid()
      modifies this
      ensures Valid() && states == Insert(old(states), maxKeys, key, e, now)
    {
      InsertFacts(states, maxKeys, key, e, now);
      if key !in states.entries && |states.order| >= maxKeys {
        states := Evict(states, maxKeys, now);
      }
      states := Put(states, key, e);
    }
  }

  // ---- Runs -----------------------------------------------------------------

  lemma InsertFits(plan: Plan, s: Store<State>, capacity: nat, k: Key, e: Entry<State>, now: real)
    requires PlanOk(plan) && StoreOk(plan, s) && 1 <= capacity && |s.order| <= capacity && Fits(plan(k), e.value)
    ensures StoreOk(plan, Insert(s, capacity, k, e, now)) && |Insert(s, capacity, k, e, now).order| <= capacity
  {
    InsertFacts(s, capacity, k, e, now);
    InsertEntries(s, capacity, k, e, now);
  }

  lemma ServeFacts(plan: Plan, s: Store<State>, capacity: nat, r: Request)
    requires PlanOk(plan) && StoreOk(plan, s) && 1 <= capacity && |s.order| <= capacity
    ensures StoreOk(plan, Serve(plan(r.key), s, capacity, r).1)
    ensures |Serve(plan(r.key), s, capacity, r).1.order| <= capacity
  {
    var o := Evaluate(plan(r.key), Found(s, r.key, r.now), r.now);
    InsertFits(plan, s, capacity, r.key, Entry(o.next, r.now + o.ttl as real), r.now);
  }

  /** The store after a run; it never holds more than `capacity` keys. */
  function After(plan: Plan, capacity: nat, reqs: seq<Request>): (s: Store<State>)
    requires PlanOk(plan) && 1 <= capacity
    ensures StoreOk(plan, s) && |s.order| <= capacity
  {
    if reqs == [] then Store([], map[])
    else
      var s, r := After(plan, capacity, reqs[..|reqs| - 1]), reqs[|reqs| - 1];
      ServeFacts(plan, s, capacity, r);
      Serve(plan(r.key), s, capacity, r).1
  }

  /** What the backend answers to the last request of a run. */
  function Decided(plan: Plan, capacity: nat, reqs: seq<Request>): Decision
    requires PlanOk(plan) && 1 <= capacity && reqs != []
  {
    var r := reqs[|reqs| - 1];
    Serve(plan(r.key), After(plan, capacity, reqs[..|reqs| - 1]), capacity, r).0
  }

  predicate LedgerFits(plan: Plan, ledger: Ledger<State>) {
    forall k :: k in ledger ==> Fits(plan(k), ledger[k].value)
  }

  function Prior(ledger: Ledger<State>, k: Key): Option<State> {
    if k in ledger then Some(ledger[k].value) else None
  }

  function Recorded(plan: Plan, ledger: Ledger<State>, r: Request): (o: Outcome)
    requires PlanOk(plan) && LedgerFits(plan, ledger)
    ensures Fits(plan(r.key), o.next)
  {
    Evaluate(plan(r.key), Prior(ledger, r.key), r.now)
  }

  function Noted(plan: Plan, ledger: Ledger<State>, r: Request): (next: Ledger<State>)
    requires PlanOk(plan) && LedgerFits(plan, ledger)
    ensures LedgerFits(plan, next)
  {
    var o := Recorded(plan, ledger, r);
    ledger[r.key := Entry(o.next, r.now + o.ttl as real)]
  }

  /** The states of a backend that never drops or expires one. */
  function Forever(plan: Plan, reqs: seq<Request>): (ledger: Ledger<State>)
    requires PlanOk(plan)
    ensures LedgerFits(plan, ledger)
  {
    if reqs == [] then map[]
    else
      Noted(plan, Forever(plan, reqs[..|reqs| - 1]), reqs[|reqs| - 1])
  }

  /** What that backend answers to the last request. */
  function DecidedForever(plan: Plan, reqs: seq<Request>): Decision
    requires PlanOk(plan) && reqs != []
  {
    Recorded(plan, Forever(plan, reqs[..|reqs| - 1]), reqs[|reqs| - 1]).decision
  }

  predicate Ordered(reqs: seq<Request>) {
    forall i, j :: 0 <= i < j < |reqs| ==> reqs[i].now <= reqs[j].now
  }

  /** No request of the run threw out the live state of `k`. */
  predicate Undisturbed(plan: Plan, capacity: nat, reqs: seq<Request>, k: Key)
    requires PlanOk(plan) && 1 <= capacity
  {
    reqs != [] ==>
      var front, r := reqs[..|reqs| - 1], reqs[|reqs| - 1];
      Undisturbed(plan, capacity, front, k) && !DropsLive(After(plan, capacity, front), capacity, r.key, r.now, k)
  }

  /** When an entry was written. */
  function Stamp(st: Strategy, e: Entry<State>): real
    requires Valid(st) && Fits(st, e.value)
  {
    e.expires - Evaluate(st, None, 0.0).ttl as real
  }

  /** An entry was written at the time its expiry says, and no later than `now`. */
  predicate EntryWritten(st: Strategy, e: Entry<State>, now: real)
    requires Valid(st) && Fits(st, e.value)
  {
    WrittenAt(st, e.value, Stamp(st, e)) && Stamp(st, e) <= now
  }

  /** Every state of the ledger was written at the time its expiry says. */
  predicate LedgerOk(plan: Plan, ledger: Ledger<State>, now: real)
    requires PlanOk(plan) && LedgerFits(plan, ledger)
  {
    forall k :: k in ledger ==> EntryWritten(plan(k), ledger[k], now)
  }

  /** The entry an evaluation stores. */
  lemma FreshWritten(st: Strategy, state: Option<State>, t: real, now: real)
    requires Valid(st) && t <= now && (state.Some? ==> Fits(st, state.value) && WrittenAt(st, state.value, t))
    ensures var o := Evaluate(st, state, now); EntryWritten(st, Entry(o.next, now + o.ttl as real), now)
  {
    TtlFixed(st, state, now, 0.0);
    EvaluateWrites(st, state, t, now);
  }

  lemma RecordOk(plan: Plan, ledger: Ledger<State>, r: Request)
    requires PlanOk(plan) && LedgerFits(plan, ledger) && LedgerOk(plan, ledger, r.now)
    ensures LedgerOk(plan, Noted(plan, ledger, r), r.now)
  {
    var t := if r.key in ledger then Stamp(plan(r.key), ledger[r.key]) else r.now;
    FreshWritten(plan(r.key), Prior(ledger, r.key), t, r.now);
  }

  lemma {:induction false} ForeverOk(plan: Plan, reqs: seq<Request>, now: real)
    requires PlanOk(plan) && Ordered(reqs) && (reqs != [] ==> reqs[|reqs| - 1].now <= now)
    ensures LedgerOk(plan, Forever(plan, reqs), now)
  {
    if reqs != [] {
      var front, r := reqs[..|reqs| - 1], reqs[|reqs| - 1];
      ForeverOk(plan, front, r.now);
      RecordOk(plan, Forever(plan, front), r);
      assert LedgerOk(plan, Forever(plan, reqs), r.now);
    }
  }

  /** A request served from the store is decided, and recorded, as by the ledger. */
  lemma ServedAlike(plan: Plan, s: Store<State>, ledger: Ledger<State>, r: Request, before: real)
    requires PlanOk(plan) && StoreOk(plan, s) && LedgerFits(plan, ledger) && before <= r.now
    requires LedgerOk(plan, ledger, before) && Tracks(s, ledger, r.key, before)
    ensures Recorded(plan, ledger, r) == Evaluate(plan(r.key), Found(s, r.key, r.now), r.now)
  {
    if r.key in ledger && !LiveAt(s, r.key, r.now) {
      var st, e := plan(r.key), ledger[r.key];
      var t := Stamp(st, e);
      TtlFixed(st, None, t, 0.0);
      ExpiredStateForgotten(st, e.value, t, r.now);
    }
  }

  lemma ServeTracks(plan: Plan, s: Store<State>, ledger: Ledger<State>, capacity: nat, r: Request, k: Key)
    requires PlanOk(plan) && StoreOk(plan, s) && 1 <= capacity && LedgerFits(plan, ledger)
    requires LedgerOk(plan, ledger, r.now) && Tracks(s, ledger, k, r.now) && !DropsLive(s, capacity, r.key, r.now, k)
    ensures Tracks(Serve(plan(r.key), s, capacity, r).1, Noted(plan, ledger, r), k, r.now)
  {
    var o := Evaluate(plan(r.key), Found(s, r.key, r.now), r.now);
    var e := Entry(o.next, r.now + o.ttl as real);
    InsertTracks(s, ledger, k, r.now, capacity, r.key, e, r.now);
    if k == r.key {
      ServedAlike(plan, s, ledger, r, r.now);
    }
  }

  lemma {:induction false} RunTracks(plan: Plan, capacity: nat, reqs: seq<Request>, k: Key, now: real)
    requires PlanOk(plan) && 1 <= capacity && Ordered(reqs) && Undisturbed(plan, capacity, reqs, k)
    requires reqs != [] ==> reqs[|reqs| - 1].now <= now
    ensures Tracks(After(plan, capacity, reqs), Forever(plan, reqs), k, now)
  {
    if reqs != [] {
      var front, r := reqs[..|reqs| - 1], reqs[|reqs| - 1];
      RunTracks(plan, capacity, front, k, r.now);
      ForeverOk(plan, front, r.now);
      ServeTracks(plan, After(plan, capacity, front), Forever(plan, front), capacity, r, k);
    }
  }

  /** Expiry never shows: a key that lost no live state is decided as if nothing had ever been forgotten. */
  lemma ExpiryInvisible(plan: Plan, capacity: nat, reqs: seq<Request>)
    requires PlanOk(plan) && 1 <= capacity && reqs != [] && Ordered(reqs)
    requires Undisturbed(plan, capacity, reqs[..|reqs| - 1], reqs[|reqs| - 1].key)
    ensures Decided(plan, capacity, reqs) == DecidedForever(plan, reqs)
  {
    var front, r := reqs[..|reqs| - 1], reqs[|reqs| - 1];
    RunTracks(plan, capacity, front, r.key, r.now);
    ForeverOk(plan, front, r.now);
    ServedAlike(plan, After(plan, capacity, front), Forever(plan, front), r, r.now);
  }

  function OnePerMinute(k: Key): Strategy {
    FixedWindow(1, 60)
  }

  const A := Request("a", 0.0)
  const B := Request("b", 0.0)
  const USED := Entry(Counted(0, 1), 60.0)

  lemma FirstAndSecond()
    ensures Evaluate(FixedWindow(1, 60), None, 0.0)
      == Outcome(Decision(true, 1, 0, 0, 60), Counted(0, 1), 60)
    ensures !Evaluate(FixedWindow(1, 60), Some(Counted(0, 1)), 0.0).decision.allowed
  {
  }

  lemma OneStored()
    ensures After(OnePerMinute, 1, [A]) == Store(["a"], map["a" := USED])
    ensures Forever(OnePerMinute, [A]) == map["a" := USED]
  {
    FirstAndSecond();
    assert [A][..0] == [];
    assert After(OnePerMinute, 1, []) == Store([], map[]) && Forever(OnePerMinute, []) == map[];
  }

  lemma FirstThrownOut()
    ensures "a" !in After(OnePerMinute, 1, [A, B]).entries
    ensures "a" in Forever(OnePerMinute, [A, B]) && Forever(OnePerMinute, [A, B])["a"] == USED
  {
    OneStored();
    assert [A, B][..1] == [A];
    LiveDropsExactly(Store(["a"], map["a" := USED]), 1, "b", 0.0, "a");
  }

  /** One request per window and room for one key: a second client throws out the live state of the first, which is
      then admitted again where a backend that never forgets refuses it. */
  lemma LiveDropForgives()
    ensures Decided(OnePerMinute, 1, [A, B, A]).allowed && !DecidedForever(OnePerMinute, [A, B, A]).allowed
  {
    FirstThrownOut();
    FirstAndSecond();
    assert [A, B, A][..2] == [A, B];
  }

  // ---- What a token bucket admits -------------------------------------------

  /** Requests for `k` admitted by the backend from index `from` on. */
  function Admitted(plan: Plan, capacity: nat, reqs: seq<Request>, k: Key, from: nat): nat
    requires PlanOk(plan) && 1 <= capacity
  {
    if |reqs| <= from then 0
    else
      Admitted(plan, capacity, reqs[..|reqs| - 1], k, from)
      + if reqs[|reqs| - 1].key == k && Decided(plan, capacity, reqs).allowed then 1 else 0
  }

  /** The bucket of `k` at `now`, as the store has it. */
  function Tokens(plan: Plan, capacity: nat, reqs: seq<Request>, k: Key, now: real): real
    requires PlanOk(plan) && 1 <= capacity && plan(k).TokenBucket?
  {
    Level(plan(k), Found(After(plan, capacity, reqs), k, now), now)
  }

  /** Every stored state was written at the time its expiry says. */
  predicate StoreWritten(plan: Plan, s: Store<State>, now: real)
    requires PlanOk(plan) && StoreOk(plan, s)
  {
    forall k :: k in s.entries ==> EntryWritten(plan(k), s.entries[k], now)
  }

  lemma {:induction false} AfterWritten(plan: Plan, capacity: nat, reqs: seq<Request>, now: real)
    requires PlanOk(plan) && 1 <= capacity && Ordered(reqs) && (reqs != [] ==> reqs[|reqs| - 1].now <= now)
    ensures StoreWritten(plan, After(plan, capacity, reqs), now)
  {
    if reqs != [] {
      var front, r := reqs[..|reqs| - 1], reqs[|reqs| - 1];
      AfterWritten(plan, capacity, front, r.now);
      ServeWritten(plan, After(plan, capacity, front), capacity, r);
      WrittenLater(plan, After(plan, capacity, reqs), r.now, now);
    }
  }

  lemma WrittenLater(plan: Plan, s: Store<State>, before: real, now: real)
    requires PlanOk(plan) && StoreOk(plan, s) && StoreWritten(plan, s, before) && before <= now
    ensures StoreWritten(plan, s, now)
  {
  }

  lemma InsertWritten(plan: Plan, s: Store<State>, capacity: nat, k: Key, e: Entry<State>, now: real)
    requires PlanOk(plan) && StoreOk(plan, s) && 1 <= capacity && StoreWritten(plan, s, now)
    requires Fits(plan(k), e.value) && EntryWritten(plan(k), e, now)
    ensures StoreOk(plan, Insert(s, capacity, k, e, now)) && StoreWritten(plan, Insert(s, capacity, k, e, now), now)
  {
    InsertFacts(s, capacity, k, e, now);
    InsertEntries(s, capacity, k, e, now);
  }

  /** What a request stores. */
  lemma EntryServed(plan: Plan, s: Store<State>, capacity: nat, r: Request) returns (e: Entry<State>)
    requires PlanOk(plan) && StoreOk(plan, s) && StoreWritten(plan, s, r.now)
    ensures Fits(plan(r.key), e.value) && EntryWritten(plan(r.key), e, r.now)
    ensures Serve(plan(r.key), s, capacity, r).1 == Insert(s, capacity, r.key, e, r.now)
  {
    var st := plan(r.key);
    var o := Evaluate(st, Found(s, r.key, r.now), r.now);
    e := Entry(o.next, r.now + o.ttl as real);
    if LiveAt(s, r.key, r.now) {
      assert EntryWritten(st, s.entries[r.key], r.now);
      FreshWritten(st, Some(s.entries[r.key].value), Stamp(st, s.entries[r.key]), r.now);
    } else {
      FreshWritten(st, None, r.now, r.now);
    }
  }

  lemma ServeWritten(plan: Plan, s: Store<State>, capacity: nat, r: Request)
    requires PlanOk(plan) && StoreOk(plan, s) && 1 <= capacity && StoreWritten(plan, s, r.now)
    ensures StoreOk(plan, Serve(plan(r.key), s, capacity, r).1)
    ensures StoreWritten(plan, Serve(plan(r.key), s, capacity, r).1, r.now)
  {
    var e := EntryServed(plan, s, capacity, r);
    InsertWritten(plan, s, capacity, r.key, e, r.now);
  }

  lemma TokensInRange(plan: Plan, capacity: nat, reqs: seq<Request>, k: Key, now: real)
    requires PlanOk(plan) && 1 <= capacity && plan(k).TokenBucket? && Ordered(reqs)
    requires reqs != [] ==> reqs[|reqs| - 1].now <= now
    ensures 0.0 <= Tokens(plan, capacity, reqs, k, now) <= plan(k).burst as real
  {
    AfterWritten(plan, capacity, reqs, now);
    LevelRange(plan(k), Found(After(plan, capacity, reqs), k, now), now);
  }

  /** What a bucket gains in some time. */
  function Gain(st: Strategy, elapsed: real): real
    requires Valid(st) && st.TokenBucket?
  {
    Refill(st) * elapsed
  }

  lemma GainAdds(st: Strategy, a: real, b: real)
    requires Valid(st) && st.TokenBucket?
    ensures Gain(st, a + b) == Gain(st, a) + Gain(st, b) && Gain(st, 0.0) == 0.0
    ensures b >= 0.0 ==> Gain(st, b) >= 0.0
  {
    RefillPositive(st);
    var refill := Refill(st);
    assert refill * (a + b) == refill * a + refill * b;
  }

  lemma LevelGrows(st: Strategy, prior: Option<State>, now: real, later: real)
    requires Valid(st) && st.TokenBucket? && (prior.Some? ==> prior.value.Filled?) && now <= later
    ensures Level(st, prior, later) <= Level(st, prior, now) + Gain(st, later - now)
  {
    GainAdds(st, 0.0, later - now);
    if prior.Some? {
      var ts := prior.value.ts;
      GainAdds(st, now - ts, later - now);
      assert (now - ts) + (later - now) == later - ts;
    }
  }

  /** An admitted request takes one token, a refused one none. */
  lemma LevelSpent(st: Strategy, prior: Option<State>, now: real)
    requires Valid(st) && st.TokenBucket? && (prior.Some? ==> prior.value.Filled?)
    requires 0.0 <= Level(st, prior, now) <= st.burst as real
    ensures var o := EvaluateBucket(st, prior, now);
      Level(st, Some(o.next), now) == Level(st, prior, now) - if o.decision.allowed then 1.0 else 0.0
  {
    var o := EvaluateBucket(st, prior, now);
    assert (now - now) * Refill(st) == 0.0;
    assert Level(st, Some(o.next), now) == Min(st.burst as real, o.next.tokens);
  }

  /** A state just written is live. */
  lemma TtlPositive(st: Strategy, state: Option<State>, now: real)
    requires Valid(st) && st.TokenBucket? && (state.Some? ==> state.value.Filled?)
    ensures Evaluate(st, state, now).ttl >= 1
  {
    RefillPositive(st);
    NonNegativeQuotient(st.burst as real, Refill(st));
    CeilAbove(st.burst as real / Refill(st));
  }

  lemma NonNegativeQuotient(a: real, b: real)
    requires a >= 0.0 && b > 0.0
    ensures a / b >= 0.0
  {
  }

  /** Serving a request takes one token from the bucket of its key when it is admitted. */
  lemma TokensSpent(plan: Plan, capacity: nat, reqs: seq<Request>)
    requires PlanOk(plan) && 1 <= capacity && reqs != [] && Ordered(reqs) && plan(reqs[|reqs| - 1].key).TokenBucket?
    ensures var front, r := reqs[..|reqs| - 1], reqs[|reqs| - 1];
      Tokens(plan, capacity, reqs, r.key, r.now) == Tokens(plan, capacity, front, r.key, r.now)
        - if Decided(plan, capacity, reqs).allowed then 1.0 else 0.0
  {
    var front, r := reqs[..|reqs| - 1], reqs[|reqs| - 1];
    var s := After(plan, capacity, front);
    var prior := Found(s, r.key, r.now);
    TokensInRange(plan, capacity, front, r.key, r.now);
    LevelSpent(plan(r.key), prior, r.now);
    TtlPositive(plan(r.key), prior, r.now);
    assert Found(After(plan, capacity, reqs), r.key, r.now) == Some(EvaluateBucket(plan(r.key), prior, r.now).next);
  }

  /** Serving another key takes nothing, unless it throws out the live bucket. */
  lemma TokensUntouched(plan: Plan, capacity: nat, reqs: seq<Request>, k: Key)
    requires PlanOk(plan) && 1 <= capacity && reqs != [] && plan(k).TokenBucket? && k != reqs[|reqs| - 1].key
    requires var r := reqs[|reqs| - 1]; !DropsLive(After(plan, capacity, reqs[..|reqs| - 1]), capacity, r.key, r.now, k)
    ensures var now := reqs[|reqs| - 1].now;
      Tokens(plan, capacity, reqs, k, now) == Tokens(plan, capacity, reqs[..|reqs| - 1], k, now)
  {
    var s, r := After(plan, capacity, reqs[..|reqs| - 1]), reqs[|reqs| - 1];
    var o := Evaluate(plan(r.key), Found(s, r.key, r.now), r.now);
    InsertKeepsLive(s, capacity, r.key, Entry(o.next, r.now + o.ttl as real), r.now, k);
  }

  /** No request behind index `from` throws out the live state of `k`. */
  predicate KeptSince(plan: Plan, capacity: nat, reqs: seq<Request>, k: Key, from: nat)
    requires PlanOk(plan) && 1 <= capacity
  {
    |reqs| > from + 1 ==>
      var front, r := reqs[..|reqs| - 1], reqs[|reqs| - 1];
      KeptSince(plan, capacity, front, k, from) && !DropsLive(After(plan, capacity, front), capacity, r.key, r.now, k)
  }

  /** Admitted requests plus tokens left, less what was gained since `start`. */
  function Potential(plan: Plan, capacity: nat, reqs: seq<Request>, k: Key, from: nat, start: real, now: real): real
    requires PlanOk(plan) && plan(k).TokenBucket? && 1 <= capacity
  {
    Admitted(plan, capacity, reqs, k, from) as real
    + (Tokens(plan, capacity, reqs, k, now) - Gain(plan(k), now - start))
  }

  /** Waiting gains at most the refill of the time waited, whether or not the state expires meanwhile. */
  lemma BucketGrows(plan: Plan, s: Store<State>, k: Key, before: real, now: real)
    requires PlanOk(plan) && StoreOk(plan, s) && plan(k).TokenBucket? && before <= now && StoreWritten(plan, s, before)
    ensures Level(plan(k), Found(s, k, now), now)
      <= Level(plan(k), Found(s, k, before), before) + Gain(plan(k), now - before)
  {
    LevelGrows(plan(k), Found(s, k, before), before, now);
    if LiveAt(s, k, before) && !LiveAt(s, k, now) {
      var st, e := plan(k), s.entries[k];
      var t := Stamp(st, e);
      BucketRefilled(st, e.value, t, now);
    }
  }

  lemma GainSince(st: Strategy, start: real, before: real, now: real)
    requires Valid(st) && st.TokenBucket?
    ensures Gain(st, now - start) == Gain(st, before - start) + Gain(st, now - before)
  {
    GainAdds(st, before - start, now - before);
    assert (before - start) + (now - before) == now - start;
  }

  /** Time passing only lowers the potential. */
  lemma PotentialFalls(plan: Plan, capacity: nat, reqs: seq<Request>, k: Key, from: nat,
                       start: real, before: real, now: real)
    requires PlanOk(plan) && plan(k).TokenBucket? && 1 <= capacity && before <= now && Ordered(reqs)
    requires reqs != [] ==> reqs[|reqs| - 1].now <= before
    ensures Potential(plan, capacity, reqs, k, from, start, now)
      <= Potential(plan, capacity, reqs, k, from, start, before)
  {
    AfterWritten(plan, capacity, reqs, before);
    BucketGrows(plan, After(plan, capacity, reqs), k, before, now);
    GainSince(plan(k), start, before, now);
  }

  /** Serving a request leaves it alone. */
  lemma PotentialKept(plan: Plan, capacity: nat, reqs: seq<Request>, k: Key, from: nat, start: real, now: real)
    requires PlanOk(plan) && plan(k).TokenBucket? && 1 <= capacity && from < |reqs|
    requires Ordered(reqs) && now == reqs[|reqs| - 1].now
    requires reqs[|reqs| - 1].key == k
      || !DropsLive(After(plan, capacity, reqs[..|reqs| - 1]), capacity, reqs[|reqs| - 1].key, now, k)
    ensures Potential(plan, capacity, reqs, k, from, start, now)
      == Potential(plan, capacity, reqs[..|reqs| - 1], k, from, start, now)
  {
    if reqs[|reqs| - 1].key == k {
      TokensSpent(plan, capacity, reqs);
    } else {
      TokensUntouched(plan, capacity, reqs, k);
    }
  }

  lemma PotentialStart(plan: Plan, capacity: nat, reqs: seq<Request>, k: Key, now: real)
    requires PlanOk(plan) && plan(k).TokenBucket? && 1 <= capacity && Ordered(reqs)
    requires reqs != [] ==> reqs[|reqs| - 1].now <= now
    ensures Potential(plan, capacity, reqs, k, |reqs|, now, now) <= plan(k).burst as real
  {
    TokensInRange(plan, capacity, reqs, k, now);
    GainAdds(plan(k), 0.0, 0.0);
    assert now - now == 0.0;
  }

  /** The first request of a stretch; it may itself have thrown out the bucket of another key. */
  lemma PotentialFirst(plan: Plan, capacity: nat, reqs: seq<Request>, k: Key, now: real)
    requires PlanOk(plan) && plan(k).TokenBucket? && 1 <= capacity && Ordered(reqs)
    requires reqs != [] && now == reqs[|reqs| - 1].now
    ensures Potential(plan, capacity, reqs, k, |reqs| - 1, now, now) <= plan(k).burst as real
  {
    if reqs[|reqs| - 1].key == k {
      PotentialKept(plan, capacity, reqs, k, |reqs| - 1, now, now);
      PotentialStart(plan, capacity, reqs[..|reqs| - 1], k, now);
    } else {
      PotentialStart(plan, capacity, reqs, k, now);
      SamePotential(plan, capacity, reqs, k, |reqs| - 1, |reqs|, now, now);
    }
  }

  lemma SamePotential(plan: Plan, capacity: nat, reqs: seq<Request>, k: Key, a: nat, b: nat, start: real, now: real)
    requires PlanOk(plan) && plan(k).TokenBucket? && 1 <= capacity
    requires Admitted(plan, capacity, reqs, k, a) == Admitted(plan, capacity, reqs, k, b)
    ensures Potential(plan, capacity, reqs, k, a, start, now) == Potential(plan, capacity, reqs, k, b, start, now)
  {
  }

  lemma {:induction false} PotentialBounded(plan: Plan, capacity: nat, reqs: seq<Request>, k: Key, from: nat,
                                            start: real, now: real)
    requires PlanOk(plan) && plan(k).TokenBucket? && 1 <= capacity && from < |reqs|
    requires Ordered(reqs) && KeptSince(plan, capacity, reqs, k, from)
    requires start == reqs[from].now && now == reqs[|reqs| - 1].now
    ensures Potential(plan, capacity, reqs, k, from, start, now) <= plan(k).burst as real
  {
    if from == |reqs| - 1 {
      PotentialFirst(plan, capacity, reqs, k, now);
    } else {
      var front := reqs[..|reqs| - 1];
      var before := front[|front| - 1].now;
      PotentialKept(plan, capacity, reqs, k, from, start, now);
      PotentialBounded(plan, capacity, front, k, from, start, before);
      PotentialFalls(plan, capacity, front, k, from, start, before, now);
    }
  }

  /**
    * Over every stretch of every run in which no live state of the key is thrown out behind its first request:
    * at most the burst, plus the refill of the time it took.
    */
  lemma TokenBucketBound(plan: Plan, capacity: nat, reqs: seq<Request>, k: Key, from: nat)
    requires PlanOk(plan) && plan(k).TokenBucket? && 1 <= capacity && from < |reqs|
    requires Ordered(reqs) && KeptSince(plan, capacity, reqs, k, from)
    ensures Admitted(plan, capacity, reqs, k, from) as real
      <= plan(k).burst as real + Gain(plan(k), reqs[|reqs| - 1].now - reqs[from].now)
  {
    PotentialBounded(plan, capacity, reqs, k, from, reqs[from].now, reqs[|reqs| - 1].now);
    TokensInRange(plan, capacity, reqs, k, reqs[|reqs| - 1].now);
  }
}
