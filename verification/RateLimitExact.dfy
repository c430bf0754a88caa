/** Exactly which requests the backend admits over a run, read off the earlier requests alone. */
module RateLimitExact {
  import opened ExpiringStore
  import opened RateLimitBackend
  import opened RateLimitBounds
  import opened RateLimits
  import opened Wrappers

  // ---- Aligned windows ------------------------------------------------------

  /** `now` falls in the aligned window number `window`. */
  predicate Falls(now: real, width: nat, window: int) {
    (window * width) as real <= now < ((window + 1) * width) as real
  }

  lemma FallsExactly(now: real, width: nat, window: int)
    requires width >= 1
    ensures WindowOf(now, width) == window <==> Falls(now, width, window)
  {
    var q, lo, hi := now / width as real, (window * width) as real, ((window + 1) * width) as real;
    QuotientOfProduct(now, width as real);
    RealProduct(window, width);
    RealProduct(window + 1, width);
    Between(lo, hi, window as real, (window + 1) as real, q, now, width as real);
    FloorIs(q, window);
    assert Falls(now, width, window) <==> lo <= now < hi;
  }

  lemma Between(lo: real, hi: real, a: real, b: real, q: real, now: real, w: real)
    requires w > 0.0 && lo == a * w && hi == b * w && now == q * w
    ensures lo <= now < hi <==> a <= q < b
  {
    Scaled(a, q, w);
    Scaled(b, q, w);
  }

  lemma FloorIs(q: real, n: int)
    ensures q.Floor == n <==> n as real <= q < (n + 1) as real
  {
  }

  lemma RealProduct(a: int, width: nat)
    ensures (a * width) as real == a as real * width as real
  {
  }

  lemma Scaled(a: real, b: real, w: real)
    requires w > 0.0
    ensures a * w <= b * w <==> a <= b
  {
    if a <= b {
      Product(b - a, w);
      Spread(b, a, w);
    } else {
      PositiveProduct(a - b, w);
      Spread(a, b, w);
    }
  }

  lemma Spread(a: real, b: real, w: real)
    ensures (a - b) * w == a * w - b * w
  {
  }

  lemma PositiveProduct(a: real, b: real)
    requires a > 0.0 && b > 0.0
    ensures a * b > 0.0
  {
  }

  /** Requests for `k` in one aligned window, admitted or not. */
  function CountIn(reqs: seq<Request>, k: Key, width: nat, window: int): nat {
    if reqs == [] then 0
    else
      var r := reqs[|reqs| - 1];
      CountIn(reqs[..|reqs| - 1], k, width, window) + if r.key == k && Falls(r.now, width, window) then 1 else 0
  }

  // ---- A backend that never forgets -----------------------------------------

  /** What the ledger has of a key under a fixed window, from the window of its last request on. */
  lemma {:induction false} FixedLedger(plan: Plan, reqs: seq<Request>, k: Key, window: int)
    requires PlanOk(plan) && plan(k).FixedWindow? && Ordered(reqs)
    requires reqs != [] ==> WindowOf(reqs[|reqs| - 1].now, plan(k).window) <= window
    ensures UsedIn(Prior(Forever(plan, reqs), k), window) == CountIn(reqs, k, plan(k).window, window)
    ensures var s := Prior(Forever(plan, reqs), k); s.Some? ==> s.value.window <= window
  {
    if reqs != [] {
      var front, r := reqs[..|reqs| - 1], reqs[|reqs| - 1];
      var width := plan(k).window;
      var own := WindowOf(r.now, width);
      if front != [] {
        WindowsInOrder(front[|front| - 1].now, r.now, width);
      }
      FixedLedger(plan, front, k, window);
      FixedLedger(plan, front, k, own);
      FallsExactly(r.now, width, window);
      if r.key == k {
        CountStep(plan(k), Prior(Forever(plan, front), k), r.now);
        FixedNext(plan(k), Prior(Forever(plan, front), k), r.now);
      }
    }
  }

  lemma FixedNext(st: Strategy, state: Option<State>, now: real)
    requires Valid(st) && st.FixedWindow? && (state.Some? ==> Fits(st, state.value))
    ensures var o, n := Evaluate(st, state, now), UsedIn(state, WindowOf(now, st.window));
      && o.next == Counted(WindowOf(now, st.window), n + 1)
      && (o.decision.allowed <==> n < st.limit)
      && o.decision.remaining == (if n < st.limit then st.limit - n - 1 else 0)
  {
  }

  /** Requests for `k` admitted by a backend that never forgets, from index `from` on. */
  function Taken(plan: Plan, reqs: seq<Request>, k: Key, from: nat): nat
    requires PlanOk(plan)
  {
    if |reqs| <= from then 0
    else
      Taken(plan, reqs[..|reqs| - 1], k, from)
      + if reqs[|reqs| - 1].key == k && DecidedForever(plan, reqs).allowed then 1 else 0
  }

  /** The same in one aligned window. */
  function TakenIn(plan: Plan, reqs: seq<Request>, k: Key, window: int): nat
    requires PlanOk(plan) && !plan(k).TokenBucket?
  {
    if reqs == [] then 0
    else
      TakenIn(plan, reqs[..|reqs| - 1], k, window)
      + if InWindow(plan, reqs[|reqs| - 1], k, window) && DecidedForever(plan, reqs).allowed then 1 else 0
  }

  /** `a` admissions a window ago, of which `into` is out of view, and `b` in this one: below the limit. */
  predicate Below(a: nat, b: nat, into: real, limit: nat) {
    a as real * (1.0 - into) + b as real < limit as real
  }

  lemma SlidingNext(st: Strategy, state: Option<State>, now: real)
    requires Valid(st) && st.SlidingWindow? && (state.Some? ==> state.value.Weighted?)
    ensures var o, w := EvaluateSliding(st, state, now), WindowOf(now, st.window);
      var (a, b) := Carried(state, w);
      && o.next == Weighted(w, a, if o.decision.allowed then b + 1 else b)
      && o.decision.allowed == Below(a, b, Fraction(now, st.window), st.limit)
  {
  }

  /** A state holds the admissions of its own window and of the one before, and there are none behind it. */
  ghost predicate Remembers(plan: Plan, reqs: seq<Request>, k: Key, s: Option<State>)
    requires PlanOk(plan) && plan(k).SlidingWindow? && (s.Some? ==> s.value.Weighted?)
  {
    && (s.None? ==> forall v :: TakenIn(plan, reqs, k, v) == 0)
    && (s.Some? ==>
          && s.value.prev == TakenIn(plan, reqs, k, s.value.window - 1)
          && s.value.curr == TakenIn(plan, reqs, k, s.value.window)
          && forall v :: s.value.window < v ==> TakenIn(plan, reqs, k, v) == 0)
  }

  lemma CarriedIs(plan: Plan, reqs: seq<Request>, k: Key, s: Option<State>, window: int)
    requires PlanOk(plan) && plan(k).SlidingWindow? && (s.Some? ==> s.value.Weighted? && s.value.window <= window)
    requires Remembers(plan, reqs, k, s)
    ensures Carried(s, window) == (TakenIn(plan, reqs, k, window - 1), TakenIn(plan, reqs, k, window))
  {
  }

  lemma TakenInNext(plan: Plan, reqs: seq<Request>, k: Key, window: int)
    requires PlanOk(plan) && !plan(k).TokenBucket? && reqs != []
    ensures var front, r := reqs[..|reqs| - 1], reqs[|reqs| - 1];
      TakenIn(plan, reqs, k, window) == TakenIn(plan, front, k, window)
        + if r.key == k && WindowOf(r.now, plan(k).window) == window && DecidedForever(plan, reqs).allowed then 1 else 0
  {
  }

  /** Serving the key: the new state remembers one more. */
  lemma NextRemembers(plan: Plan, reqs: seq<Request>, s: Option<State>)
    requires PlanOk(plan) && reqs != [] && plan(reqs[|reqs| - 1].key).SlidingWindow?
    requires s == Prior(Forever(plan, reqs[..|reqs| - 1]), reqs[|reqs| - 1].key) && (s.Some? ==> s.value.Weighted?)
    requires Remembers(plan, reqs[..|reqs| - 1], reqs[|reqs| - 1].key, s)
    requires var r := reqs[|reqs| - 1]; s.Some? ==> s.value.window <= WindowOf(r.now, plan(r.key).window)
    ensures var r := reqs[|reqs| - 1];
      Remembers(plan, reqs, r.key, Some(EvaluateSliding(plan(r.key), s, r.now).next))
  {
    var front, r := reqs[..|reqs| - 1], reqs[|reqs| - 1];
    var own := WindowOf(r.now, plan(r.key).window);
    var o := EvaluateSliding(plan(r.key), s, r.now);
    assert DecidedForever(plan, reqs) == o.decision;
    CarriedIs(plan, front, r.key, s, own);
    SlidingNext(plan(r.key), s, r.now);
    TakenInNext(plan, reqs, r.key, own);
    TakenInNext(plan, reqs, r.key, own - 1);
    forall v | own < v
      ensures TakenIn(plan, reqs, r.key, v) == 0
    {
      TakenInNext(plan, reqs, r.key, v);
    }
  }

  lemma OtherRemembers(plan: Plan, reqs: seq<Request>, k: Key, s: Option<State>)
    requires PlanOk(plan) && plan(k).SlidingWindow? && reqs != [] && reqs[|reqs| - 1].key != k
    requires (s.Some? ==> s.value.Weighted?) && Remembers(plan, reqs[..|reqs| - 1], k, s)
    ensures Remembers(plan, reqs, k, s)
  {
    forall v
      ensures TakenIn(plan, reqs, k, v) == TakenIn(plan, reqs[..|reqs| - 1], k, v)
    {
      TakenInNext(plan, reqs, k, v);
    }
  }

  lemma ForeverNext(plan: Plan, reqs: seq<Request>, k: Key)
    requires PlanOk(plan) && reqs != []
    ensures var front, r := reqs[..|reqs| - 1], reqs[|reqs| - 1];
      Prior(Forever(plan, reqs), k) == if r.key == k then Some(Recorded(plan, Forever(plan, front), r).next)
                                       else Prior(Forever(plan, front), k)
  {
  }

  /** What the ledger has of a key under a sliding window. */
  lemma {:induction false} SlidingLedger(plan: Plan, reqs: seq<Request>, k: Key, window: int)
    requires PlanOk(plan) && plan(k).SlidingWindow? && Ordered(reqs)
    requires reqs != [] ==> WindowOf(reqs[|reqs| - 1].now, plan(k).window) <= window
    ensures var s := Prior(Forever(plan, reqs), k);
      (s.Some? ==> s.value.Weighted? && s.value.window <= window) && Remembers(plan, reqs, k, s)
  {
    if reqs != [] {
      var front, r := reqs[..|reqs| - 1], reqs[|reqs| - 1];
      var own := WindowOf(r.now, plan(k).window);
      if front != [] {
        WindowsInOrder(front[|front| - 1].now, r.now, plan(k).window);
      }
      SlidingLedger(plan, front, k, own);
      ForeverNext(plan, reqs, k);
      var s := Prior(Forever(plan, front), k);
      if r.key == k {
        NextRemembers(plan, reqs, s);
        SlidingNext(plan(k), s, r.now);
      } else {
        OtherRemembers(plan, reqs, k, s);
      }
    }
  }

  // ---- The backend, for a key that lost no live state -----------------------

  lemma {:induction false} SameTakenIn(plan: Plan, capacity: nat, reqs: seq<Request>, k: Key, window: int)
    requires PlanOk(plan) && !plan(k).TokenBucket? && 1 <= capacity && Ordered(reqs)
    requires Undisturbed(plan, capacity, reqs, k)
    ensures AdmittedIn(plan, capacity, reqs, k, 0, window) == TakenIn(plan, reqs, k, window)
  {
    if reqs != [] {
      SameTakenIn(plan, capacity, reqs[..|reqs| - 1], k, window);
      if reqs[|reqs| - 1].key == k {
        ExpiryInvisible(plan, capacity, reqs);
      }
    }
  }

  lemma {:induction false} SameTaken(plan: Plan, capacity: nat, reqs: seq<Request>, k: Key, from: nat)
    requires PlanOk(plan) && 1 <= capacity && Ordered(reqs) && Undisturbed(plan, capacity, reqs, k)
    ensures Admitted(plan, capacity, reqs, k, from) == Taken(plan, reqs, k, from)
  {
    if |reqs| > from {
      SameTaken(plan, capacity, reqs[..|reqs| - 1], k, from);
      if reqs[|reqs| - 1].key == k {
        ExpiryInvisible(plan, capacity, reqs);
      }
    }
  }

  lemma WindowOfLast(reqs: seq<Request>, width: nat)
    requires width >= 1 && |reqs| >= 2 && Ordered(reqs)
    ensures WindowOf(reqs[|reqs| - 2].now, width) <= WindowOf(reqs[|reqs| - 1].now, width)
  {
    WindowsInOrder(reqs[|reqs| - 2].now, reqs[|reqs| - 1].now, width);
  }

  /** What a fixed window answers when `before` earlier requests fall in the window of the last one. */
  predicate CountedOut(d: Decision, limit: nat, before: nat) {
    && (d.allowed <==> before < limit)
    && d.remaining == (if before < limit then limit - before - 1 else 0)
  }

  lemma FixedForever(plan: Plan, reqs: seq<Request>, window: int)
    requires PlanOk(plan) && reqs != [] && Ordered(reqs) && plan(reqs[|reqs| - 1].key).FixedWindow?
    requires Falls(reqs[|reqs| - 1].now, plan(reqs[|reqs| - 1].key).window, window)
    ensures var front, r := reqs[..|reqs| - 1], reqs[|reqs| - 1];
      var st := plan(r.key);
      CountedOut(DecidedForever(plan, reqs), st.limit, CountIn(front, r.key, st.window, window))
  {
    var front, r := reqs[..|reqs| - 1], reqs[|reqs| - 1];
    FallsExactly(r.now, plan(r.key).window, window);
    if front != [] {
      WindowOfLast(reqs, plan(r.key).window);
    }
    FixedLedger(plan, front, r.key, window);
    FixedNext(plan(r.key), Prior(Forever(plan, front), r.key), r.now);
  }

  /** A fixed window admits a request exactly when fewer than the limit came before it in its aligned window, refused
      ones included, and reports how many more it would admit there. */
  lemma FixedExact(plan: Plan, capacity: nat, reqs: seq<Request>, window: int)
    requires PlanOk(plan) && 1 <= capacity && reqs != [] && Ordered(reqs)
    requires plan(reqs[|reqs| - 1].key).FixedWindow?
    requires Undisturbed(plan, capacity, reqs[..|reqs| - 1], reqs[|reqs| - 1].key)
    requires Falls(reqs[|reqs| - 1].now, plan(reqs[|reqs| - 1].key).window, window)
    ensures var front, r := reqs[..|reqs| - 1], reqs[|reqs| - 1];
      var st := plan(r.key);
      CountedOut(Decided(plan, capacity, reqs), st.limit, CountIn(front, r.key, st.window, window))
  {
    ExpiryInvisible(plan, capacity, reqs);
    FixedForever(plan, reqs, window);
  }

  /** How far into an aligned window a moment is, from 0 to 1. */
  function Into(now: real, width: nat, window: int): real
    requires width >= 1
  {
    (now - (window * width) as real) / width as real
  }

  lemma FractionIs(now: real, width: nat, window: int)
    requires width >= 1 && Falls(now, width, window)
    ensures Fraction(now, width) == Into(now, width, window)
  {
    FallsExactly(now, width, window);
    RealProduct(window, width);
  }

  lemma BelowAlike(a: nat, a': nat, b: nat, b': nat, x: real, x': real, limit: nat)
    requires a == a' && b == b' && x == x'
    ensures Below(a, b, x, limit) == Below(a', b', x', limit)
  {
  }

  lemma SlidingDecided(st: Strategy, state: Option<State>, now: real, a: nat, b: nat)
    requires Valid(st) && st.SlidingWindow? && (state.Some? ==> state.value.Weighted?)
    requires Carried(state, WindowOf(now, st.window)) == (a, b)
    ensures Evaluate(st, state, now).decision.allowed == Below(a, b, Fraction(now, st.window), st.limit)
  {
    calc {
      Evaluate(st, state, now).decision.allowed;
    ==
      EvaluateSliding(st, state, now).decision.allowed;
    == { SlidingNext(st, state, now); }
      Below(a, b, Fraction(now, st.window), st.limit);
    }
  }

  lemma SlidingForever(plan: Plan, reqs: seq<Request>, window: int)
    requires PlanOk(plan) && reqs != [] && Ordered(reqs) && plan(reqs[|reqs| - 1].key).SlidingWindow?
    requires Falls(reqs[|reqs| - 1].now, plan(reqs[|reqs| - 1].key).window, window)
    ensures var front, r := reqs[..|reqs| - 1], reqs[|reqs| - 1];
      var st := plan(r.key);
      DecidedForever(plan, reqs).allowed
        == Below(TakenIn(plan, front, r.key, window - 1), TakenIn(plan, front, r.key, window),
                 Into(r.now, st.window, window), st.limit)
  {
    var front, r := reqs[..|reqs| - 1], reqs[|reqs| - 1];
    var st := plan(r.key);
    FallsExactly(r.now, st.window, window);
    FractionIs(r.now, st.window, window);
    if front != [] {
      WindowOfLast(reqs, st.window);
    }
    SlidingLedger(plan, front, r.key, window);
    var s := Prior(Forever(plan, front), r.key);
    CarriedIs(plan, front, r.key, s, window);
    SlidingDecided(st, s, r.now, TakenIn(plan, front, r.key, window - 1), TakenIn(plan, front, r.key, window));
  }

  /** A sliding window admits a request exactly when the admissions of the window before, weighted by how much of it is
      still in view, and those of its own window are together below the limit. */
  lemma SlidingExact(plan: Plan, capacity: nat, reqs: seq<Request>, window: int)
    requires PlanOk(plan) && 1 <= capacity && reqs != [] && Ordered(reqs)
    requires plan(reqs[|reqs| - 1].key).SlidingWindow?
    requires Undisturbed(plan, capacity, reqs[..|reqs| - 1], reqs[|reqs| - 1].key)
    requires Falls(reqs[|reqs| - 1].now, plan(reqs[|reqs| - 1].key).window, window)
    ensures var front, r := reqs[..|reqs| - 1], reqs[|reqs| - 1];
      var st := plan(r.key);
      Decided(plan, capacity, reqs).allowed
        == Below(AdmittedIn(plan, capacity, front, r.key, 0, window - 1),
                 AdmittedIn(plan, capacity, front, r.key, 0, window), Into(r.now, st.window, window), st.limit)
  {
    var front, r := reqs[..|reqs| - 1], reqs[|reqs| - 1];
    var st := plan(r.key);
    var a := AdmittedIn(plan, capacity, front, r.key, 0, window - 1);
    var b := AdmittedIn(plan, capacity, front, r.key, 0, window);
    var a', b' := TakenIn(plan, front, r.key, window - 1), TakenIn(plan, front, r.key, window);
    var x := Into(r.now, st.window, window);
    calc {
      Decided(plan, capacity, reqs).allowed;
    == { ExpiryInvisible(plan, capacity, reqs); }
      DecidedForever(plan, reqs).allowed;
    == { SlidingForever(plan, reqs, window); }
      Below(a', b', x, st.limit);
    == { SameTakenIn(plan, capacity, front, r.key, window);
         SameTakenIn(plan, capacity, front, r.key, window - 1);
         BelowAlike(a', a, b', b, x, x, st.limit); }
      Below(a, b, x, st.limit);
    }
  }

  // ---- Token buckets --------------------------------------------------------

  /** What the stretch from index `j` leaves at `now`: the burst and the refill since, less what was taken. */
  function Slack(plan: Plan, reqs: seq<Request>, k: Key, now: real, j: nat): real
    requires PlanOk(plan) && plan(k).TokenBucket? && j < |reqs|
  {
    plan(k).burst as real + Gain(plan(k), now - reqs[j].now) - Taken(plan, reqs, k, j) as real
  }

  function LevelNow(plan: Plan, reqs: seq<Request>, k: Key, now: real): real
    requires PlanOk(plan) && plan(k).TokenBucket?
  {
    Level(plan(k), Prior(Forever(plan, reqs), k), now)
  }

  /** `t` is the least of the burst and of what every stretch leaves; `j` shows it is reached. */
  ghost predicate Least(plan: Plan, reqs: seq<Request>, k: Key, now: real, t: real, j: nat)
    requires PlanOk(plan) && plan(k).TokenBucket?
  {
    && t <= plan(k).burst as real && (forall i: nat :: i < |reqs| ==> t <= Slack(plan, reqs, k, now, i))
    && (t == plan(k).burst as real || (j < |reqs| && t == Slack(plan, reqs, k, now, j)))
  }

  lemma LevelLater(st: Strategy, state: Option<State>, now: real, later: real)
    requires Valid(st) && st.TokenBucket? && (state.Some? ==> state.value.Filled?) && now <= later
    ensures Level(st, state, later) == Min(st.burst as real, Level(st, state, now) + Gain(st, later - now))
  {
    GainAdds(st, 0.0, later - now);
    if state.Some? {
      var ts := state.value.ts;
      GainAdds(st, now - ts, later - now);
      assert (now - ts) + (later - now) == later - ts;
      GainIs(st, now - ts);
      GainIs(st, later - ts);
    }
  }

  lemma GainIs(st: Strategy, elapsed: real)
    requires Valid(st) && st.TokenBucket?
    ensures elapsed * Refill(st) == Gain(st, elapsed)
  {
  }

  lemma SlackLater(plan: Plan, reqs: seq<Request>, k: Key, now: real, later: real, j: nat)
    requires PlanOk(plan) && plan(k).TokenBucket? && j < |reqs|
    ensures Slack(plan, reqs, k, later, j) == Slack(plan, reqs, k, now, j) + Gain(plan(k), later - now)
  {
    GainSince(plan(k), reqs[j].now, now, later);
  }

  lemma LeastLater(plan: Plan, reqs: seq<Request>, k: Key, now: real, later: real, t: real, j: nat)
    requires PlanOk(plan) && plan(k).TokenBucket? && now <= later && Least(plan, reqs, k, now, t, j)
    ensures Least(plan, reqs, k, later, Min(plan(k).burst as real, t + Gain(plan(k), later - now)), j)
  {
    GainAdds(plan(k), 0.0, later - now);
    forall i: nat | i < |reqs|
      ensures Slack(plan, reqs, k, later, i) == Slack(plan, reqs, k, now, i) + Gain(plan(k), later - now)
    {
      SlackLater(plan, reqs, k, now, later, i);
    }
  }

  lemma TakenNext(plan: Plan, reqs: seq<Request>, k: Key, j: nat)
    requires PlanOk(plan) && reqs != []
    ensures var front := reqs[..|reqs| - 1];
      var one := if reqs[|reqs| - 1].key == k && DecidedForever(plan, reqs).allowed then 1 else 0;
      && (j < |front| ==> Taken(plan, reqs, k, j) == Taken(plan, front, k, j) + one)
      && Taken(plan, reqs, k, |front|) == one
  {
    assert Taken(plan, reqs[..|reqs| - 1], k, |reqs| - 1) == 0;
  }

  /** Serving the last request takes what it admits from every stretch, and opens a new one. */
  lemma LeastServed(plan: Plan, reqs: seq<Request>, k: Key, t: real, j: nat) returns (j': nat)
    requires PlanOk(plan) && plan(k).TokenBucket? && reqs != []
    requires Least(plan, reqs[..|reqs| - 1], k, reqs[|reqs| - 1].now, t, j)
    ensures var one := if reqs[|reqs| - 1].key == k && DecidedForever(plan, reqs).allowed then 1.0 else 0.0;
      Least(plan, reqs, k, reqs[|reqs| - 1].now, t - one, j')
  {
    var front, now := reqs[..|reqs| - 1], reqs[|reqs| - 1].now;
    var one := if reqs[|reqs| - 1].key == k && DecidedForever(plan, reqs).allowed then 1.0 else 0.0;
    j' := if t == plan(k).burst as real then |front| else j;
    forall i: nat | i < |reqs|
      ensures Slack(plan, reqs, k, now, i)
        == (if i < |front| then Slack(plan, front, k, now, i) else plan(k).burst as real) - one
    {
      TakenNext(plan, reqs, k, i);
      GainAdds(plan(k), 0.0, 0.0);
      assert now - now == 0.0;
    }
  }

  lemma LevelServed(plan: Plan, reqs: seq<Request>, k: Key)
    requires PlanOk(plan) && plan(k).TokenBucket? && reqs != [] && Ordered(reqs)
    ensures var front, r := reqs[..|reqs| - 1], reqs[|reqs| - 1];
      LevelNow(plan, reqs, k, r.now) == LevelNow(plan, front, k, r.now)
        - if r.key == k && DecidedForever(plan, reqs).allowed then 1.0 else 0.0
  {
    var front, r := reqs[..|reqs| - 1], reqs[|reqs| - 1];
    ForeverNext(plan, reqs, k);
    if r.key == k {
      var state := Prior(Forever(plan, front), k);
      ForeverOk(plan, front, r.now);
      assert state.Some? ==> EntryWritten(plan(k), Forever(plan, front)[k], r.now);
      LevelRange(plan(k), state, r.now);
      LevelSpent(plan(k), state, r.now);
    }
  }

  /** The bucket holds the least of its burst and of what every stretch of earlier requests leaves. */
  lemma {:induction false} LevelExact(plan: Plan, reqs: seq<Request>, k: Key, now: real) returns (j: nat)
    requires PlanOk(plan) && plan(k).TokenBucket? && Ordered(reqs) && (reqs != [] ==> reqs[|reqs| - 1].now <= now)
    ensures Least(plan, reqs, k, now, LevelNow(plan, reqs, k, now), j)
  {
    j := 0;
    if reqs != [] {
      var front, r := reqs[..|reqs| - 1], reqs[|reqs| - 1];
      j := LevelExact(plan, front, k, r.now);
      j := LeastServed(plan, reqs, k, LevelNow(plan, front, k, r.now), j);
      LevelServed(plan, reqs, k);
      LeastLater(plan, reqs, k, r.now, now, LevelNow(plan, reqs, k, r.now), j);
      LevelLater(plan(k), Prior(Forever(plan, reqs), k), r.now, now);
    }
  }

  /** What a stretch of that length may admit: the burst and the refill. */
  function Allowance(st: Strategy, elapsed: real): real
    requires Valid(st) && st.TokenBucket?
  {
    st.burst as real + st.rate as real / st.per * elapsed
  }

  /** One more request at `now` fits every stretch of the run that ends with it. */
  ghost predicate Fitting(plan: Plan, capacity: nat, reqs: seq<Request>, k: Key, now: real)
    requires PlanOk(plan) && plan(k).TokenBucket? && 1 <= capacity
  {
    forall j: nat :: j < |reqs| ==>
      Admitted(plan, capacity, reqs, k, j) as real + 1.0 <= Allowance(plan(k), now - reqs[j].now)
  }

  ghost predicate Roomy(plan: Plan, reqs: seq<Request>, k: Key, now: real)
    requires PlanOk(plan) && plan(k).TokenBucket?
  {
    forall j: nat :: j < |reqs| ==> Slack(plan, reqs, k, now, j) >= 1.0
  }

  lemma SlackIsAllowance(plan: Plan, reqs: seq<Request>, k: Key, now: real, j: nat)
    requires PlanOk(plan) && plan(k).TokenBucket? && j < |reqs|
    ensures Slack(plan, reqs, k, now, j) == Allowance(plan(k), now - reqs[j].now) - Taken(plan, reqs, k, j) as real
  {
    var st, elapsed := plan(k), now - reqs[j].now;
    calc {
      Slack(plan, reqs, k, now, j);
    ==
      st.burst as real + Gain(st, elapsed) - Taken(plan, reqs, k, j) as real;
    == { AllowanceIs(st, elapsed); }
      Allowance(st, elapsed) - Taken(plan, reqs, k, j) as real;
    }
  }

  lemma AllowanceIs(st: Strategy, elapsed: real)
    requires Valid(st) && st.TokenBucket?
    ensures Allowance(st, elapsed) == st.burst as real + Gain(st, elapsed)
  {
    assert Refill(st) == st.rate as real / st.per;
  }

  lemma RoomyFits(plan: Plan, capacity: nat, reqs: seq<Request>, k: Key, now: real)
    requires PlanOk(plan) && plan(k).TokenBucket? && 1 <= capacity && Ordered(reqs)
    requires Undisturbed(plan, capacity, reqs, k)
    ensures Roomy(plan, reqs, k, now) <==> Fitting(plan, capacity, reqs, k, now)
  {
    forall j: nat | j < |reqs|
      ensures Slack(plan, reqs, k, now, j) >= 1.0
        <==> Admitted(plan, capacity, reqs, k, j) as real + 1.0 <= Allowance(plan(k), now - reqs[j].now)
    {
      SameTaken(plan, capacity, reqs, k, j);
      SlackIsAllowance(plan, reqs, k, now, j);
    }
  }

  lemma BucketForever(plan: Plan, reqs: seq<Request>)
    requires PlanOk(plan) && reqs != [] && Ordered(reqs) && plan(reqs[|reqs| - 1].key).TokenBucket?
    ensures var front, r := reqs[..|reqs| - 1], reqs[|reqs| - 1];
      DecidedForever(plan, reqs).allowed <==> Roomy(plan, front, r.key, r.now)
  {
    var front, r := reqs[..|reqs| - 1], reqs[|reqs| - 1];
    var j := LevelExact(plan, front, r.key, r.now);
    assert DecidedForever(plan, reqs).allowed <==> LevelNow(plan, front, r.key, r.now) >= 1.0;
  }

  /** A token bucket admits a request exactly when no stretch of the run that ends with it would exceed the burst plus
      the refill of the time it took. */
  lemma BucketExact(plan: Plan, capacity: nat, reqs: seq<Request>)
    requires PlanOk(plan) && 1 <= capacity && reqs != [] && Ordered(reqs)
    requires plan(reqs[|reqs| - 1].key).TokenBucket?
    requires Undisturbed(plan, capacity, reqs[..|reqs| - 1], reqs[|reqs| - 1].key)
    ensures var front, r := reqs[..|reqs| - 1], reqs[|reqs| - 1];
      Decided(plan, capacity, reqs).allowed <==> Fitting(plan, capacity, front, r.key, r.now)
  {
    var front, r := reqs[..|reqs| - 1], reqs[|reqs| - 1];
    calc {
      Decided(plan, capacity, reqs).allowed;
    == { ExpiryInvisible(plan, capacity, reqs); }
      DecidedForever(plan, reqs).allowed;
    == { BucketForever(plan, reqs); }
      Roomy(plan, front, r.key, r.now);
    == { RoomyFits(plan, capacity, front, r.key, r.now); }
      Fitting(plan, capacity, front, r.key, r.now);
    }
  }
}
