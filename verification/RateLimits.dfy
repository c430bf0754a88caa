/** The three rate-limit strategies as state transitions; time and tokens are exact reals. */
module RateLimits {
  import opened Wrappers

  datatype Strategy =
    | FixedWindow(limit: nat, window: nat)
    | SlidingWindow(limit: nat, window: nat)
    | TokenBucket(rate: nat, per: real, burst: nat)

  datatype State =
    | Counted(window: int, count: nat)
    | Weighted(window: int, prev: nat, curr: nat)
    | Filled(tokens: real, ts: real)

  datatype Decision = Decision(allowed: bool, limit: nat, remaining: int, retryAfter: int, reset: int)

  datatype Outcome = Outcome(decision: Decision, next: State, ttl: int)

  /** What the constructors accept. */
  predicate Valid(st: Strategy) {
    match st
    case FixedWindow(limit, window) => limit >= 1 && window >= 1
    case SlidingWindow(limit, window) => limit >= 1 && window >= 1
    case TokenBucket(rate, per, burst) => rate >= 1 && per > 0.0 && burst >= 1
  }

  function Ceil(x: real): int {
    -((-x).Floor)
  }

  /** Python's `int(x)`. */
  function Truncate(x: real): int {
    if x >= 0.0 then x.Floor else Ceil(x)
  }

  function Max(a: int, b: int): int {
    if a >= b then a else b
  }

  function Min(a: real, b: real): real {
    if a <= b then a else b
  }

  /** Index of the aligned window `now` falls in. */
  function WindowOf(now: real, width: nat): int
    requires width >= 1
  {
    (now / width as real).Floor
  }

  /** How far into its window `now` is, from 0 to 1. */
  function Fraction(now: real, width: nat): real
    requires width >= 1
  {
    (now - width as real * WindowOf(now, width) as real) / width as real
  }

  function Reset(now: real, width: nat): int
    requires width >= 1
  {
    width - Truncate(now) % width
  }

  function Refill(st: Strategy): real
    requires Valid(st) && st.TokenBucket?
  {
    st.rate as real / st.per
  }

  predicate Fits(st: Strategy, s: State) {
    (st.FixedWindow? <==> s.Counted?) && (st.SlidingWindow? <==> s.Weighted?) && (st.TokenBucket? <==> s.Filled?)
  }

  /** The counts `SlidingWindow` starts from. */
  function Carried(state: Option<State>, window: int): (nat, nat)
    requires state.Some? ==> state.value.Weighted?
  {
    if state.Some? && state.value.window == window then (state.value.prev, state.value.curr)
    else if state.Some? && state.value.window == window - 1 then (state.value.curr, 0)
    else (0, 0)
  }

  /** The tokens in the bucket before the request is served. */
  function Level(st: Strategy, state: Option<State>, now: real): real
    requires Valid(st) && st.TokenBucket? && (state.Some? ==> state.value.Filled?)
  {
    if state.None? then st.burst as real
    else Min(st.burst as real, state.value.tokens + (now - state.value.ts) * Refill(st))
  }

  function EvaluateFixed(st: Strategy, state: Option<State>, now: real): Outcome
    requires Valid(st) && st.FixedWindow? && (state.Some? ==> state.value.Counted?)
  {
    var window := WindowOf(now, st.window);
    var count := if state.Some? && state.value.window == window then state.value.count + 1 else 1;
    var allowed := count <= st.limit;
    var reset := Reset(now, st.window);
    Outcome(Decision(allowed, st.limit, Max(0, st.limit - count), if allowed then 0 else reset, reset),
            Counted(window, count), st.window)
  }

  function EvaluateSliding(st: Strategy, state: Option<State>, now: real): Outcome
    requires Valid(st) && st.SlidingWindow? && (state.Some? ==> state.value.Weighted?)
  {
    var window := WindowOf(now, st.window);
    var (prev, curr) := Carried(state, window);
    var weighted := prev as real * (1.0 - Fraction(now, st.window));
    var allowed := weighted + curr as real < st.limit as real;
    var count := if allowed then curr + 1 else curr;
    var reset := Reset(now, st.window);
    Outcome(Decision(allowed, st.limit, Max(0, Truncate(st.limit as real - (weighted + count as real))),
                     if allowed then 0 else Max(1, reset), reset),
            Weighted(window, prev, count), st.window * 2)
  }

  function EvaluateBucket(st: Strategy, state: Option<State>, now: real): Outcome
    requires Valid(st) && st.TokenBucket? && (state.Some? ==> state.value.Filled?)
  {
    var level := Level(st, state, now);
    var allowed := level >= 1.0;
    var tokens := if allowed then level - 1.0 else level;
    var retryAfter := if allowed then 0 else Max(1, Ceil((1.0 - tokens) / Refill(st)));
    var reset := if tokens < st.burst as real then Ceil((st.burst as real - tokens) / Refill(st)) else 0;
    Outcome(Decision(allowed, st.burst, Truncate(tokens), retryAfter, reset),
            Filled(tokens, now), Ceil(st.burst as real / Refill(st)) + 1)
  }

  /** `evaluate` */
  function Evaluate(st: Strategy, state: Option<State>, now: real): (o: Outcome)
    requires Valid(st) && (state.Some? ==> Fits(st, state.value))
    ensures Fits(st, o.next)
  {
    match st
    case FixedWindow(_, _) => EvaluateFixed(st, state, now)
    case SlidingWindow(_, _) => EvaluateSliding(st, state, now)
    case TokenBucket(_, _, _) => EvaluateBucket(st, state, now)
  }

  // ---- What a stored state says ---------------------------------------------

  /** A state written by an evaluation at time `t`. */
  predicate WrittenAt(st: Strategy, s: State, t: real)
    requires Valid(st) && Fits(st, s)
  {
    match st
    case FixedWindow(_, width) => s.window == WindowOf(t, width)
    case SlidingWindow(limit, width) => s.window == WindowOf(t, width) && s.prev <= limit && s.curr <= limit
    case TokenBucket(_, _, burst) => s.ts == t && 0.0 <= s.tokens <= burst as real
  }

  lemma FractionRange(now: real, width: nat)
    requires width >= 1
    ensures 0.0 <= Fraction(now, width) < 1.0
  {
    var w, q := width as real, now / width as real;
    var d := q - WindowOf(now, width) as real;
    assert now == q * w;
    assert now - w * WindowOf(now, width) as real == d * w;
    QuotientOfProduct(d, w);
    assert Fraction(now, width) == d * w / w;
    assert 0.0 <= d < 1.0;
  }

  lemma QuotientOfProduct(d: real, w: real)
    requires w > 0.0
    ensures d * w / w == d && d / w * w == d
  {
  }

  lemma Product(a: real, b: real)
    requires a >= 0.0 && b >= 0.0
    ensures a * b >= 0.0
  {
  }

  lemma RefillPositive(st: Strategy)
    requires Valid(st) && st.TokenBucket?
    ensures Refill(st) > 0.0
  {
  }

  lemma LevelRange(st: Strategy, state: Option<State>, now: real)
    requires Valid(st) && st.TokenBucket? && (state.Some? ==> state.value.Filled?)
    requires state.Some? ==> WrittenAt(st, state.value, state.value.ts) && state.value.ts <= now
    ensures 0.0 <= Level(st, state, now) <= st.burst as real
  {
    RefillPositive(st);
    if state.Some? {
      var elapsed, refill := now - state.value.ts, Refill(st);
      var gained := elapsed * refill;
      assert gained >= 0.0 by { Product(elapsed, refill); }
      assert Level(st, state, now) == Min(st.burst as real, state.value.tokens + gained);
    }
  }

  /** Every evaluation leaves a sound state behind; the time only ever moves forward. */
  lemma EvaluateWrites(st: Strategy, state: Option<State>, t: real, now: real)
    requires Valid(st) && t <= now
    requires state.Some? ==> Fits(st, state.value) && WrittenAt(st, state.value, t)
    ensures WrittenAt(st, Evaluate(st, state, now).next, now)
  {
    match st
    case FixedWindow(_, _) =>
    case SlidingWindow(_, _) => SlidingCounts(st, state, now);
    case TokenBucket(_, _, _) => LevelRange(st, state, now);
  }

  lemma SlidingCounts(st: Strategy, state: Option<State>, now: real)
    requires Valid(st) && st.SlidingWindow? && (state.Some? ==> state.value.Weighted?)
    requires state.Some? ==> state.value.prev <= st.limit && state.value.curr <= st.limit
    ensures var n := EvaluateSliding(st, state, now).next; n.prev <= st.limit && n.curr <= st.limit
  {
    FractionRange(now, st.window);
    var carried := Carried(state, WindowOf(now, st.window));
    var o := EvaluateSliding(st, state, now);
    Product(carried.0 as real, 1.0 - Fraction(now, st.window));
    assert carried.0 <= st.limit && carried.1 <= st.limit;
    assert o.next == Weighted(WindowOf(now, st.window), carried.0, if o.decision.allowed then carried.1 + 1
        else carried.1);
    assert o.decision.allowed ==> carried.1 as real < st.limit as real;
  }

  // ---- Expiry is invisible --------------------------------------------------

  lemma WindowsApart(t: real, now: real, width: nat, n: nat)
    requires width >= 1 && now >= t + (n * width) as real
    ensures WindowOf(now, width) >= WindowOf(t, width) + n
  {
    var w := width as real;
    assert (n * width) as real == n as real * w;
    assert now / w >= t / w + n as real;
  }

  lemma CeilAbove(x: real)
    ensures x <= Ceil(x) as real < x + 1.0
  {
  }

  /** Once its time to live has run out, a state decides nothing. */
  lemma ExpiredStateForgotten(st: Strategy, s: State, t: real, now: real)
    requires Valid(st) && Fits(st, s) && WrittenAt(st, s, t)
    requires now >= t + Evaluate(st, None, t).ttl as real
    ensures Evaluate(st, Some(s), now) == Evaluate(st, None, now)
  {
    match st
    case FixedWindow(_, width) => WindowsApart(t, now, width, 1);
    case SlidingWindow(_, width) => WindowsApart(t, now, width, 2);
    case TokenBucket(_, _, burst) => BucketRefilled(st, s, t, now);
  }

  lemma WaitRefills(elapsed: real, missing: real, refill: real)
    requires refill > 0.0 && elapsed >= missing / refill
    ensures elapsed * refill >= missing
  {
    QuotientOfProduct(missing, refill);
    Product(elapsed - missing / refill, refill);
    assert elapsed * refill == (elapsed - missing / refill) * refill + missing / refill * refill;
  }

  lemma BucketRefilled(st: Strategy, s: State, t: real, now: real)
    requires Valid(st) && st.TokenBucket? && s.Filled? && WrittenAt(st, s, t)
    requires now >= t + (Ceil(st.burst as real / Refill(st)) + 1) as real
    ensures Level(st, Some(s), now) == st.burst as real
  {
    RefillPositive(st);
    var refill, burst := Refill(st), st.burst as real;
    CeilAbove(burst / refill);
    WaitRefills(now - t, burst, refill);
  }

  /** The time to live does not depend on the state or the time. */
  lemma TtlFixed(st: Strategy, state: Option<State>, now: real, t: real)
    requires Valid(st) && (state.Some? ==> Fits(st, state.value))
    ensures Evaluate(st, state, now).ttl == Evaluate(st, None, t).ttl
  {
  }

  // ---- Waiting as told ------------------------------------------------------

  /** `now + Reset(now)` is in the next window. */
  lemma ResetReachesNextWindow(now: real, width: nat, later: real)
    requires width >= 1 && now >= 0.0 && later >= now + Reset(now, width) as real
    ensures WindowOf(later, width) > WindowOf(now, width)
  {
    var w, q := width as real, WindowOf(now, width);
    var next := now.Floor - now.Floor % width + width;
    assert now.Floor >= 0 && next % width == 0 by { NextMultiple(now.Floor, width); }
    assert later >= next as real > now by {
      assert later >= now + (width - now.Floor % width) as real;
    }
    MultipleWindow(next, width);
    BoundaryBetween(now, next / width, width, later);
  }

  lemma NextMultiple(n: nat, width: nat)
    requires width >= 1
    ensures (n - n % width + width) % width == 0
  {
    assert n - n % width + width == width * (n / width + 1);
    MultipleModulo(n / width + 1, width);
  }

  lemma MultipleModulo(q: int, width: nat)
    requires width >= 1
    ensures width * q % width == 0
  {
    var r := width * q % width;
    var d := width * q / width;
    assert width * q == width * d + r;
    assert r == width * (q - d);
    if q - d >= 1 {
      AtLeast(width, q - d);
    } else if q - d <= -1 {
      AtLeast(width, d - q);
    }
  }

  lemma AtLeast(width: nat, m: nat)
    requires m >= 1
    ensures width * m >= width
  {
  }

  lemma MultipleWindow(n: int, width: nat)
    requires width >= 1 && n % width == 0
    ensures n == width * (n / width)
  {
  }

  lemma BoundaryBetween(now: real, boundary: int, width: nat, later: real)
    requires width >= 1 && now < (width * boundary) as real <= later
    ensures WindowOf(now, width) < boundary <= WindowOf(later, width)
  {
    var w := width as real;
    assert (width * boundary) as real == w * boundary as real;
    assert now / w < boundary as real;
    assert later / w >= boundary as real;
  }

  /** Having waited as told, with nothing served in between, a client of these two strategies is admitted. */
  lemma RetryAdmitted(st: Strategy, state: Option<State>, t: real, now: real, later: real)
    requires Valid(st) && 0.0 <= now && t <= now && !st.SlidingWindow?
    requires state.Some? ==> Fits(st, state.value) && WrittenAt(st, state.value, t)
    requires var o := Evaluate(st, state, now); !o.decision.allowed && later >= now + o.decision.retryAfter as real
    ensures Evaluate(st, Some(Evaluate(st, state, now).next), later).decision.allowed
  {
    match st
    case FixedWindow(limit, width) => ResetReachesNextWindow(now, width, later);
    case TokenBucket(_, _, burst) =>
      LevelRange(st, state, now);
      BucketRetry(st, Level(st, state, now), now, later);
  }

  lemma BucketRetry(st: Strategy, tokens: real, now: real, later: real)
    requires Valid(st) && st.TokenBucket? && 0.0 <= tokens < 1.0
    requires later >= now + Max(1, Ceil((1.0 - tokens) / Refill(st))) as real
    ensures Level(st, Some(Filled(tokens, now)), later) >= 1.0
  {
    RefillPositive(st);
    var refill := Refill(st);
    CeilAbove((1.0 - tokens) / refill);
    WaitRefills(later - now, 1.0 - tokens, refill);
  }

  /** The very start of an aligned window. */
  predicate AtBoundary(now: real, width: nat)
    requires width >= 1
  {
    now == width as real * WindowOf(now, width) as real
  }

  /**
    * A sliding window does not keep that promise in general: a client that comes back exactly at the start
    * of the next window is refused again when it had filled the window it was refused in. Those are the
    * only refusals.
    */
  lemma SlidingRetryExact(st: Strategy, state: Option<State>, t: real, now: real, later: real)
    requires Valid(st) && 0.0 <= now && t <= now && st.SlidingWindow?
    requires state.Some? ==> Fits(st, state.value) && WrittenAt(st, state.value, t)
    requires var o := Evaluate(st, state, now); !o.decision.allowed && later >= now + o.decision.retryAfter as real
    ensures var next := Evaluate(st, state, now).next;
      Evaluate(st, Some(next), later).decision.allowed
      <==> !(next.curr == st.limit && WindowOf(later, st.window) == next.window + 1 && AtBoundary(later, st.window))
  {
    var next := Evaluate(st, state, now).next;
    SlidingCounts(st, state, now);
    ResetReachesNextWindow(now, st.window, later);
    var w := WindowOf(later, st.window);
    FractionRange(later, st.window);
    FractionZero(later, st.window);
    var prev := if w == next.window + 1 then next.curr else 0;
    assert Carried(Some(next), w) == (prev, 0);
    WeightBelow(prev, Fraction(later, st.window), st.limit);
  }

  lemma FractionZero(now: real, width: nat)
    requires width >= 1
    ensures Fraction(now, width) == 0.0 <==> AtBoundary(now, width)
  {
    var w := width as real;
    var rest := now - w * WindowOf(now, width) as real;
    assert rest / w == 0.0 <==> rest == 0.0;
  }

  lemma WeightBelow(prev: nat, fraction: real, limit: nat)
    requires prev <= limit && 1 <= limit && 0.0 <= fraction < 1.0
    ensures prev as real * (1.0 - fraction) < limit as real <==> !(prev == limit && fraction == 0.0)
  {
    if prev == limit {
      assert prev as real * (1.0 - fraction) == limit as real - limit as real * fraction;
    } else {
      assert prev as real * (1.0 - fraction) <= prev as real;
    }
  }

  /** At the very start of a window what was carried over counts in full. */
  lemma ServedAtBoundary(st: Strategy, state: Option<State>, now: real, window: int, prev: nat, curr: nat)
    requires Valid(st) && st.SlidingWindow? && (state.Some? ==> state.value.Weighted?)
    requires WindowOf(now, st.window) == window && Fraction(now, st.window) == 0.0
    requires Carried(state, window) == (prev, curr)
    ensures var o := EvaluateSliding(st, state, now);
      && (o.decision.allowed <==> prev + curr < st.limit)
      && o.next == Weighted(window, prev, if prev + curr < st.limit then curr + 1 else curr)
      && o.decision.retryAfter == if prev + curr < st.limit then 0 else Max(1, Reset(now, st.window))
  {
    assert prev as real * (1.0 - Fraction(now, st.window)) == prev as real;
  }

  lemma Boundary(q: nat, width: nat, now: real)
    requires width >= 1 && now == (width * q) as real
    ensures WindowOf(now, width) == q && Fraction(now, width) == 0.0 && Reset(now, width) == width
  {
    var w := width as real;
    assert now == q as real * w;
    QuotientOfProduct(q as real, w);
    assert now / w == q as real && WindowOf(now, width) == q;
    assert now - w * q as real == 0.0;
    MultipleModulo(q, width);
    assert now.Floor == width * q >= 0;
  }

  /** The two counts carried over, at a first request, in the same window, and in the next one. */
  lemma CarriedCounts(window: int, prev: nat, curr: nat)
    ensures Carried(None, window) == (0, 0)
    ensures Carried(Some(Weighted(window, prev, curr)), window) == (prev, curr)
    ensures Carried(Some(Weighted(window, prev, curr)), window + 1) == (curr, 0)
  {
  }

  lemma FirstServed(st: Strategy, now: real)
    requires st == SlidingWindow(1, 60) && now == 0.0
    ensures var o := Evaluate(st, None, now); o.decision.allowed && o.next == Weighted(0, 0, 1)
  {
    Boundary(0, 60, now);
    CarriedCounts(0, 0, 0);
    ServedAtBoundary(st, None, now, 0, 0, 0);
  }

  lemma SecondRefused(st: Strategy, now: real, used: State)
    requires st == SlidingWindow(1, 60) && now == 0.0 && used == Weighted(0, 0, 1)
    ensures var o := Evaluate(st, Some(used), now); !o.decision.allowed && o.decision.retryAfter == 60 && o.next == used
  {
    Boundary(0, 60, now);
    CarriedCounts(0, 0, 1);
    ServedAtBoundary(st, Some(used), now, 0, 0, 1);
  }

  lemma ThirdRefused(st: Strategy, later: real, used: State)
    requires st == SlidingWindow(1, 60) && later == 60.0 && used == Weighted(0, 0, 1)
    ensures !Evaluate(st, Some(used), later).decision.allowed
  {
    Boundary(1, 60, later);
    CarriedCounts(0, 0, 1);
    ServedAtBoundary(st, Some(used), later, 1, 1, 0);
  }

  /** The promise broken: limit 1, window 60 seconds, a request at 0 and another at 0, retried at 60. */
  lemma SlidingRetryRefused() returns (st: Strategy, now: real, later: real)
    ensures st == SlidingWindow(1, 60) && now == 0.0 && later == 60.0
    ensures var first := Evaluate(st, None, now);
      var second := Evaluate(st, Some(first.next), now);
      && first.decision.allowed && !second.decision.allowed && second.decision.retryAfter == 60
      && !Evaluate(st, Some(second.next), later).decision.allowed
  {
    st, now, later := SlidingWindow(1, 60), 0.0, 60.0;
    var used := Weighted(0, 0, 1);
    FirstServed(st, now);
    SecondRefused(st, now, used);
    ThirdRefused(st, later, used);
  }
}
