/** What a decision tells the client: how much is left, how long to wait, and when the limit starts afresh. */
module RateLimitAdvice {
  import opened RateLimitBackend
  import opened RateLimitBounds
  import opened RateLimitExact
  import opened RateLimits
  import opened Wrappers

  /** The window that contains a non-negative time. */
  lemma WindowAt(now: real, width: nat)
    requires width >= 1 && now >= 0.0
    ensures WindowOf(now, width) == now.Floor / width
  {
    var q := now.Floor / width;
    assert now.Floor == width * q + now.Floor % width;
    assert q * width <= now.Floor < (q + 1) * width;
    FallsExactly(now, width, q);
  }

  /** `reset` is the least whole number of seconds after which an aligned window has ended. */
  lemma ResetLeast(now: real, width: nat, n: nat)
    requires width >= 1 && now >= 0.0
    ensures 1 <= Reset(now, width) <= width
    ensures WindowOf(now + n as real, width) > WindowOf(now, width) <==> n >= Reset(now, width)
  {
    var later := now + n as real;
    if n >= Reset(now, width) {
      ResetReachesNextWindow(now, width, later);
    } else {
      var q := now.Floor / width;
      assert now.Floor == width * q + now.Floor % width;
      assert later.Floor == now.Floor + n;
      assert q * width <= later.Floor < (q + 1) * width;
      FallsExactly(now, width, q);
      FallsExactly(later, width, q);
    }
  }

  /** A fixed window: a refused client is refused again at any whole second before the time it was told, and not
      after. */
  lemma FixedAdvice(st: Strategy, state: Option<State>, now: real, n: nat)
    requires Valid(st) && st.FixedWindow? && now >= 0.0 && (state.Some? ==> Fits(st, state.value))
    ensures var o := Evaluate(st, state, now);
      && o.decision.limit == st.limit
      && (o.decision.allowed ==> o.decision.retryAfter == 0)
      && (!o.decision.allowed ==> (Evaluate(st, Some(o.next), now + n as real).decision.allowed
                                   <==> n >= o.decision.retryAfter))
  {
    ResetLeast(now, st.window, n);
    WindowsInOrder(now, now + n as real, st.window);
  }

  /** Fixed and sliding windows report the seconds to the end of the aligned window. */
  lemma WindowAdvice(st: Strategy, state: Option<State>, now: real, n: nat)
    requires Valid(st) && !st.TokenBucket? && now >= 0.0 && (state.Some? ==> Fits(st, state.value))
    ensures var d := Evaluate(st, state, now).decision;
      && d.limit == st.limit && (d.allowed <==> d.retryAfter == 0) && (!d.allowed ==> d.retryAfter == d.reset)
      && (n >= d.reset <==> WindowOf(now + n as real, st.window) > WindowOf(now, st.window))
  {
    ResetLeast(now, st.window, n);
  }

  /** A sliding window reports, in whole requests, what the weighted count leaves of the limit. */
  lemma SlidingAdvice(st: Strategy, state: Option<State>, now: real)
    requires Valid(st) && st.SlidingWindow? && (state.Some? ==> state.value.Weighted?)
    ensures var o := EvaluateSliding(st, state, now);
      var left := st.limit as real - (o.next.prev as real * (1.0 - Fraction(now, st.window)) + o.next.curr as real);
      && 0 <= o.decision.remaining
      && (left >= 0.0 ==> o.decision.remaining as real <= left < o.decision.remaining as real + 1.0)
      && (left < 0.0 ==> o.decision.remaining == 0)
  {
  }

  // ---- Token buckets --------------------------------------------------------

  /** `Max(0, Ceil(missing / refill))` seconds is the least whole wait that refills what is missing. */
  lemma WaitLeast(missing: real, refill: real, n: nat)
    requires refill > 0.0
    ensures n as real * refill >= missing <==> n >= Ceil(missing / refill)
  {
    var x := missing / refill;
    QuotientOfProduct(missing, refill);
    Scaled(x, n as real, refill);
    CeilAbove(x);
  }

  lemma LevelAfter(st: Strategy, tokens: real, now: real, n: nat)
    requires Valid(st) && st.TokenBucket?
    ensures Level(st, Some(Filled(tokens, now)), now + n as real)
      == Min(st.burst as real, tokens + n as real * Refill(st))
  {
    assert now + n as real - now == n as real;
  }

  /** A refused client of a token bucket is refused again at any whole second before the time it was told, and not
      after. */
  lemma BucketAdvice(st: Strategy, state: Option<State>, now: real, n: nat)
    requires Valid(st) && st.TokenBucket? && (state.Some? ==> state.value.Filled?)
    requires 0.0 <= Level(st, state, now) <= st.burst as real
    ensures var o := EvaluateBucket(st, state, now);
      && o.decision.limit == st.burst
      && (o.decision.allowed <==> o.decision.retryAfter == 0)
      && (!o.decision.allowed ==> (Level(st, Some(o.next), now + n as real) >= 1.0 <==> n >= o.decision.retryAfter))
  {
    var o := EvaluateBucket(st, state, now);
    RefillPositive(st);
    LevelAfter(st, o.next.tokens, now, n);
    WaitLeast(1.0 - o.next.tokens, Refill(st), n);
    if !o.decision.allowed {
      assert 1.0 - o.next.tokens > 0.0;
      PositiveQuotient(1.0 - o.next.tokens, Refill(st));
    }
  }

  lemma PositiveQuotient(a: real, b: real)
    requires a > 0.0 && b > 0.0
    ensures a / b > 0.0 && Ceil(a / b) >= 1
  {
    var q := a / b;
    QuotientOfProduct(a, b);
    Scaled(q, 0.0, b);
    assert 0.0 * b == 0.0;
    CeilAbove(q);
  }

  /** When a bucket with `tokens` in it is full again. */
  lemma FullAgain(st: Strategy, tokens: real, now: real, n: nat)
    requires Valid(st) && st.TokenBucket? && 0.0 <= tokens <= st.burst as real
    ensures var reset := if tokens < st.burst as real then Ceil((st.burst as real - tokens) / Refill(st)) else 0;
      Level(st, Some(Filled(tokens, now)), now + n as real) == st.burst as real <==> n >= reset
  {
    RefillPositive(st);
    LevelAfter(st, tokens, now, n);
    WaitLeast(st.burst as real - tokens, Refill(st), n);
    Product(n as real, Refill(st));
  }

  /** It reports whole tokens left, and the least whole number of seconds in which the bucket fills up again. */
  lemma BucketLeft(st: Strategy, state: Option<State>, now: real, n: nat)
    requires Valid(st) && st.TokenBucket? && (state.Some? ==> state.value.Filled?)
    requires 0.0 <= Level(st, state, now) <= st.burst as real
    ensures var o := EvaluateBucket(st, state, now);
      && o.decision.remaining as real <= Level(st, Some(o.next), now) < o.decision.remaining as real + 1.0
      && (Level(st, Some(o.next), now + n as real) == st.burst as real <==> n >= o.decision.reset)
  {
    var o := EvaluateBucket(st, state, now);
    LevelSpent(st, state, now);
    FullAgain(st, o.next.tokens, now, n);
  }

  // ---- How long a state is kept ---------------------------------------------

  /** Some state written at time zero still makes a difference at time `t`. */
  ghost predicate StillMatters(st: Strategy, t: real)
    requires Valid(st)
  {
    exists s :: Fits(st, s) && WrittenAt(st, s, 0.0) && Evaluate(st, Some(s), t) != Evaluate(st, None, t)
  }

  lemma FixedMatters(st: Strategy, t: real)
    requires Valid(st) && st.FixedWindow? && 0.0 <= t < st.window as real
    ensures StillMatters(st, t)
  {
    FallsExactly(0.0, st.window, 0);
    FallsExactly(t, st.window, 0);
    assert Evaluate(st, Some(Counted(0, 1)), t).next != Evaluate(st, None, t).next;
  }

  lemma SlidingMatters(st: Strategy, t: real)
    requires Valid(st) && st.SlidingWindow? && 0.0 <= t < (2 * st.window) as real
    ensures StillMatters(st, t)
  {
    var s := Weighted(0, 0, 1);
    FallsExactly(0.0, st.window, 0);
    assert WrittenAt(st, s, 0.0);
    if t < st.window as real {
      FallsExactly(t, st.window, 0);
      assert Evaluate(st, Some(s), t) != Evaluate(st, None, t);
    } else {
      FallsExactly(t, st.window, 1);
      assert Evaluate(st, Some(s), t).next.prev == 1 && Evaluate(st, None, t).next.prev == 0;
    }
  }

  lemma BucketMatters(st: Strategy, t: real)
    requires Valid(st) && st.TokenBucket? && 0.0 <= t < st.burst as real / Refill(st)
    ensures StillMatters(st, t)
  {
    var s := Filled(0.0, 0.0);
    RefillPositive(st);
    QuotientOfProduct(st.burst as real, Refill(st));
    Scaled(st.burst as real / Refill(st), t, Refill(st));
    assert (t - 0.0) * Refill(st) == t * Refill(st) < st.burst as real;
    assert Level(st, Some(s), t) < st.burst as real == Level(st, None, t);
    assert Evaluate(st, Some(s), t) != Evaluate(st, None, t);
  }

  /** A state is kept no longer than it can make a difference, but for two seconds with a token bucket. */
  lemma KeptWhileItMatters(st: Strategy, state: Option<State>, now: real, t: real)
    requires Valid(st) && (state.Some? ==> Fits(st, state.value))
    requires 0.0 <= t && t + (if st.TokenBucket? then 2.0 else 0.0) < Evaluate(st, state, now).ttl as real
    ensures StillMatters(st, t)
  {
    match st
    case FixedWindow(_, _) => FixedMatters(st, t);
    case SlidingWindow(_, _) => SlidingMatters(st, t);
    case TokenBucket(_, _, burst) =>
      CeilAbove(burst as real / Refill(st));
      BucketMatters(st, t);
  }
}
