/** What the backend admits over a run: per window, over any stretch, and to a client that waits as told. */
module RateLimitBounds {
  import opened ExpiringStore
  import opened RateLimitBackend
  import opened RateLimits
  import opened Wrappers

  // ---- The two counting strategies ------------------------------------------

  /** Requests counted in the current window. */
  function Used(s: State): nat
    requires !s.Filled?
  {
    if s.Counted? then s.count else s.curr
  }

  function UsedIn(state: Option<State>, window: int): nat
    requires state.Some? ==> !state.value.Filled?
  {
    if state.Some? && state.value.window == window then Used(state.value) else 0
  }

  /** An admitted request is counted and stays within the limit; a refused one uncounts nothing. */
  lemma CountStep(st: Strategy, state: Option<State>, now: real)
    requires Valid(st) && !st.TokenBucket? && (state.Some? ==> Fits(st, state.value))
    ensures var o, w := Evaluate(st, state, now), WindowOf(now, st.window);
      && o.next.window == w && o.ttl >= st.window
      && (o.decision.allowed ==> Used(o.next) == UsedIn(state, w) + 1 <= st.limit)
      && (!o.decision.allowed ==> Used(o.next) >= UsedIn(state, w))
  {
    if st.SlidingWindow? {
      SlidingStep(st, state, now);
    }
  }

  lemma SlidingStep(st: Strategy, state: Option<State>, now: real)
    requires Valid(st) && st.SlidingWindow? && (state.Some? ==> state.value.Weighted?)
    ensures var o, w := EvaluateSliding(st, state, now), WindowOf(now, st.window);
      && o.next.window == w && o.ttl == st.window * 2
      && (o.decision.allowed ==> o.next.curr == UsedIn(state, w) + 1 <= st.limit)
      && (!o.decision.allowed ==> o.next.curr == UsedIn(state, w))
  {
    var w := WindowOf(now, st.window);
    var carried := Carried(state, w);
    FractionRange(now, st.window);
    Product(carried.0 as real, 1.0 - Fraction(now, st.window));
    assert carried.1 == UsedIn(state, w);
  }

  /** Within one aligned window nothing written in it has expired. */
  lemma SameWindow(t: real, now: real, width: nat)
    requires width >= 1 && WindowOf(t, width) == WindowOf(now, width)
    ensures now < t + width as real
  {
    if now >= t + width as real {
      WindowsApart(t, now, width, 1);
    }
  }

  lemma WindowsInOrder(t: real, now: real, width: nat)
    requires width >= 1 && t <= now
    ensures WindowOf(t, width) <= WindowOf(now, width)
  {
    WindowsApart(t, now, width, 0);
  }

  lemma NextWindowAtMost(t: real, now: real, width: nat)
    requires width >= 1 && now <= t + width as real
    ensures WindowOf(now, width) <= WindowOf(t, width) + 1
  {
    var w := width as real;
    QuotientOfSum(t, w);
    QuotientInOrder(now, t + w, w);
  }

  lemma QuotientInOrder(a: real, b: real, w: real)
    requires w > 0.0 && a <= b
    ensures a / w <= b / w
  {
  }

  lemma QuotientOfSum(t: real, w: real)
    requires w > 0.0
    ensures (t + w) / w == t / w + 1.0
  {
    var q := t / w;
    QuotientOfProduct(t, w);
    Quotient(t + w, q + 1.0, w);
  }

  lemma Quotient(x: real, q: real, w: real)
    requires w > 0.0 && x == q * w
    ensures x / w == q
  {
  }

  // ---- Per aligned window ---------------------------------------------------

  predicate InWindow(plan: Plan, r: Request, k: Key, window: int)
    requires PlanOk(plan) && !plan(k).TokenBucket?
  {
    r.key == k && WindowOf(r.now, plan(k).window) == window
  }

  /** Requests for `k` in one aligned window, admitted by the backend from index `from` on. */
  function AdmittedIn(plan: Plan, capacity: nat, reqs: seq<Request>, k: Key, from: nat, window: int): nat
    requires PlanOk(plan) && !plan(k).TokenBucket? && 1 <= capacity
  {
    if |reqs| <= from then 0
    else
      AdmittedIn(plan, capacity, reqs[..|reqs| - 1], k, from, window)
      + if InWindow(plan, reqs[|reqs| - 1], k, window) && Decided(plan, capacity, reqs).allowed then 1 else 0
  }

  /** The store still knows of the `n` requests admitted in the window, for as long as the window lasts. */
  predicate Counting(plan: Plan, s: Store<State>, k: Key, window: int, n: nat, now: real)
    requires PlanOk(plan) && !plan(k).TokenBucket? && StoreOk(plan, s)
  {
    n > 0 ==>
      var w := WindowOf(now, plan(k).window);
      w >= window && (w == window ==> n <= UsedIn(Found(s, k, now), window))
  }

  /** Serving another key leaves the count, unless it throws it out. */
  lemma OtherCounts(plan: Plan, s: Store<State>, capacity: nat, r: Request, k: Key, window: int, n: nat, now: real)
    requires PlanOk(plan) && !plan(k).TokenBucket? && StoreOk(plan, s) && 1 <= capacity && r.key != k && r.now <= now
    requires StoreOk(plan, Serve(plan(r.key), s, capacity, r).1)
    requires Counting(plan, s, k, window, n, now) && (n > 0 ==> !DropsLive(s, capacity, r.key, r.now, k))
    ensures Counting(plan, Serve(plan(r.key), s, capacity, r).1, k, window, n, now)
  {
    if n > 0 {
      var o := Evaluate(plan(r.key), Found(s, r.key, r.now), r.now);
      InsertKeepsLive(s, capacity, r.key, Entry(o.next, r.now + o.ttl as real), r.now, k);
    }
  }

  /** Serving the key itself: one more counted when admitted in the window, never above the limit. */
  lemma OwnCounts(plan: Plan, s: Store<State>, capacity: nat, r: Request, window: int, n: nat, now: real)
    requires PlanOk(plan) && !plan(r.key).TokenBucket? && StoreOk(plan, s) && 1 <= capacity && r.now <= now
    requires StoreOk(plan, Serve(plan(r.key), s, capacity, r).1)
    requires Counting(plan, s, r.key, window, n, r.now) && n <= plan(r.key).limit
    ensures var d := Serve(plan(r.key), s, capacity, r).0;
      var more := if d.allowed && InWindow(plan, r, r.key, window) then 1 else 0;
      && n + more <= plan(r.key).limit
      && Counting(plan, Serve(plan(r.key), s, capacity, r).1, r.key, window, n + more, now)
  {
    var st := plan(r.key);
    var prior := Found(s, r.key, r.now);
    CountStep(st, prior, r.now);
    WindowsInOrder(r.now, now, st.window);
    var o := Evaluate(st, prior, r.now);
    var e := Entry(o.next, r.now + o.ttl as real);
    InsertEntries(s, capacity, r.key, e, r.now);
    if WindowOf(now, st.window) == WindowOf(r.now, st.window) {
      SameWindow(r.now, now, st.window);
      assert Found(Insert(s, capacity, r.key, e, r.now), r.key, now) == Some(o.next);
    }
  }

  lemma OwnCounted(plan: Plan, capacity: nat, reqs: seq<Request>, from: nat, window: int, now: real)
    requires PlanOk(plan) && 1 <= capacity && |reqs| > from && reqs[|reqs| - 1].now <= now
    requires var k := reqs[|reqs| - 1].key; !plan(k).TokenBucket?
    requires var front, r := reqs[..|reqs| - 1], reqs[|reqs| - 1];
      var n := AdmittedIn(plan, capacity, front, r.key, from, window);
      n <= plan(r.key).limit && Counting(plan, After(plan, capacity, front), r.key, window, n, r.now)
    ensures var k := reqs[|reqs| - 1].key;
      var n := AdmittedIn(plan, capacity, reqs, k, from, window);
      n <= plan(k).limit && Counting(plan, After(plan, capacity, reqs), k, window, n, now)
  {
    var front, r := reqs[..|reqs| - 1], reqs[|reqs| - 1];
    var s := After(plan, capacity, front);
    ServeFacts(plan, s, capacity, r);
    OwnCounts(plan, s, capacity, r, window, AdmittedIn(plan, capacity, front, r.key, from, window), now);
  }

  lemma OtherCounted(plan: Plan, capacity: nat, reqs: seq<Request>, k: Key, from: nat, window: int, now: real)
    requires PlanOk(plan) && !plan(k).TokenBucket? && 1 <= capacity && |reqs| > from && reqs[|reqs| - 1].key != k
    requires KeptSince(plan, capacity, reqs, k, from) && reqs[|reqs| - 1].now <= now
    requires var front := reqs[..|reqs| - 1];
      Counting(plan, After(plan, capacity, front), k, window,
        AdmittedIn(plan, capacity, front, k, from, window), now)
    ensures AdmittedIn(plan, capacity, reqs, k, from, window)
      == AdmittedIn(plan, capacity, reqs[..|reqs| - 1], k, from, window)
    ensures Counting(plan, After(plan, capacity, reqs), k, window,
      AdmittedIn(plan, capacity, reqs, k, from, window), now)
  {
    var front, r := reqs[..|reqs| - 1], reqs[|reqs| - 1];
    var s := After(plan, capacity, front);
    ServeFacts(plan, s, capacity, r);
    OtherCounts(plan, s, capacity, r, k, window, AdmittedIn(plan, capacity, front, k, from, window), now);
  }

  lemma {:induction false} CountingHolds(plan: Plan, capacity: nat, reqs: seq<Request>, k: Key, from: nat, window: int,
                                         now: real)
    requires PlanOk(plan) && !plan(k).TokenBucket? && 1 <= capacity && Ordered(reqs)
    requires KeptSince(plan, capacity, reqs, k, from) && (reqs != [] ==> reqs[|reqs| - 1].now <= now)
    ensures AdmittedIn(plan, capacity, reqs, k, from, window) <= plan(k).limit
    ensures Counting(plan, After(plan, capacity, reqs), k, window,
      AdmittedIn(plan, capacity, reqs, k, from, window), now)
  {
    if |reqs| > from {
      var front, r := reqs[..|reqs| - 1], reqs[|reqs| - 1];
      CountingHolds(plan, capacity, front, k, from, window, if r.key == k then r.now else now);
      if r.key == k {
        OwnCounted(plan, capacity, reqs, from, window, now);
      } else {
        OtherCounted(plan, capacity, reqs, k, from, window, now);
      }
    }
  }

  /** In an aligned window at most the limit is admitted, as long as no live state of the key is thrown out. */
  lemma WindowBound(plan: Plan, capacity: nat, reqs: seq<Request>, k: Key, from: nat, window: int)
    requires PlanOk(plan) && !plan(k).TokenBucket? && 1 <= capacity && Ordered(reqs)
    requires KeptSince(plan, capacity, reqs, k, from)
    ensures AdmittedIn(plan, capacity, reqs, k, from, window) <= plan(k).limit
  {
    CountingHolds(plan, capacity, reqs, k, from, window, if reqs == [] then 0.0 else reqs[|reqs| - 1].now);
  }

  // ---- Over any stretch -----------------------------------------------------

  /** Every request from `from` on falls in one of two neighbouring windows. */
  predicate InTwoWindows(reqs: seq<Request>, from: nat, width: nat, window: int)
    requires width >= 1
  {
    forall i :: from <= i < |reqs| ==> window <= WindowOf(reqs[i].now, width) <= window + 1
  }

  lemma {:induction false} TwoWindowsSum(plan: Plan, capacity: nat, reqs: seq<Request>, k: Key, from: nat, window: int)
    requires PlanOk(plan) && !plan(k).TokenBucket? && 1 <= capacity
    requires InTwoWindows(reqs, from, plan(k).window, window)
    ensures Admitted(plan, capacity, reqs, k, from)
      == AdmittedIn(plan, capacity, reqs, k, from, window) + AdmittedIn(plan, capacity, reqs, k, from, window + 1)
  {
    if |reqs| > from {
      var front := reqs[..|reqs| - 1];
      assert InTwoWindows(front, from, plan(k).window, window);
      TwoWindowsSum(plan, capacity, front, k, from, window);
    }
  }

  lemma StretchInTwoWindows(reqs: seq<Request>, from: nat, width: nat)
    requires width >= 1 && from < |reqs| && Ordered(reqs)
    requires reqs[|reqs| - 1].now <= reqs[from].now + width as real
    ensures InTwoWindows(reqs, from, width, WindowOf(reqs[from].now, width))
  {
    forall i | from <= i < |reqs|
      ensures WindowOf(reqs[from].now, width) <= WindowOf(reqs[i].now, width) <= WindowOf(reqs[from].now, width) + 1
    {
      assert reqs[from].now <= reqs[i].now <= reqs[|reqs| - 1].now;
      WindowsInOrder(reqs[from].now, reqs[i].now, width);
      NextWindowAtMost(reqs[from].now, reqs[i].now, width);
    }
  }

  /** Over any stretch no longer than a window, wherever it starts: at most twice the limit. */
  lemma StretchBound(plan: Plan, capacity: nat, reqs: seq<Request>, k: Key, from: nat)
    requires PlanOk(plan) && !plan(k).TokenBucket? && 1 <= capacity && from < |reqs| && Ordered(reqs)
    requires KeptSince(plan, capacity, reqs, k, from)
    requires reqs[|reqs| - 1].now <= reqs[from].now + plan(k).window as real
    ensures Admitted(plan, capacity, reqs, k, from) <= 2 * plan(k).limit
  {
    var window := WindowOf(reqs[from].now, plan(k).window);
    StretchInTwoWindows(reqs, from, plan(k).window);
    TwoWindowsSum(plan, capacity, reqs, k, from, window);
    WindowBound(plan, capacity, reqs, k, from, window);
    WindowBound(plan, capacity, reqs, k, from, window + 1);
  }

  lemma TwoMoments(st: Strategy, early: real, later: real)
    requires st == FixedWindow(1, 60) && early == 59.0 && later == 60.0
    ensures var o := Evaluate(st, None, early); o.decision.allowed && o.next == Counted(0, 1) && o.ttl == 60
    ensures Evaluate(st, Some(Counted(0, 1)), later).decision.allowed
  {
    Boundary(1, 60, later);
    assert 0.0 <= early / 60.0 < 1.0 && WindowOf(early, 60) == 0;
  }

  lemma NothingFound(plan: Plan, capacity: nat, k: Key, now: real)
    requires PlanOk(plan) && 1 <= capacity
    ensures Found(After(plan, capacity, []), k, now) == None
  {
  }

  lemma FirstDecided(plan: Plan, capacity: nat, reqs: seq<Request>, a: Request)
    requires PlanOk(plan) && 1 <= capacity && reqs == [a]
    ensures Decided(plan, capacity, reqs) == Evaluate(plan(a.key), None, a.now).decision
  {
    assert [] + [a] == reqs;
    DecidedLast(plan, capacity, [], a);
    NothingFound(plan, capacity, a.key, a.now);
  }

  lemma FirstStored(plan: Plan, capacity: nat, reqs: seq<Request>, a: Request)
    requires PlanOk(plan) && 1 <= capacity && reqs == [a]
    ensures var o := Evaluate(plan(a.key), None, a.now);
      StoredAt(plan, capacity, reqs, 0) == Entry(o.next, a.now + o.ttl as real)
  {
    assert reqs[..0] == [];
    NothingFound(plan, capacity, a.key, a.now);
  }

  lemma StoredFound(plan: Plan, capacity: nat, reqs: seq<Request>, a: Request)
    requires PlanOk(plan) && 1 <= capacity && reqs == [a]
    ensures var s := After(plan, capacity, reqs);
      a.key in s.entries && s.entries[a.key] == StoredAt(plan, capacity, reqs, 0)
  {
    var e := LastStored(plan, capacity, reqs);
    InsertEntries(After(plan, capacity, reqs[..|reqs| - 1]), capacity, a.key, e, a.now);
  }

  lemma FirstOfTwo(plan: Plan, a: Request, later: real)
    requires PlanOk(plan) && plan(a.key) == FixedWindow(1, 60) && a.now == 59.0 && later == 60.0
    ensures Decided(plan, 1, [a]).allowed && Found(After(plan, 1, [a]), a.key, later) == Some(Counted(0, 1))
  {
    FirstDecided(plan, 1, [a], a);
    FirstStored(plan, 1, [a], a);
    StoredFound(plan, 1, [a], a);
    TwoMoments(plan(a.key), a.now, later);
    assert StoredAt(plan, 1, [a], 0) == Entry(Counted(0, 1), 119.0);
  }

  lemma SecondOfTwo(plan: Plan, a: Request, b: Request)
    requires PlanOk(plan) && plan(a.key) == FixedWindow(1, 60) && a.now == 59.0 && b == Request(a.key, 60.0)
    ensures Decided(plan, 1, [a] + [b]).allowed
  {
    FirstOfTwo(plan, a, b.now);
    TwoMoments(plan(a.key), a.now, b.now);
    DecidedLast(plan, 1, [a], b);
  }

  lemma AdmittedMore(plan: Plan, capacity: nat, reqs: seq<Request>, last: Request)
    requires PlanOk(plan) && 1 <= capacity && Decided(plan, capacity, reqs + [last]).allowed
    ensures Admitted(plan, capacity, reqs + [last], last.key, 0) == Admitted(plan, capacity, reqs, last.key, 0) + 1
  {
    assert (reqs + [last])[..|reqs|] == reqs;
  }

  /** Twice the limit is reached: one request per window, one second before a boundary and one on it. */
  lemma StretchReached(plan: Plan, k: Key)
    requires PlanOk(plan) && plan(k) == FixedWindow(1, 60)
    ensures Admitted(plan, 1, [Request(k, 59.0), Request(k, 60.0)], k, 0) == 2 * plan(k).limit
  {
    var a, b := Request(k, 59.0), Request(k, 60.0);
    FirstOfTwo(plan, a, b.now);
    SecondOfTwo(plan, a, b);
    assert [] + [a] == [a] && [a] + [b] == [a, b];
    AdmittedMore(plan, 1, [], a);
    AdmittedMore(plan, 1, [a], b);
  }

  // ---- Waiting as told, in a run --------------------------------------------

  /** A client without a live state is admitted. */
  lemma FreshAdmitted(st: Strategy, now: real)
    requires Valid(st)
    ensures Evaluate(st, None, now).decision.allowed
  {
    if st.SlidingWindow? {
      CarriedCounts(WindowOf(now, st.window), 0, 0);
      assert 0.0 * (1.0 - Fraction(now, st.window)) == 0.0;
    }
  }

  /** No request behind index `n` is for `k`. */
  predicate LastAt(reqs: seq<Request>, k: Key, n: nat) {
    n < |reqs| && reqs[n].key == k && forall i :: n < i < |reqs| ==> reqs[i].key != k
  }

  /** What the request at index `n` stored. */
  function StoredAt(plan: Plan, capacity: nat, reqs: seq<Request>, n: nat): Entry<State>
    requires PlanOk(plan) && 1 <= capacity && n < |reqs|
  {
    var s, r := After(plan, capacity, reqs[..n]), reqs[n];
    var o := Evaluate(plan(r.key), Found(s, r.key, r.now), r.now);
    Entry(o.next, r.now + o.ttl as real)
  }

  lemma LastStored(plan: Plan, capacity: nat, reqs: seq<Request>) returns (e: Entry<State>)
    requires PlanOk(plan) && 1 <= capacity && reqs != []
    ensures var front, r := reqs[..|reqs| - 1], reqs[|reqs| - 1];
      && e == StoredAt(plan, capacity, reqs, |reqs| - 1)
      && After(plan, capacity, reqs) == Insert(After(plan, capacity, front), capacity, r.key, e, r.now)
  {
    e := StoredAt(plan, capacity, reqs, |reqs| - 1);
  }

  lemma {:induction false} EntryStays(plan: Plan, capacity: nat, reqs: seq<Request>, k: Key, n: nat, now: real)
    requires PlanOk(plan) && 1 <= capacity && Ordered(reqs) && LastAt(reqs, k, n)
    requires KeptSince(plan, capacity, reqs, k, n) && reqs[|reqs| - 1].now <= now
    ensures Tracks(After(plan, capacity, reqs), map[k := StoredAt(plan, capacity, reqs, n)], k, now)
  {
    var front, r := reqs[..|reqs| - 1], reqs[|reqs| - 1];
    var s := After(plan, capacity, front);
    var stored := LastStored(plan, capacity, reqs);
    if n == |reqs| - 1 {
      InsertTracksSelf(s, capacity, k, stored, r.now, now);
    } else {
      StoredEarlier(plan, capacity, reqs, n);
      EntryStays(plan, capacity, front, k, n, r.now);
      OtherTracks(s, StoredAt(plan, capacity, reqs, n), k, capacity, r, stored, now);
    }
  }

  lemma StoredEarlier(plan: Plan, capacity: nat, reqs: seq<Request>, n: nat)
    requires PlanOk(plan) && 1 <= capacity && n < |reqs| - 1
    ensures StoredAt(plan, capacity, reqs[..|reqs| - 1], n) == StoredAt(plan, capacity, reqs, n)
  {
    var front := reqs[..|reqs| - 1];
    assert front[..n] == reqs[..n] && front[n] == reqs[n];
  }

  lemma InsertTracksSelf(s: Store<State>, capacity: nat, k: Key, e: Entry<State>, now: real, later: real)
    requires WellFormed(s) && 1 <= capacity
    ensures Tracks(Insert(s, capacity, k, e, now), map[k := e], k, later)
  {
    InsertEntries(s, capacity, k, e, now);
  }

  lemma OtherTracks(s: Store<State>, e: Entry<State>, k: Key, capacity: nat, r: Request, stored: Entry<State>,
                    now: real)
    requires WellFormed(s) && 1 <= capacity && r.key != k && r.now <= now
    requires Tracks(s, map[k := e], k, r.now) && !DropsLive(s, capacity, r.key, r.now, k)
    ensures Tracks(Insert(s, capacity, r.key, stored, r.now), map[k := e], k, now)
  {
    InsertTracks(s, map[k := e], k, r.now, capacity, r.key, stored, r.now);
  }

  /** What a refused request stored lets the client in again at the time it was told. */
  lemma StoredAdmits(plan: Plan, capacity: nat, reqs: seq<Request>, n: nat, later: real)
    requires PlanOk(plan) && 1 <= capacity && Ordered(reqs) && n < |reqs| && 0.0 <= reqs[n].now
    requires !plan(reqs[n].key).SlidingWindow?
    requires var d := Decided(plan, capacity, reqs[..n + 1]);
      !d.allowed && later >= reqs[n].now + d.retryAfter as real
    ensures Fits(plan(reqs[n].key), StoredAt(plan, capacity, reqs, n).value)
    ensures Evaluate(plan(reqs[n].key), Some(StoredAt(plan, capacity, reqs, n).value), later).decision.allowed
  {
    var front, r := reqs[..n], reqs[n];
    assert reqs[..n + 1][..n] == front;
    assert forall i :: 0 <= i < n ==> front[i] == reqs[i];
    AfterWritten(plan, capacity, front, r.now);
    var s, st := After(plan, capacity, front), plan(r.key);
    var state := Found(s, r.key, r.now);
    var t := if state.Some? then Stamp(st, s.entries[r.key]) else r.now;
    assert state.Some? ==> EntryWritten(st, s.entries[r.key], r.now);
    RetryAdmitted(st, state, t, r.now, later);
  }

  lemma OrderedFront(reqs: seq<Request>, last: Request)
    requires Ordered(reqs + [last])
    ensures Ordered(reqs) && (reqs != [] ==> reqs[|reqs| - 1].now <= last.now)
  {
    var all := reqs + [last];
    assert forall i :: 0 <= i < |reqs| ==> all[i] == reqs[i];
    assert all[|reqs|] == last;
  }

  lemma DecidedLast(plan: Plan, capacity: nat, reqs: seq<Request>, last: Request)
    requires PlanOk(plan) && 1 <= capacity
    ensures Decided(plan, capacity, reqs + [last])
      == Evaluate(plan(last.key), Found(After(plan, capacity, reqs), last.key, last.now), last.now).decision
  {
    assert (reqs + [last])[..|reqs|] == reqs;
  }

  /** A client that was refused and comes back no sooner than it was told is admitted, whoever else was served in
      between: a fixed window or a token bucket, as long as its live state was not thrown out. */
  lemma RetryAdmittedInRun(plan: Plan, capacity: nat, reqs: seq<Request>, n: nat, last: Request)
    requires PlanOk(plan) && 1 <= capacity && Ordered(reqs + [last]) && 0.0 <= last.now
    requires LastAt(reqs, last.key, n) && 0.0 <= reqs[n].now && !plan(last.key).SlidingWindow?
    requires KeptSince(plan, capacity, reqs, last.key, n)
    requires var d := Decided(plan, capacity, reqs[..n + 1]);
      !d.allowed && last.now >= reqs[n].now + d.retryAfter as real
    ensures Decided(plan, capacity, reqs + [last]).allowed
  {
    OrderedFront(reqs, last);
    EntryStays(plan, capacity, reqs, last.key, n, last.now);
    StoredAdmits(plan, capacity, reqs, n, last.now);
    FreshAdmitted(plan(last.key), last.now);
    DecidedLast(plan, capacity, reqs, last);
  }
}
