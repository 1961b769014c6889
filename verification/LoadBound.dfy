/** How much load one breaker lets through to a dependency that never answers:
    `CircuitBreaker.call` under the semaphore of `CheckResilience.execute`
    (runtime/resilience.py). */
module LoadBound {
  import opened Resilience
  import opened Traces

  /** Breaker and limiter together, with the tallies the bound speaks of.
      `inflight` calls hold a permit, `opening` is the time of the latest change from CLOSED to
      OPEN, and `succeeded` counts the successes of the whole run.  The others count since the
      latest success: admissions, the calls then in flight included, cancelled calls, and
      `episodes`, the changes from OPEN to HALF_OPEN. */
  datatype Load = Load(
    breaker: State,
    inflight: int,
    admissions: int,
    cancelled: nat,
    succeeded: nat,
    episodes: nat,
    opening: real,
    now: real)

  const IDLE := Load(INITIAL, 0, 0, 0, 0, 0, 0.0, 0.0)

  /** Every entry needs one of `m` permits, only calls in flight complete, and the clock does
      not run backwards. */
  predicate Allowed(m: nat, l: Load, e: Event) {
    && l.now <= e.at
    && (if e.Enter? then l.inflight < m else l.inflight > 0)
  }

  function Next(c: Config, l: Load, e: Event): Load {
    var b := Step(c, l.breaker, e);
    match e
    case Enter(t) =>
      var l' := l.(breaker := b, now := t);
      if !Admits(c, l.breaker, t) then l'
      else
        var reopened := if l.breaker.circuit == Open then 1 else 0;
        l'.(inflight := l.inflight + 1, admissions := l.admissions + 1,
            episodes := l.episodes + reopened)
    case Complete(Returned, t) =>
      l.(breaker := b, now := t, inflight := l.inflight - 1, succeeded := l.succeeded + 1,
         admissions := l.inflight - 1, cancelled := 0, episodes := 0)
    case Complete(outcome, t) =>
      l.(breaker := b, now := t, inflight := l.inflight - 1,
         opening := if l.breaker.circuit == Closed && b.circuit == Open then t else l.opening,
         cancelled := l.cancelled + (if outcome == Cancelled then 1 else 0))
  }

  function After(c: Config, tr: Trace): Load {
    match tr
    case Start => IDLE
    case Then(before, e) => Next(c, After(c, before), e)
  }

  predicate Legal(c: Config, m: nat, tr: Trace) {
    tr.Then? ==> Legal(c, m, tr.before) && Allowed(m, After(c, tr.before), tr.last)
  }

  /** The tallies are kept beside the breaker, not in it. */
  lemma {:induction false} TalliesAreGhost(c: Config, tr: Trace)
    ensures After(c, tr).breaker == Run(c, tr)
  {
    if tr.Then? {
      TalliesAreGhost(c, tr.before);
    }
  }

  /** The admissions allowed after `k` half-open episodes. */
  function Budget(c: Config, m: nat, k: int): int { Trip(c) + m - 1 + m * k }

  /** The time before which the `k`-th half-open episode cannot begin. */
  function EpisodeTime(c: Config, opening: real, k: int): real {
    opening + k as real * c.resetTimeout
  }

  lemma BudgetGrows(c: Config, m: nat, k: int)
    ensures Budget(c, m, 0) == Trip(c) + m - 1
    ensures Budget(c, m, k + 1) == Budget(c, m, k) + m
  {
    assert m * (k + 1) == m * k + m;
  }

  lemma EpisodeTimeGrows(c: Config, opening: real, k: int)
    ensures EpisodeTime(c, opening, 0) == opening
    ensures EpisodeTime(c, opening, k + 1) == EpisodeTime(c, opening, k) + c.resetTimeout
  {
    assert (k + 1) as real * c.resetTimeout == k as real * c.resetTimeout + c.resetTimeout;
  }

  ghost predicate WithinBudget(c: Config, m: nat, l: Load) {
    var s, k, a := l.breaker, l.episodes, l.admissions - l.cancelled;
    && 0 <= l.inflight <= m && 0 <= s.failures
    && (s.circuit == Closed <==> s.failures < Trip(c))
    && match s.circuit
       case Closed => k == 0 && a == s.failures + l.inflight
       case Open => a <= Budget(c, m, k)
       case HalfOpen => k >= 1 && a <= Budget(c, m, k - 1) + l.inflight
  }

  ghost predicate Spaced(c: Config, l: Load) {
    var s, k := l.breaker, l.episodes;
    && (s.circuit == Closed ==> k == 0)
    && (s.circuit == HalfOpen ==> k > 0)
    && (s.circuit == Open ==> EpisodeTime(c, l.opening, k) <= s.lastFailureTime <= l.now)
    && (k > 0 ==> l.now > EpisodeTime(c, l.opening, k))
  }

  lemma LoadStep(c: Config, m: nat, l: Load, e: Event)
    requires WithinBudget(c, m, l) && Spaced(c, l) && Allowed(m, l, e)
    ensures WithinBudget(c, m, Next(c, l, e)) && Spaced(c, Next(c, l, e))
  {
    BudgetGrows(c, m, l.episodes);
    BudgetGrows(c, m, l.episodes - 1);
    EpisodeTimeGrows(c, l.opening, l.episodes);
    EpisodeTimeGrows(c, e.at, 0);
  }

  lemma {:induction false} LoadInvariant(c: Config, m: nat, tr: Trace)
    requires Legal(c, m, tr)
    ensures WithinBudget(c, m, After(c, tr)) && Spaced(c, After(c, tr))
  {
    if tr.Then? {
      LoadInvariant(c, m, tr.before);
      LoadStep(c, m, After(c, tr.before), tr.last);
    }
  }

  /** However long an outage lasts, that is, since the latest success in any run with at most
      `m` calls in flight: the number of admissions, the calls then in flight included, is
      bounded by the threshold, the concurrency, `m` for each half-open episode, and the calls
      that were cancelled; and the episodes are more than the reset timeout apart, so the time
      since the circuit opened bounds their number. */
  lemma LoadUnderTotalFailure(c: Config, m: nat, tr: Trace, l: Load)
    requires Legal(c, m, tr) && l == After(c, tr)
    ensures l.admissions <= Trip(c) + m - 1 + m * l.episodes + l.cancelled
    ensures l.episodes > 0 ==> l.episodes as real * c.resetTimeout < l.now - l.opening
  {
    assert WithinBudget(c, m, l) && Spaced(c, l) by {
      LoadInvariant(c, m, tr);
    }
    LoadConclusion(c, m, l);
  }

  lemma LoadConclusion(c: Config, m: nat, l: Load)
    requires WithinBudget(c, m, l) && Spaced(c, l)
    ensures l.admissions <= Trip(c) + m - 1 + m * l.episodes + l.cancelled
    ensures l.episodes > 0 ==> l.episodes as real * c.resetTimeout < l.now - l.opening
  {
    var k := l.episodes;
    assert l.admissions - l.cancelled <= Budget(c, m, k) by {
      BudgetGrows(c, m, k as int - 1);
    }
  }

  // ----- the bound is attained -----

  /** `tr`, followed by `n` times the event `e`. */
  function Repeat(tr: Trace, e: Event, n: nat): Trace {
    if n == 0 then tr else Then(Repeat(tr, e, n - 1), e)
  }

  function Burst(tr: Trace, m: nat, t: real): Trace {
    Repeat(Repeat(tr, Enter(t), m), Complete(Raised, t), m)
  }

  function Warmup(n: nat): Trace {
    if n == 0 then Start else Then(Then(Warmup(n - 1), Enter(0.0)), Complete(Raised, 0.0))
  }

  function Gap(c: Config): (g: real)
    ensures g > c.resetTimeout && g > 0.0
  {
    if c.resetTimeout < 0.0 then 1.0 else c.resetTimeout + 1.0
  }

  function BurstTime(c: Config, k: nat): real {
    if k == 0 then 0.0 else BurstTime(c, k - 1) + Gap(c)
  }

  /** A run that exhausts the budget: all but one of the failures the circuit tolerates, one
      call after the other, then `k + 1` bursts of `m` concurrent failing calls, each burst
      just after the reset timeout of the one before it. */
  function Worst(c: Config, m: nat, k: nat): Trace {
    Burst(if k == 0 then Warmup(Trip(c) - 1) else Worst(c, m, k - 1), m, BurstTime(c, k))
  }

  lemma {:induction false} Entering(c: Config, m: nat, tr: Trace, n: nat, t: real)
    requires Legal(c, m, tr)
    requires var l := After(c, tr); l.now <= t && l.inflight + n <= m && Admits(c, l.breaker, t)
    ensures var l, now := After(c, tr), After(c, Repeat(tr, Enter(t), n));
      var reopened := n > 0 && l.breaker.circuit == Open;
      && Legal(c, m, Repeat(tr, Enter(t), n))
      && now == l.(
         breaker := l.breaker.(circuit := if reopened then HalfOpen else l.breaker.circuit),
         inflight := l.inflight + n, admissions := l.admissions + n,
         episodes := l.episodes + (if reopened then 1 else 0),
         now := if n > 0 then t else l.now)
  {
    if n > 0 {
      Entering(c, m, tr, n - 1, t);
    }
  }

  lemma {:induction false} Failing(c: Config, m: nat, tr: Trace, n: nat, t: real)
    requires Legal(c, m, tr)
    requires var l := After(c, tr);
      l.now <= t && l.inflight >= n && l.breaker.failures + 1 >= c.failureThreshold
    ensures var l, now := After(c, tr), After(c, Repeat(tr, Complete(Raised, t), n));
      && Legal(c, m, Repeat(tr, Complete(Raised, t), n))
      && now == l.(breaker := now.breaker, inflight := l.inflight - n, now := now.now, opening := now.opening)
      && now.breaker.failures >= l.breaker.failures
      && (n == 0 ==> now == l)
      && (n > 0 ==> now.breaker.circuit == Open && now.breaker.lastFailureTime == now.now == t)
  {
    if n > 0 {
      Failing(c, m, tr, n - 1, t);
    }
  }

  /** A burst on an idle limiter: all `m` calls are let in, and all of them fail. */
  lemma Bursting(c: Config, m: nat, tr: Trace, t: real)
    requires m >= 1 && Legal(c, m, tr)
    requires var l := After(c, tr);
      && l.now <= t && l.inflight == 0
      && Admits(c, l.breaker, t) && l.breaker.failures + 1 >= c.failureThreshold
    ensures var l, now := After(c, tr), After(c, Burst(tr, m, t));
      && Legal(c, m, Burst(tr, m, t))
      && now == l.(breaker := now.breaker, now := t, opening := now.opening,
                   admissions := l.admissions + m,
                   episodes := l.episodes + if l.breaker.circuit == Open then 1 else 0)
      && now.breaker.circuit == Open && now.breaker.lastFailureTime == t
      && now.breaker.failures >= l.breaker.failures
  {
    Entering(c, m, tr, m, t);
    Failing(c, m, Repeat(tr, Enter(t), m), m, t);
  }

  lemma {:induction false} WarmingUp(c: Config, m: nat, n: nat)
    requires m >= 1 && n < Trip(c)
    ensures Legal(c, m, Warmup(n))
    ensures After(c, Warmup(n)) == IDLE.(breaker := INITIAL.(failures := n), admissions := n)
  {
    if n > 0 {
      WarmingUp(c, m, n - 1);
    }
  }

  ghost predicate Exhausted(c: Config, m: nat, k: nat, l: Load) {
    && l.now == BurstTime(c, k) && l.inflight == 0 && l.succeeded == 0 && l.cancelled == 0
    && l.episodes == k && l.admissions == Budget(c, m, k)
    && l.breaker.circuit == Open && l.breaker.lastFailureTime == l.now
    && l.breaker.failures + 1 >= c.failureThreshold
  }

  lemma {:induction false} WorstRun(c: Config, m: nat, k: nat)
    requires m >= 1
    ensures Legal(c, m, Worst(c, m, k)) && Exhausted(c, m, k, After(c, Worst(c, m, k)))
  {
    BudgetGrows(c, m, k as int - 1);
    if k == 0 {
      WarmingUp(c, m, Trip(c) - 1);
      Bursting(c, m, Warmup(Trip(c) - 1), BurstTime(c, 0));
    } else {
      WorstRun(c, m, k - 1);
      Bursting(c, m, Worst(c, m, k - 1), BurstTime(c, k));
    }
  }

  /** For every threshold, concurrency, reset timeout and number of episodes there is a run
      without a success or a cancellation that is admitted exactly as often as the bound
      allows. */
  lemma LoadBoundIsSharp(c: Config, m: nat, k: nat)
    requires m >= 1
    ensures var l := After(c, Worst(c, m, k));
      && Legal(c, m, Worst(c, m, k))
      && l.succeeded == 0 && l.cancelled == 0 && l.episodes == k
      && l.admissions == Trip(c) + m - 1 + m * k
  {
    WorstRun(c, m, k);
  }
}
