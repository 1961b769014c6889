/** The drift-controlled loop of `Scheduler.run_daemon` (src/engine/scheduler.py). */
module Daemon {

  /** One cycle as the environment decides it: how long the batch (with the maintenance hook)
      takes, and by how much the event loop is late in starting the cycle, after a sleep or
      after the previous cycle.  Exact sleeps are `late == 0.0`. */
  datatype Cycle = Cycle(duration: real, late: real)

  predicate Plausible(cs: seq<Cycle>) {
    forall i | 0 <= i < |cs| :: cs[i].late >= 0.0
  }

  function Max(a: real, b: real): real { if a < b then b else a }

  /** The grid of planned start times. */
  function Grid(t0: real, interval: real, k: int): real { t0 + k as real * interval }

  lemma GridGrows(t0: real, interval: real, k: int)
    ensures Grid(t0, interval, 0) == t0
    ensures Grid(t0, interval, k + 1) == Grid(t0, interval, k) + interval
  {
    assert (k + 1) as real * interval == k as real * interval + interval;
  }

  /** When cycle `k` starts. */
  function StartOf(t0: real, interval: real, cs: seq<Cycle>, k: nat): real
    requires k < |cs|
  {
    cs[k].late +
    if k == 0 then t0
    else Max(Grid(t0, interval, k), StartOf(t0, interval, cs, k - 1) + cs[k - 1].duration)
  }

  class Scheduler {
    var running: bool

    constructor ()
      ensures !running
    {
      running := false;
    }

    /** Runs until it is cancelled, in the cycle that follows those of `cs`; the cancellation
        is re-raised in the source.  `starts` are the readings at the top of the cycles. */
    method RunDaemon(t0: real, interval: real, cs: seq<Cycle>) returns (starts: seq<real>)
      modifies this
      ensures !running
      ensures |starts| == |cs|
      ensures forall k | 0 <= k < |cs| :: starts[k] == StartOf(t0, interval, cs, k)
    {
      running := true;
      starts := [];
      var nextRun, now := t0, t0;
      while running
        invariant |starts| <= |cs|
        invariant !running ==> |starts| == |cs|
        invariant forall k | 0 <= k < |starts| :: starts[k] == StartOf(t0, interval, cs, k)
        invariant nextRun == Grid(t0, interval, |starts|)
        invariant running && |starts| < |cs| ==>
          now + cs[|starts|].late == StartOf(t0, interval, cs, |starts|)
        decreases running, |cs| - |starts|
      {
        GridGrows(t0, interval, |starts|);
        if |starts| == |cs| {
          running := false;
        } else {
          var cycle := cs[|starts|];
          nextRun := nextRun + interval;
          var cycleStart := now + cycle.late;
          starts := starts + [cycleStart];
          now := cycleStart + cycle.duration;
          var sleepTime := nextRun - now;
          if sleepTime > 0.0 {
            now := now + sleepTime;
          }
        }
      }
    }
  }

  // ----- the max-plus closed form -----

  /** The time spent from the start of cycle `j` to the earliest start of cycle `k`, if no
      cycle in between ever waits. */
  function Work(cs: seq<Cycle>, j: nat, k: nat): real
    requires j <= k < |cs|
  {
    if j == k then 0.0 else Work(cs, j, k - 1) + cs[k - 1].duration + cs[k].late
  }

  /** The start of cycle `k` if the loop last waited for the grid just before cycle `j`. */
  function Candidate(t0: real, interval: real, cs: seq<Cycle>, j: nat, k: nat): real
    requires j <= k < |cs|
  {
    Grid(t0, interval, j) + cs[j].late + Work(cs, j, k)
  }

  /** The start of a cycle is the maximum, over all earlier grid points, of that grid point
      plus all the work since; the lemma returns a grid point that attains it. */
  lemma {:induction false} ClosedForm(t0: real, interval: real, cs: seq<Cycle>, k: nat) returns (last: nat)
    requires k < |cs|
    ensures forall j | 0 <= j <= k :: Candidate(t0, interval, cs, j, k) <= StartOf(t0, interval, cs, k)
    ensures last <= k && Candidate(t0, interval, cs, last, k) == StartOf(t0, interval, cs, k)
  {
    GridGrows(t0, interval, 0);
    if k == 0 {
      return 0;
    }
    last := ClosedForm(t0, interval, cs, k - 1);
    forall j | 0 <= j < k
      ensures Candidate(t0, interval, cs, j, k)
           == Candidate(t0, interval, cs, j, k - 1) + cs[k - 1].duration + cs[k].late
    {}
    if Candidate(t0, interval, cs, last, k - 1) + cs[k - 1].duration <= Grid(t0, interval, k) {
      last := k;
    }
  }

  /** No cycle starts before its grid point, however short the batches are. */
  lemma {:induction false} NeverEarly(t0: real, interval: real, cs: seq<Cycle>, k: nat)
    requires k < |cs| && Plausible(cs)
    ensures StartOf(t0, interval, cs, k) >= Grid(t0, interval, k)
  {
    var _ := ClosedForm(t0, interval, cs, k);
    assert Candidate(t0, interval, cs, k, k) <= StartOf(t0, interval, cs, k);
  }

  // ----- backlog -----

  function Lateness(t0: real, interval: real, cs: seq<Cycle>, k: nat): real
    requires k < |cs|
  {
    StartOf(t0, interval, cs, k) - Grid(t0, interval, k)
  }

  /** Lateness is a waiting-time recursion: it carries over, less the slack of the cycle. */
  lemma LatenessStep(t0: real, interval: real, cs: seq<Cycle>, k: nat)
    requires k + 1 < |cs|
    ensures Lateness(t0, interval, cs, k + 1)
         == Max(0.0, Lateness(t0, interval, cs, k) - (interval - cs[k].duration)) + cs[k + 1].late
  {
    GridGrows(t0, interval, k);
  }

  function Gained(n: nat, rate: real): real { n as real * rate }

  lemma GainedGrows(n: nat, rate: real)
    ensures Gained(0, rate) == 0.0 && Gained(n + 1, rate) == Gained(n, rate) + rate
  {
    assert (n + 1) as real * rate == n as real * rate + rate;
  }

  /** The batch of cycle `i` leaves at least `slack` of the interval, and the next cycle is
      late by at most `jitter`. */
  predicate Leaves(interval: real, cs: seq<Cycle>, i: nat, slack: real, jitter: real)
    requires i + 1 < |cs|
  {
    cs[i].duration <= interval - slack && cs[i + 1].late <= jitter
  }

  predicate Slack(interval: real, cs: seq<Cycle>, k: nat, n: nat, slack: real, jitter: real) {
    k + n < |cs| && forall i | k <= i < k + n :: Leaves(interval, cs, i, slack, jitter)
  }

  lemma {:induction false} BacklogShrinks(
    t0: real, interval: real, cs: seq<Cycle>, k: nat, n: nat, slack: real, jitter: real)
    requires Slack(interval, cs, k, n, slack, jitter) && 0.0 <= jitter <= slack
    ensures Lateness(t0, interval, cs, k + n)
         <= Max(jitter, Lateness(t0, interval, cs, k) - Gained(n, slack - jitter))
      || n == 0
  {
    if n > 0 {
      GainedGrows(n - 1, slack - jitter);
      GainedGrows(0, slack - jitter);
      BacklogShrinks(t0, interval, cs, k, n - 1, slack, jitter);
      assert Leaves(interval, cs, k + n - 1, slack, jitter);
      LatenessStep(t0, interval, cs, k + n - 1);
    }
  }

  /** Backlog drains: with lateness `b` at cycle `k`, once `n` batches have each left the
      slack, with `n` times the slack at least `b`, the cycle starts exactly on the grid; and
      with event loop jitter, within that jitter of the grid.  It stays there as long as the
      batches keep leaving the slack, since `n` may be any number that is large enough. */
  lemma BacklogDrains(
    t0: real, interval: real, cs: seq<Cycle>, k: nat, n: nat, slack: real, jitter: real)
    requires Plausible(cs) && n > 0
    requires Slack(interval, cs, k, n, slack, jitter) && 0.0 <= jitter <= slack
    requires n as real * (slack - jitter) >= Lateness(t0, interval, cs, k) - jitter
    ensures 0.0 <= Lateness(t0, interval, cs, k + n) <= jitter
  {
    BacklogShrinks(t0, interval, cs, k, n, slack, jitter);
    NeverEarly(t0, interval, cs, k + n);
  }

  predicate LeavesExactly(interval: real, cs: seq<Cycle>, i: nat, slack: real)
    requires i + 1 < |cs|
  {
    cs[i].duration == interval - slack && cs[i + 1].late == 0.0
  }

  /** The number of cycles needed is exact: when every batch leaves just the slack and sleeps
      are exact, the cycle is back on the grid if and only if `n` slacks make up the backlog. */
  lemma {:induction false} DrainTimeIsExact(
    t0: real, interval: real, cs: seq<Cycle>, k: nat, n: nat, slack: real)
    requires k + n < |cs| && slack >= 0.0
    requires forall i | k <= i < k + n :: LeavesExactly(interval, cs, i, slack)
    requires Lateness(t0, interval, cs, k) >= 0.0
    ensures Lateness(t0, interval, cs, k + n)
         == Max(0.0, Lateness(t0, interval, cs, k) - Gained(n, slack))
  {
    GainedGrows(0, slack);
    if n > 0 {
      GainedGrows(n - 1, slack);
      DrainTimeIsExact(t0, interval, cs, k, n - 1, slack);
      assert LeavesExactly(interval, cs, k + n - 1, slack);
      LatenessStep(t0, interval, cs, k + n - 1);
    }
  }
}
