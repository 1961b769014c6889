/** `SlackHandler.dispatch` (src/handlers/slack.py) under the retry decorator of
    src/utils/retry.py: a bounded retry loop around a breaker-protected post. */
module SlackDispatch {
  import R = Resilience
  import opened Traces
  import opened Wrappers
  import opened DispatchBreaker

  /** What one attempt meets: the webhook settings are missing, or the post gets an answer,
      fails with an `aiohttp.ClientError`, or ends in any other exception. */
  datatype Post = Misconfigured | Delivered | ClientError | OtherError

  /** One attempt: when it asks the breaker, what the post does, when it ends. */
  datatype Attempt = Attempt(asked: real, post: Post, ended: real)

  /** The exceptions the retry predicate tells apart. */
  datatype Failure = Client | Domain(retryable: bool) | Foreign

  predicate Retryable(f: Failure) {
    f.Client? || (f.Domain? && f.retryable)
  }

  /** How a dispatch ends: by returning normally, after a delivery or because the breaker
      turned an attempt away, or by raising. */
  datatype Result = Sent | TurnedAway | Raised(failure: Failure)

  datatype Report = Report(result: Result, posts: nat, breaker: State)

  function FailureOf(p: Post): Failure
    requires !p.Delivered?
  {
    match p
    case Misconfigured => Domain(false)
    case ClientError => Domain(true)
    case OtherError => Foreign
  }

  /** The breaker after an attempt that it let through. */
  function Told(c: Config, s: State, a: Attempt): State {
    match a.post
    case Delivered => Succeeded(s)
    case ClientError => Failed(c, s, a.ended)
    case _ => s
  }

  /** The whole dispatch; `world` holds one entry for each attempt the retry policy allows. */
  function Dispatched(c: Config, s: State, world: seq<Attempt>): Report
    requires world != []
    decreases |world|
  {
    var a := world[0];
    if !Allows(c, s, a.asked) then Report(TurnedAway, 0, s) else
      var posts := if a.post == Misconfigured then 0 else 1;
      var told := Told(c, Asked(c, s, a.asked), a);
      if a.post == Delivered then Report(Sent, posts, told)
      else if Retryable(FailureOf(a.post)) && |world| > 1 then
        var rest := Dispatched(c, told, world[1..]);
        rest.(posts := posts + rest.posts)
      else Report(Raised(FailureOf(a.post)), posts, told)
  }

  /** The clock does not run backwards during a dispatch. */
  predicate Ordered(world: seq<Attempt>) {
    && (forall i | 0 <= i < |world| :: world[i].asked <= world[i].ended)
    && (forall i | 0 < i < |world| :: world[i - 1].ended <= world[i].asked)
  }

  class SlackHandler {
    const breaker: CircuitBreaker

    constructor ()
      ensures breaker.Valid() && breaker.trace == Start && fresh(breaker)
      ensures breaker.config == R.Config(3, 30.0)
    {
      breaker := new CircuitBreaker(3, 30.0);
    }

    method Dispatch(world: seq<Attempt>) returns (result: Result, posts: nat)
      requires world != [] && Ordered(world)
      requires breaker.Valid() && R.NotAfter(breaker.trace, world[0].asked)
      modifies breaker
      ensures breaker.Valid()
      ensures Report(result, posts, breaker.View())
           == Dispatched(breaker.config, old(breaker.View()), world)
    {
      ghost var whole := Dispatched(breaker.config, breaker.View(), world);
      posts := 0;
      var attempt := 0;
      while true
        invariant 0 <= attempt < |world|
        invariant breaker.Valid() && R.NotAfter(breaker.trace, world[attempt].asked)
        invariant var rest := Dispatched(breaker.config, breaker.View(), world[attempt..]);
          whole == rest.(posts := posts + rest.posts)
        decreases |world| - attempt
      {
        var a := world[attempt];
        assert world[attempt..][1..] == world[attempt + 1..];
        ghost var earlier := breaker.trace;
        var allowed := breaker.AllowRequest(a.asked);
        if !allowed {
          return TurnedAway, posts;
        }
        if a.post != Misconfigured {
          posts := posts + 1;
        }
        if a.post == Delivered {
          breaker.RecordSuccess(a.ended);
          return Sent, posts;
        }
        if a.post == ClientError {
          breaker.RecordFailure(a.ended);
        }
        var failure := FailureOf(a.post);
        if !Retryable(failure) || attempt + 1 == |world| {
          return Raised(failure), posts;
        }
        attempt := attempt + 1;
        R.LaterStill(earlier, a.asked, world[attempt].asked);
      }
    }
  }

  // ----- which attempt is the last one, and why -----

  /** The breaker when attempt `j` asks it, all attempts before having met a client error. */
  function Worn(c: Config, s: State, world: seq<Attempt>, j: nat): State
    requires j <= |world|
  {
    if j == 0 then s
    else
      var before, a := Worn(c, s, world, j - 1), world[j - 1];
      Failed(c, Asked(c, before, a.asked), a.ended)
  }

  lemma {:induction false} WornFromTail(c: Config, s: State, world: seq<Attempt>, j: nat)
    requires 0 < j <= |world|
    ensures Worn(c, s, world, j)
         == Worn(c, Failed(c, Asked(c, s, world[0].asked), world[0].ended), world[1..], j - 1)
  {
    if j > 1 {
      WornFromTail(c, s, world, j - 1);
    }
  }

  /** Each client error is counted, and its time kept. */
  lemma {:induction false} ClientErrorsAreCounted(c: Config, s: State, world: seq<Attempt>, j: nat)
    requires j <= |world|
    ensures Worn(c, s, world, j).failures == s.failures + j
    ensures Worn(c, s, world, j).lastFailureTime == if j == 0 then s.lastFailureTime else Some(world[j - 1].ended)
  {
    if j > 0 {
      ClientErrorsAreCounted(c, s, world, j - 1);
    }
  }

  /** The breaker lets attempt `j` through, and its post fails with a client error. */
  predicate Retries(c: Config, s: State, world: seq<Attempt>, j: nat)
    requires j < |world|
  {
    Allows(c, Worn(c, s, world, j), world[j].asked) && world[j].post == ClientError
  }

  /** Attempt `k` is the first one that is not retried; `|world|` if there is none. */
  predicate Decisive(c: Config, s: State, world: seq<Attempt>, k: nat) {
    && k <= |world|
    && (forall j | 0 <= j < k :: Retries(c, s, world, j))
    && (k < |world| ==> !Retries(c, s, world, k))
  }

  lemma {:induction false} SomeAttemptIsDecisive(c: Config, s: State, world: seq<Attempt>, from: nat) returns (k: nat)
    requires from <= |world| && forall j | 0 <= j < from :: Retries(c, s, world, j)
    ensures Decisive(c, s, world, k)
    decreases |world| - from
  {
    if from < |world| && Retries(c, s, world, from) {
      k := SomeAttemptIsDecisive(c, s, world, from + 1);
    } else {
      k := from;
    }
  }

  /** How a dispatch ends at its decisive attempt. */
  function Verdict(c: Config, s: State, world: seq<Attempt>, k: nat): Report
    requires k <= |world|
  {
    var worn := Worn(c, s, world, k);
    if k == |world| then Report(Raised(Domain(true)), k, worn)
    else if !Allows(c, worn, world[k].asked) then Report(TurnedAway, k, worn)
    else
      match world[k].post
      case Delivered => Report(Sent, k + 1, INITIAL)
      case Misconfigured => Report(Raised(Domain(false)), k, Asked(c, worn, world[k].asked))
      case OtherError => Report(Raised(Foreign), k + 1, Asked(c, worn, world[k].asked))
      case ClientError => Report(Raised(Domain(true)), k + 1, worn)
  }

  /** Whatever the network does: the first attempt that the breaker turns away, or that does not
      meet a client error, ends the dispatch, and how it ends is decided there.  A delivery
      leaves the breaker as new; a missing webhook makes no post; neither that nor any other
      exception is counted by the breaker, and neither is retried. */
  lemma {:induction false} FirstUnretriedDecides(c: Config, s: State, world: seq<Attempt>, k: nat)
    requires world != [] && Decisive(c, s, world, k)
    ensures Dispatched(c, s, world) == Verdict(c, s, world, k)
    decreases |world|
  {
    if k > 0 {
      assert Retries(c, s, world, 0);
      var told, rest := Failed(c, Asked(c, s, world[0].asked), world[0].ended), world[1..];
      forall j: nat | j < k
        ensures Worn(c, s, world, j + 1) == Worn(c, told, rest, j)
      {
        WornFromTail(c, s, world, j + 1);
      }
      if rest != [] {
        forall j | 0 <= j < k - 1
          ensures Retries(c, told, rest, j)
        {
          assert Retries(c, s, world, j + 1);
        }
        FirstUnretriedDecides(c, told, rest, k - 1);
      }
    }
  }

  /** A dispatch that returns because the message was delivered leaves the breaker closed, without
      a failure on its counter; and a delivery at the decisive attempt is the only way to do so. */
  lemma DeliveryResets(c: Config, s: State, world: seq<Attempt>) returns (k: nat)
    requires world != []
    ensures Decisive(c, s, world, k)
    ensures var r := Dispatched(c, s, world);
      && (r.result == Sent <==>
            k < |world| && world[k].post == Delivered && Allows(c, Worn(c, s, world, k), world[k].asked))
      && (r.result == Sent ==> r.breaker == State(R.Closed, 0, None) && r.posts == k + 1)
      && (r.result != Sent ==> r.breaker.failures == s.failures + k)
  {
    k := SomeAttemptIsDecisive(c, s, world, 0);
    FirstUnretriedDecides(c, s, world, k);
    ClientErrorsAreCounted(c, s, world, k);
  }

  // ----- the retry loop against the breaker -----

  /** The time between attempt `j` and the end of the attempt before it; for the first one,
      since the latest failure the breaker remembers. */
  function Pause(s: State, world: seq<Attempt>, j: nat): real
    requires j < |world|
  {
    world[j].asked -
    (if j > 0 then world[j - 1].ended
     else if s.lastFailureTime.Some? then s.lastFailureTime.value else world[0].asked)
  }

  /** The failures the circuit still takes before it is open. */
  function Tolerance(c: Config, s: State): int {
    match s.circuit
    case Closed => R.Trip(c) - s.failures
    case HalfOpen => 1
    case Open => 0
  }

  /** The states a breaker can be in, see `DispatchBreaker.ReachableStates`. */
  predicate Reachable(c: Config, s: State) {
    && s.failures >= 0
    && (s.circuit == R.Closed <==> s.failures < R.Trip(c))
    && (s.failures > 0 ==> s.lastFailureTime.Some?)
  }

  lemma {:induction false} RunsAreReachable(c: Config, tr: Trace)
    ensures Reachable(c, Run(c, tr))
  {
    ReachableStates(c, tr);
  }

  /** If every post fails with a client error, the number of posts is the number of the first
      attempt, past the failures the circuit still takes, that follows its predecessor by
      less than the recovery timeout; there the breaker turns the dispatch away and it
      returns normally, with the alert lost.  Only if there is no such attempt does the
      dispatch raise. */
  lemma {:induction false} PostsUnderTotalFailure(c: Config, s: State, world: seq<Attempt>)
    requires world != [] && Reachable(c, s)
    requires forall a | a in world :: a.post == ClientError
    ensures var r, k := Dispatched(c, s, world), Tolerance(c, s);
      && r.posts <= |world|
      && r.result == (if r.posts < |world| then TurnedAway else Raised(Domain(true)))
      && (forall j | k <= j < r.posts :: Pause(s, world, j) >= c.resetTimeout)
      && (r.posts < |world| ==> r.posts >= k && Pause(s, world, r.posts) < c.resetTimeout)
    decreases |world|
  {
    var a := world[0];
    assert a.post == ClientError;
    if Allows(c, s, a.asked) && |world| > 1 {
      var told, rest := Told(c, Asked(c, s, a.asked), a), world[1..];
      PostsUnderTotalFailure(c, told, rest);
      forall j: nat | j < |rest|
        ensures Pause(told, rest, j) == Pause(s, world, j + 1)
      {}
      var r := Dispatched(c, s, world);
      forall j | Tolerance(c, s) <= j < r.posts
        ensures Pause(s, world, j) >= c.resetTimeout
      {
        if j > 0 {
          assert Pause(told, rest, j - 1) == Pause(s, world, j);
        }
      }
    }
  }

  /** With all pauses below the recovery timeout: exactly as many posts go out as attempts
      and tolerance allow, and the dispatch raises if and only if the attempts run out
      before, or just when, the circuit opens. */
  lemma RetryMeetsBreaker(c: Config, s: State, world: seq<Attempt>)
    requires world != [] && Reachable(c, s) && s.circuit == R.Closed
    requires forall a | a in world :: a.post == ClientError
    requires forall j | 0 < j < |world| :: world[j].asked - world[j - 1].ended < c.resetTimeout
    ensures var r, left := Dispatched(c, s, world), R.Trip(c) - s.failures;
      && r.posts == (if |world| < left then |world| else left)
      && (r.result.Raised? <==> |world| <= left)
      && (!r.result.Raised? ==> r.result == TurnedAway)
  {
    PostsUnderTotalFailure(c, s, world);
    var r, left := Dispatched(c, s, world), R.Trip(c) - s.failures;
    assert r.posts > left ==> Pause(s, world, left) >= c.resetTimeout;
  }

  // ----- the waits of the retry policy -----

  function Doubled(n: nat): real { if n == 0 then 1.0 else 2.0 * Doubled(n - 1) }

  /** `wait_exponential` before attempt number `n + 1`, the jitter not included. */
  function BaseWait(maxDelay: real, n: nat): real
    requires n >= 1
  {
    if Doubled(n - 1) < maxDelay then Doubled(n - 1) else maxDelay
  }

  /** The pauses the retry policy can choose: at most a fifth is added at random. */
  predicate Jittered(maxDelay: real, world: seq<Attempt>) {
    forall j | 0 < j < |world| ::
      BaseWait(maxDelay, j) <= world[j].asked - world[j - 1].ended <= 1.2 * BaseWait(maxDelay, j)
  }

  /** With three attempts and ten seconds the waits are one and two seconds, and a fifth of that at
      most is added: all together, far below the thirty seconds of the breaker. */
  lemma ConfiguredWaits(world: seq<Attempt>)
    requires |world| == 3 && Jittered(10.0, world)
    ensures 1.0 <= world[1].asked - world[0].ended <= 1.2
    ensures 2.0 <= world[2].asked - world[1].ended <= 2.4
  {
    assert Doubled(0) == 1.0 && Doubled(1) == 2.0;
    assert BaseWait(10.0, 1) == 1.0 && BaseWait(10.0, 2) == 2.0;
  }

  /** The base waits double up to the cap, and never exceed it. */
  lemma WaitsDouble(maxDelay: real, n: nat)
    requires n >= 1 && maxDelay >= 0.0
    ensures BaseWait(maxDelay, n) <= maxDelay
    ensures BaseWait(maxDelay, n + 1) ==
      if 2.0 * BaseWait(maxDelay, n) < maxDelay then 2.0 * BaseWait(maxDelay, n) else maxDelay
  {
    assert Doubled(n) == 2.0 * Doubled(n - 1);
  }

  /** The handler as it is configured: three attempts, waits capped at ten seconds, a breaker
      that opens at three failures for thirty seconds.  When Slack keeps failing, the alert
      raises out of `dispatch` only if the breaker had a clean slate; with earlier failures
      on the counter it is dropped without an exception. */
  lemma SlackDropsSilently(s: State, world: seq<Attempt>)
    requires var c := R.Config(3, 30.0); Reachable(c, s) && s.circuit == R.Closed
    requires |world| == 3 && Jittered(10.0, world)
    requires forall a | a in world :: a.post == ClientError
    ensures var r := Dispatched(R.Config(3, 30.0), s, world);
      && r.posts == 3 - s.failures
      && r.result == (if s.failures == 0 then Raised(Domain(true)) else TurnedAway)
  {
    forall j | 0 < j < |world|
      ensures world[j].asked - world[j - 1].ended < 30.0
    {
      assert BaseWait(10.0, j) <= 10.0;
    }
    RetryMeetsBreaker(R.Config(3, 30.0), s, world);
    PostsUnderTotalFailure(R.Config(3, 30.0), s, world);
  }
}
