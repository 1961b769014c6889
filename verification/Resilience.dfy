/** The circuit breaker of runtime/resilience.py.

    Each locked section of `CircuitBreaker.call` runs without a suspension point, so it is
    one atomic step; calls interleave freely between entering and completing.  A run is the
    list of these steps, over all calls, in the order in which they took the lock. */
module Resilience {
  import opened Traces

  datatype Circuit = Closed | Open | HalfOpen

  datatype Config = Config(failureThreshold: int, resetTimeout: real)

  datatype State = State(circuit: Circuit, failures: int, lastFailureTime: real)

  /** How the wrapped coroutine ended.  Cancellation is not an `Exception` in the source, so
      neither the `except` nor the `else` branch runs. */
  datatype Outcome = Returned | Raised | Cancelled

  datatype Event = Enter(at: real) | Complete(outcome: Outcome, at: real)

  type Trace = Log<Event>

  const INITIAL := State(Closed, 0, 0.0)

  // ----- the locked sections, as functions of the state -----

  predicate Admits(c: Config, s: State, now: real) {
    s.circuit == Open ==> now - s.lastFailureTime > c.resetTimeout
  }

  function Step(c: Config, s: State, e: Event): State {
    match e
    case Enter(now) =>
      if s.circuit == Open && Admits(c, s, now) then s.(circuit := HalfOpen) else s
    case Complete(Returned, _) =>
      s.(circuit := Closed, failures := 0)
    case Complete(Raised, now) =>
      if s.circuit == HalfOpen then
        s.(circuit := Open, lastFailureTime := now)
      else if s.failures + 1 >= c.failureThreshold then
        State(Open, s.failures + 1, now)
      else
        s.(failures := s.failures + 1)
    case Complete(Cancelled, _) =>
      s
  }

  function Run(c: Config, tr: Trace): State {
    match tr
    case Start => INITIAL
    case Then(before, e) => Step(c, Run(c, before), e)
  }

  // ----- what a run looks like from outside, without any breaker state -----

  predicate NotAfter(tr: Trace, now: real) {
    tr.Then? ==> tr.last.at <= now && NotAfter(tr.before, now)
  }

  /** The clock never runs backwards. */
  predicate Monotone(tr: Trace) {
    tr.Then? ==> Monotone(tr.before) && NotAfter(tr.before, tr.last.at)
  }

  lemma LaterStill(tr: Trace, t: real, now: real)
    requires NotAfter(tr, t) && t <= now
    ensures NotAfter(tr, now)
  {}

  /** Failures completed since the last completed success. */
  function FailuresSinceSuccess(tr: Trace): nat {
    match tr
    case Start => 0
    case Then(_, Complete(Returned, _)) => 0
    case Then(before, Complete(Raised, _)) => FailuresSinceSuccess(before) + 1
    case Then(before, _) => FailuresSinceSuccess(before)
  }

  /** The time of the latest failure; 0 when there was none, as in the constructor. */
  function LatestFailure(tr: Trace): real {
    match tr
    case Start => 0.0
    case Then(_, Complete(Raised, t)) => t
    case Then(before, _) => LatestFailure(before)
  }

  /** Some entry since the latest completion came more than the reset timeout after the
      latest failure. */
  predicate Probed(c: Config, tr: Trace) {
    match tr
    case Start => false
    case Then(before, Enter(t)) => Probed(c, before) || t - LatestFailure(before) > c.resetTimeout
    case Then(before, Complete(Cancelled, _)) => Probed(c, before)
    case Then(_, Complete(_, _)) => false
  }

  /** A threshold below one trips on the first failure, exactly as a threshold of one. */
  function Trip(c: Config): (n: nat)
    ensures n >= 1 && n >= c.failureThreshold
  {
    if c.failureThreshold < 1 then 1 else c.failureThreshold
  }

  /** The memoryless admission rule: it looks at two facts about the past only. */
  predicate Refused(c: Config, tr: Trace, now: real) {
    FailuresSinceSuccess(tr) >= Trip(c) && now - LatestFailure(tr) <= c.resetTimeout
  }

  // ----- the three-state machine refines the memoryless rule -----

  /** The reachable states, characterised: the circuit is CLOSED exactly while the failure
      counter is below the threshold, outside CLOSED the stored time is that of the latest
      failure, and HALF_OPEN is the memory of a late enough entry. */
  lemma {:induction false} ReachableStates(c: Config, tr: Trace)
    ensures var s, n := Run(c, tr), FailuresSinceSuccess(tr);
      && 0 <= s.failures <= n
      && (s.circuit == Closed <==> n < Trip(c))
      && (s.circuit == Closed <==> s.failures < Trip(c))
      && (s.circuit == Closed ==> s.failures == n)
      && (s.circuit != Closed ==> s.lastFailureTime == LatestFailure(tr))
      && (s.circuit == HalfOpen <==> n >= Trip(c) && Probed(c, tr))
  {
    if tr.Then? {
      ReachableStates(c, tr.before);
    }
  }

  lemma {:induction false} ProbeStaysLate(c: Config, tr: Trace, now: real)
    requires Probed(c, tr) && NotAfter(tr, now)
    ensures now - LatestFailure(tr) > c.resetTimeout
  {
    if Probed(c, tr.before) {
      ProbeStaysLate(c, tr.before, now);
    }
  }

  /** In every run, an entry is rejected exactly when the memoryless rule refuses it; so
      HALF_OPEN never changes an admission. */
  lemma AdmissionIsMemoryless(c: Config, tr: Trace, now: real)
    requires NotAfter(tr, now)
    ensures Admits(c, Run(c, tr), now) <==> !Refused(c, tr, now)
  {
    ReachableStates(c, tr);
    if Run(c, tr).circuit == HalfOpen {
      ProbeStaysLate(c, tr, now);
    }
  }

  /** Cancelled calls leave no mark: dropping them from a run changes neither the state nor
      any later admission. */
  function WithoutCancelled(tr: Trace): Trace {
    match tr
    case Start => tr
    case Then(before, Complete(Cancelled, _)) => WithoutCancelled(before)
    case Then(before, e) => Then(WithoutCancelled(before), e)
  }

  lemma {:induction false} CancellationIsInvisible(c: Config, tr: Trace)
    ensures Run(c, WithoutCancelled(tr)) == Run(c, tr)
  {
    if tr.Then? {
      CancellationIsInvisible(c, tr.before);
    }
  }

  // ----- the class -----

  class CircuitBreaker {
    const config: Config
    var circuit: Circuit
    var failures: int
    var lastFailureTime: real
    ghost var trace: Trace

    ghost predicate Valid()
      reads this
    {
      View() == Run(config, trace)
    }

    ghost function View(): State
      reads this
    {
      State(circuit, failures, lastFailureTime)
    }

    constructor (failureThreshold: int, resetTimeout: real)
      ensures Valid() && trace == Start
      ensures config == Config(failureThreshold, resetTimeout)
    {
      config := Config(failureThreshold, resetTimeout);
      circuit, failures, lastFailureTime := Closed, 0, 0.0;
      trace := Start;
    }

    /** The first locked section of `call`: `admitted` is false where the source raises
        `CircuitBreakerOpenException`. */
    method Admit(now: real) returns (admitted: bool)
      requires Valid()
      modifies this
      ensures Valid() && trace == Then(old(trace), Enter(now))
      ensures NotAfter(old(trace), now) ==> (admitted <==> !Refused(config, old(trace), now))
      ensures admitted <==> Admits(config, old(View()), now)
      ensures View() == Step(config, old(View()), Enter(now))
      ensures !admitted ==> View() == old(View())
    {
      if NotAfter(trace, now) {
        AdmissionIsMemoryless(config, trace, now);
      }
      admitted := true;
      if circuit == Open {
        if now - lastFailureTime > config.resetTimeout {
          circuit := HalfOpen;
        } else {
          admitted := false;
        }
      }
      trace := Then(trace, Enter(now));
    }

    /** What `call` does once the wrapped coroutine has ended. */
    method Finish(outcome: Outcome, now: real)
      requires Valid()
      modifies this
      ensures Valid() && trace == Then(old(trace), Complete(outcome, now))
      ensures View() == Step(config, old(View()), Complete(outcome, now))
      ensures circuit == Closed <==> FailuresSinceSuccess(trace) < Trip(config)
    {
      match outcome {
        case Raised =>
          if circuit == HalfOpen {
            circuit, lastFailureTime := Open, now;
          } else {
            failures := failures + 1;
            if failures >= config.failureThreshold {
              circuit, lastFailureTime := Open, now;
            }
          }
        case Returned =>
          failures, circuit := 0, Closed;
        case Cancelled =>
      }
      trace := Then(trace, Complete(outcome, now));
      ReachableStates(config, trace);
    }
  }
}
