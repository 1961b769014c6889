/** The second circuit breaker, resilience/circuit_breaker.py, which the Slack handler asks
    for permission and tells about outcomes; and how it relates to the first one. */
module DispatchBreaker {
  import R = Resilience
  import opened Traces
  import opened Wrappers

  type Config = R.Config
  type Trace = R.Trace

  datatype State = State(circuit: R.Circuit, failures: int, lastFailureTime: Option<real>)

  const INITIAL := State(R.Closed, 0, None)

  predicate Allows(c: Config, s: State, now: real) {
    match s.circuit
    case Closed => true
    case Open => s.lastFailureTime.Some? && now - s.lastFailureTime.value >= c.resetTimeout
    case HalfOpen => true
  }

  function Asked(c: Config, s: State, now: real): State {
    if s.circuit == R.Open && Allows(c, s, now) then s.(circuit := R.HalfOpen) else s
  }

  function Succeeded(s: State): State {
    State(R.Closed, 0, None)
  }

  function Failed(c: Config, s: State, now: real): State {
    var failures := s.failures + 1;
    var opens := (s.circuit == R.Closed && failures >= c.failureThreshold) || s.circuit == R.HalfOpen;
    State(if opens then R.Open else s.circuit, failures, Some(now))
  }

  /** The same events as for the first breaker: a caller asks, and later reports a success,
      a failure, or nothing. */
  function Step(c: Config, s: State, e: R.Event): State {
    match e
    case Enter(now) => Asked(c, s, now)
    case Complete(Returned, _) => Succeeded(s)
    case Complete(Raised, now) => Failed(c, s, now)
    case Complete(Cancelled, _) => s
  }

  function Run(c: Config, tr: Trace): State {
    match tr
    case Start => INITIAL
    case Then(before, e) => Step(c, Run(c, before), e)
  }

  /** As `Resilience.Refused`, but an entry exactly at the end of the timeout is let in. */
  predicate Refused(c: Config, tr: Trace, now: real) {
    R.FailuresSinceSuccess(tr) >= R.Trip(c) && now - R.LatestFailure(tr) < c.resetTimeout
  }

  /** Some entry since the latest completion came no earlier than the reset timeout after the
      latest failure. */
  predicate Probed(c: Config, tr: Trace) {
    match tr
    case Start => false
    case Then(before, Enter(t)) => Probed(c, before) || t - R.LatestFailure(before) >= c.resetTimeout
    case Then(before, Complete(Cancelled, _)) => Probed(c, before)
    case Then(_, Complete(_, _)) => false
  }

  /** The reachable states; unlike the first breaker, this one counts every failure. */
  lemma {:induction false} ReachableStates(c: Config, tr: Trace)
    ensures var s, n := Run(c, tr), R.FailuresSinceSuccess(tr);
      && s.failures == n
      && (s.circuit == R.Closed <==> n < R.Trip(c))
      && s.lastFailureTime == (if n == 0 then None else Some(R.LatestFailure(tr)))
      && (s.circuit == R.HalfOpen <==> n >= R.Trip(c) && Probed(c, tr))
  {
    if tr.Then? {
      ReachableStates(c, tr.before);
    }
  }

  lemma {:induction false} ProbeStaysLate(c: Config, tr: Trace, now: real)
    requires Probed(c, tr) && R.NotAfter(tr, now)
    ensures now - R.LatestFailure(tr) >= c.resetTimeout
  {
    if Probed(c, tr.before) {
      ProbeStaysLate(c, tr.before, now);
    }
  }

  lemma AdmissionIsMemoryless(c: Config, tr: Trace, now: real)
    requires R.NotAfter(tr, now)
    ensures Allows(c, Run(c, tr), now) <==> !Refused(c, tr, now)
  {
    ReachableStates(c, tr);
    if Run(c, tr).circuit == R.HalfOpen {
      ProbeStaysLate(c, tr, now);
    }
  }

  // ----- the two breakers, driven by the same events -----

  /** An entry that meets a tripped circuit exactly at the end of its reset timeout. */
  predicate OnBoundary(c: Config, tr: Trace, now: real) {
    R.FailuresSinceSuccess(tr) >= R.Trip(c) && now - R.LatestFailure(tr) == c.resetTimeout
  }

  /** After any common history the two breakers decide alike, except on the boundary, where
      the first one refuses and the second one admits.  This holds at every entry, also at
      those that follow a disagreement. */
  lemma DecisionsAgreeOffBoundary(c: Config, tr: Trace, now: real)
    requires R.NotAfter(tr, now)
    ensures (R.Admits(c, R.Run(c, tr), now) <==> Allows(c, Run(c, tr), now)) <==> !OnBoundary(c, tr, now)
    ensures OnBoundary(c, tr, now) ==> !R.Admits(c, R.Run(c, tr), now) && Allows(c, Run(c, tr), now)
  {
    AdmissionIsMemoryless(c, tr, now);
    R.AdmissionIsMemoryless(c, tr, now);
  }

  predicate NoBoundaryEntry(c: Config, tr: Trace) {
    tr.Then? ==>
      && NoBoundaryEntry(c, tr.before)
      && (tr.last.Enter? ==> !OnBoundary(c, tr.before, tr.last.at))
  }

  lemma {:induction false} ProbesAgree(c: Config, tr: Trace)
    requires NoBoundaryEntry(c, tr) && R.FailuresSinceSuccess(tr) >= R.Trip(c)
    ensures Probed(c, tr) <==> R.Probed(c, tr)
  {
    if tr.last.Enter? || tr.last.outcome == R.Cancelled {
      ProbesAgree(c, tr.before);
    }
  }

  /** Without boundary entries the two breakers are in the same circuit state all along, agree
      on the time of the latest failure whenever they can consult it, and on the failure
      counter while closed; once open, the first counter may only lag behind. */
  lemma StatesAgree(c: Config, tr: Trace)
    requires NoBoundaryEntry(c, tr)
    ensures var s1, s2 := R.Run(c, tr), Run(c, tr);
      && s1.circuit == s2.circuit
      && (s1.circuit == R.Closed ==> s1.failures == s2.failures)
      && (s1.circuit != R.Closed ==> s2.lastFailureTime == Some(s1.lastFailureTime))
      && s1.failures <= s2.failures
  {
    ReachableStates(c, tr);
    R.ReachableStates(c, tr);
    if R.FailuresSinceSuccess(tr) >= R.Trip(c) {
      ProbesAgree(c, tr);
    }
  }

  /** The same decision at every entry of the run. */
  predicate DecideAlike(c: Config, tr: Trace) {
    tr.Then? ==>
      && DecideAlike(c, tr.before)
      && (tr.last.Enter? ==>
            R.Admits(c, R.Run(c, tr.before), tr.last.at) == Allows(c, Run(c, tr.before), tr.last.at))
  }

  /** The two breakers make the same decision at every entry of a run if and only if no entry
      of the run falls on the boundary. */
  lemma {:induction false} BreakersAgree(c: Config, tr: Trace)
    requires R.Monotone(tr)
    ensures NoBoundaryEntry(c, tr) <==> DecideAlike(c, tr)
  {
    if tr.Then? {
      BreakersAgree(c, tr.before);
      DecisionsAgreeOffBoundary(c, tr.before, tr.last.at);
    }
  }

  // ----- the class -----

  class CircuitBreaker {
    const config: Config
    var circuit: R.Circuit
    var failures: int
    var lastFailureTime: Option<real>
    ghost var trace: Trace

    ghost predicate Valid()
      reads this
    {
      View() == Run(config, trace)
    }

    ghost function View(): State
      reads this
    {
      State(circuit, failures, lastFailureTime)
    }

    constructor (failureThreshold: int, recoveryTimeout: real)
      ensures Valid() && trace == Start
      ensures config == R.Config(failureThreshold, recoveryTimeout)
    {
      config := R.Config(failureThreshold, recoveryTimeout);
      circuit, failures, lastFailureTime := R.Closed, 0, None;
      trace := Start;
    }

    method AllowRequest(now: real) returns (allowed: bool)
      requires Valid() && R.NotAfter(trace, now)
      modifies this
      ensures Valid() && trace == Then(old(trace), R.Enter(now))
      ensures allowed <==> !Refused(config, old(trace), now)
      ensures allowed == Allows(config, old(View()), now)
      ensures View() == Asked(config, old(View()), now)
    {
      AdmissionIsMemoryless(config, trace, now);
      trace := Then(trace, R.Enter(now));
      if circuit == R.Closed {
        return true;
      }
      if circuit == R.Open {
        if lastFailureTime.Some? {
          var elapsed := now - lastFailureTime.value;
          if elapsed >= config.resetTimeout {
            circuit := R.HalfOpen;
            return true;
          }
        }
        return false;
      }
      return true;
    }

    method RecordSuccess(ghost now: real)
      requires Valid()
      modifies this
      ensures Valid() && trace == Then(old(trace), R.Complete(R.Returned, now))
      ensures View() == Succeeded(old(View()))
    {
      failures, circuit, lastFailureTime := 0, R.Closed, None;
      trace := Then(trace, R.Complete(R.Returned, now));
    }

    method RecordFailure(now: real)
      requires Valid()
      modifies this
      ensures Valid() && trace == Then(old(trace), R.Complete(R.Raised, now))
      ensures View() == Failed(config, old(View()), now)
    {
      failures, lastFailureTime := failures + 1, Some(now);
      if circuit == R.Closed && failures >= config.failureThreshold {
        circuit := R.Open;
      } else if circuit == R.HalfOpen {
        circuit := R.Open;
      }
      trace := Then(trace, R.Complete(R.Raised, now));
    }
  }
}
