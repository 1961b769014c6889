/** What the code of the executor does to the state, statement by statement, between two
    suspension points; and that this is the step system of `Batch`, which says it by the
    program points a task comes from and goes to. */
module ExecutorSteps {
  import D = AlertDedupe
  import R = Resilience
  import opened Batch
  import opened BatchTheorems
  import opened History
  import opened Limiter
  import opened Traces
  import opened Wrappers

  function WithCount(s: State, id: string, status: Status): State {
    s.(counters := Inc(s.counters, id, status))
  }

  function WithResult(s: State, id: string, success: bool, ms: real): State {
    s.(log := Then(s.log, Record(id, Result(success, ms))))
  }

  function At(s: State, i: nat, pc: Pc, at: real): State
    requires i < |s.pcs|
  {
    s.(pcs := s.pcs[i := pc], now := at)
  }

  /** A running task ends: breaker, both semaphores and the gauge. */
  function Settled(s: State, id: string, i: nat, ending: Ending, outcome: R.Outcome, at: real): State
    requires i < |s.pcs| && id in s.slots
  {
    At(s.(free := s.free + 1, slots := s.slots[id := Departed(s.slots[id], outcome, at)],
          gauge := Moved(s.gauge, id, -1)),
       i, Done(ending), at)
  }

  /** The `except Exception` branch, and the timeout branch when it was a timeout. */
  function AfterRaise(s: State, id: string, i: nat, e: Error, ms: Timing, at: real): State
    requires i < |s.pcs| && id in s.slots
  {
    var recorded := WithResult(s, id, false, ms.pipeline);
    match e
    case CircuitOpen => Settled(WithCount(recorded, id, SSkipped), id, i, Skipped, R.Returned, at)
    case OtherError => Settled(WithCount(recorded, id, SFailed), id, i, Failed(false), R.Raised, at)
    case TimeoutError =>
      var settled := Settled(WithCount(recorded, id, SFailed), id, i, Failed(true), R.Raised, at);
      WithCount(WithResult(settled, id, false, ms.whole), id, STimeout)
  }

  function Moved(gauge: map<string, int>, id: string, step: int): map<string, int> {
    gauge[id := GaugeOf(gauge, id) + step]
  }

  // One for each action of `Batch`.

  function AfterAcquire(s: State, c: Check, i: nat, at: real): State
    requires i < |s.pcs|
  {
    At(s.(free := s.free - 1, slots := s.slots[c.id := SlotFor(s.slots, c)]), i, Queued, at)
  }

  function AfterEnter(s: State, id: string, i: nat, at: real): State
    requires i < |s.pcs| && id in s.slots
  {
    Answered(s.(slots := s.slots[id := Entered(s.slots[id], at)]), id, i, Welcome(s.slots[id], at), at)
  }

  /** The limiter has let the task in, or not. */
  function Answered(s: State, id: string, i: nat, admitted: bool, at: real): State
    requires i < |s.pcs|
  {
    if admitted then
      At(WithCount(s, id, SStarted).(gauge := Moved(s.gauge, id, 1)), i, Fetching, at)
    else
      GivenUp(s, i, Rejected, at)
  }

  function GivenUp(s: State, i: nat, ending: Ending, at: real): State
    requires i < |s.pcs|
  {
    At(s.(free := s.free + 1), i, Done(ending), at)
  }

  function AfterSuccess(s: State, id: string, i: nat, ending: Ending, status: Status, ms: Timing, at: real): State
    requires i < |s.pcs| && id in s.slots
  {
    Settled(WithCount(WithResult(s, id, true, ms.pipeline), id, status), id, i, ending, R.Returned, at)
  }

  function AfterFetch(s: State, id: string, i: nat, fetch: Fetch, ms: Timing, at: real): State
    requires i < |s.pcs| && id in s.slots
  {
    match fetch
    case FetchRaised(e) => AfterRaise(s, id, i, e, ms, at)
    case Payload(evaluations) =>
      match Collect(evaluations)
      case Broken(e) => AfterRaise(s, id, i, e, ms, at)
      case Events(events) =>
        if events == [] then AfterSuccess(s, id, i, Passed, SPassed, ms, at)
        else At(s, i, Deciding(events), at)
  }

  function AfterDecision(s: State, c: Check, i: nat, event: AlertEvent, rest: seq<AlertEvent>, handlersFound: bool,
      ms: Timing, at: real): State
    requires i < |s.pcs| && c.id in s.slots
  {
    var alert := D.Alert(event.source, c.window, event.carrier, at);
    var decided := s.(policy := D.Step(s.policy, alert), alerts := Then(s.alerts, alert));
    match D.Decide(s.policy, D.Fingerprint(event.source), c.window, event.carrier, at).1
    case Suppressed => At(decided, i, Deciding(rest), at)
    case Dispatched(_) =>
      if handlersFound then At(decided, i, Sending(rest), at)
      else AfterRaise(decided, c.id, i, OtherError, ms, at)
    case Raised => AfterRaise(decided, c.id, i, OtherError, ms, at)
  }

  /** Cancelled from outside, or by its own timeout. */
  function AfterCancel(s: State, id: string, i: nat, timedOut: bool, at: real): State
    requires i < |s.pcs| && (!s.pcs[i].Waiting? ==> id in s.slots)
  {
    var started := Runs(s.pcs[i]);
    var ending := if timedOut then TimedOut(started) else Aborted(started);
    if s.pcs[i].Waiting? then At(s, i, Done(ending), at)
    else if s.pcs[i].Queued? then GivenUp(s, i, ending, at)
    else Settled(WithCount(s, id, SCancelled), id, i, ending, R.Cancelled, at)
  }

  function AfterTimeOut(s: State, id: string, i: nat, ms: Timing, at: real): State
    requires i < |s.pcs| && id in s.slots
  {
    WithCount(WithResult(AfterCancel(s, id, i, true, at), id, false, ms.whole), id, STimeout)
  }

  function AfterStep(b: Checks, s: State, st: Step): State
    requires Enabled(b, s, st) && TaskSound(b, s, st.task)
  {
    var c, i, pc, at := b[st.task], st.task, s.pcs[st.task], st.at;
    match st.action
    case Acquire => AfterAcquire(s, c, i, at)
    case Enter => AfterEnter(s, c.id, i, at)
    case Fetched(fetch, ms) => AfterFetch(s, c.id, i, fetch, ms, at)
    case Decide(found, ms) => AfterDecision(s, c, i, pc.events[0], pc.events[1..], found, ms, at)
    case Sent => At(s, i, Deciding(pc.events), at)
    case Finish(ms) => AfterSuccess(s, c.id, i, Alerted, SAlerted, ms, at)
    case TimeOut(ms) => AfterTimeOut(s, c.id, i, ms, at)
    case Abort => AfterCancel(s, c.id, i, false, at)
  }

  lemma RaiseIs(b: Checks, s: State, i: nat, e: Error, ms: Timing, at: real)
    requires i < |b| == |s.pcs| && Runs(s.pcs[i]) && b[i].id in s.slots
    ensures Apply(b, s, i, Raising(e, at), ms, at) == AfterRaise(s, b[i].id, i, e, ms, at)
  {
    match e
    case CircuitOpen =>
    case OtherError =>
    case TimeoutError =>
  }

  lemma SuccessIs(b: Checks, s: State, i: nat, ending: Ending, status: Status, ms: Timing, at: real)
    requires i < |b| == |s.pcs| && Runs(s.pcs[i]) && b[i].id in s.slots
    ensures Apply(b, s, i, Ended(ending, status, Some(true), R.Returned, at), ms, at)
         == AfterSuccess(s, b[i].id, i, ending, status, ms, at)
  {}

  /** A step that moves a running task on to another point of its pipeline. */
  lemma MoveIs(b: Checks, s: State, i: nat, pc: Pc, ms: Timing, at: real)
    requires i < |b| == |s.pcs| && Runs(s.pcs[i]) && Runs(pc) && b[i].id in s.slots
    ensures Apply(b, s, i, Goto(pc), ms, at) == At(s, i, pc, at)
  {
    var slots := SlotsAfter(s.slots, b[i], s.pcs[i], Goto(pc));
    assert slots == s.slots;
  }

  lemma FetchIs(b: Checks, s: State, i: nat, fetch: Fetch, ms: Timing, at: real)
    requires Enabled(b, s, Step(i, Fetched(fetch, ms), at)) && TaskSound(b, s, i)
    ensures AfterFetch(s, b[i].id, i, fetch, ms, at) == Next(b, s, Step(i, Fetched(fetch, ms), at))
  {
    match fetch
    case FetchRaised(e) => RaiseIs(b, s, i, e, ms, at);
    case Payload(evaluations) =>
      match Collect(evaluations)
      case Broken(e) => RaiseIs(b, s, i, e, ms, at);
      case Events(events) =>
        SuccessIs(b, s, i, Passed, SPassed, ms, at);
        MoveIs(b, s, i, Deciding(events), ms, at);
  }

  /** The decision of the policy and what follows from it concern different parts of the
      state. */
  lemma AlertIs(b: Checks, s: State, i: nat, e: Effect, alert: D.Event, ms: Timing, at: real)
    requires i < |b| == |s.pcs| && e.alert.None?
    ensures Apply(b, s, i, e.(alert := Some(alert)), ms, at)
         == Apply(b, s.(policy := D.Step(s.policy, alert), alerts := Then(s.alerts, alert)), i, e, ms, at)
  {}

  lemma DecisionIs(b: Checks, s: State, i: nat, found: bool, ms: Timing, at: real)
    requires Enabled(b, s, Step(i, Decide(found, ms), at)) && TaskSound(b, s, i)
    ensures AfterDecision(s, b[i], i, s.pcs[i].events[0], s.pcs[i].events[1..], found, ms, at)
         == Next(b, s, Step(i, Decide(found, ms), at))
  {
    var c, event, rest := b[i], s.pcs[i].events[0], s.pcs[i].events[1..];
    var alert := D.Alert(event.source, c.window, event.carrier, at);
    var decided := s.(policy := D.Step(s.policy, alert), alerts := Then(s.alerts, alert));
    match D.Decide(s.policy, D.Fingerprint(event.source), c.window, event.carrier, at).1 {
      case Suppressed =>
        AlertIs(b, s, i, Goto(Deciding(rest)), alert, ms, at);
        MoveIs(b, decided, i, Deciding(rest), ms, at);
      case Dispatched(_) =>
        if found {
          AlertIs(b, s, i, Goto(Sending(rest)), alert, ms, at);
          MoveIs(b, decided, i, Sending(rest), ms, at);
        } else {
          AlertIs(b, s, i, Raising(OtherError, at), alert, ms, at);
          RaiseIs(b, decided, i, OtherError, ms, at);
        }
      case Raised =>
        AlertIs(b, s, i, Raising(OtherError, at), alert, ms, at);
        RaiseIs(b, decided, i, OtherError, ms, at);
    }
  }

  lemma EntryIs(b: Checks, s: State, i: nat, at: real)
    requires Enabled(b, s, Step(i, Enter, at))
    ensures AfterEnter(s, b[i].id, i, at) == Next(b, s, Step(i, Enter, at))
  {}

  lemma NeverRan(b: Checks, s: State, i: nat, ending: Ending, at: real)
    requires i < |b| == |s.pcs| && s.pcs[i].Queued? && b[i].id in s.slots
    ensures Apply(b, s, i, Goto(Done(ending)), INSTANT, at) == GivenUp(s, i, ending, at)
  {
    var slots := SlotsAfter(s.slots, b[i], Queued, Goto(Done(ending)));
    assert slots == s.slots;
  }

  lemma CancelledIs(b: Checks, s: State, i: nat, ending: Ending, at: real)
    requires i < |b| == |s.pcs| && Runs(s.pcs[i]) && b[i].id in s.slots
    ensures Apply(b, s, i, Ended(ending, SCancelled, None, R.Cancelled, at), INSTANT, at)
         == Settled(WithCount(s, b[i].id, SCancelled), b[i].id, i, ending, R.Cancelled, at)
  {}

  lemma TimeOutIs(b: Checks, s: State, i: nat, ms: Timing, at: real)
    requires Enabled(b, s, Step(i, TimeOut(ms), at)) && TaskSound(b, s, i)
    ensures AfterTimeOut(s, b[i].id, i, ms, at) == Next(b, s, Step(i, TimeOut(ms), at))
  {
    if s.pcs[i].Queued? {
      NeverRan(b, s, i, TimedOut(false), at);
    } else {
      CancelledIs(b, s, i, TimedOut(true), at);
    }
  }

  lemma AbortIs(b: Checks, s: State, i: nat, at: real)
    requires Enabled(b, s, Step(i, Abort, at)) && TaskSound(b, s, i)
    ensures AfterCancel(s, b[i].id, i, false, at) == Next(b, s, Step(i, Abort, at))
  {
    if s.pcs[i].Queued? {
      NeverRan(b, s, i, Aborted(false), at);
    } else if Runs(s.pcs[i]) {
      CancelledIs(b, s, i, Aborted(true), at);
    }
  }

  /** What the code does, action by action, is what the step system says. */
  lemma {:induction false} CodeMatchesStep(b: Checks, s: State, st: Step)
    requires Enabled(b, s, st) && TaskSound(b, s, st.task)
    ensures AfterStep(b, s, st) == Next(b, s, st)
  {
    var i, at := st.task, st.at;
    match st.action
    case Acquire =>
    case Enter => EntryIs(b, s, i, at);
    case Fetched(fetch, ms) => FetchIs(b, s, i, fetch, ms, at);
    case Decide(found, ms) => DecisionIs(b, s, i, found, ms, at);
    case Sent => MoveIs(b, s, i, Deciding(s.pcs[i].events), INSTANT, at);
    case Finish(ms) => SuccessIs(b, s, i, Alerted, SAlerted, ms, at);
    case TimeOut(ms) => TimeOutIs(b, s, i, ms, at);
    case Abort => AbortIs(b, s, i, at);
  }

  /** `s` is the state that a run of a batch has led to, and the ledgers balance. */
  ghost predicate OnCourse(b: Checks, s0: State, run: Run, s: State) {
    && Ready(b, s0) && Possible(b, s0, run) && s == After(b, s0, run)
    && Balanced(s0) && Balanced(s)
  }

  /** The run after one more stretch of code. */
  lemma {:induction false} RunGoesOn(b: Checks, s0: State, run: Run, s: State, st: Step)
    requires OnCourse(b, s0, run, s) && Enabled(b, s, st)
    ensures TaskSound(b, s, st.task)
    ensures OnCourse(b, s0, Then(run, st), AfterStep(b, s, st))
  {
    RunsAreSound(b, s0, run);
    CodeMatchesStep(b, s, st);
    BalanceIsConserved(b, s0, Then(run, st));
  }

  /** The start of another batch. */
  lemma NextBatch(b: Checks, s0: State, run: Run, s: State, batch: Checks)
    requires OnCourse(b, s0, run, s) && forall i | 0 <= i < |s.pcs| :: s.pcs[i].Done?
    ensures var s' := s.(pcs := seq(|batch|, i => Waiting));
      OnCourse(batch, s', Start, s') && s'.free == s0.free
  {
    RunsAreSound(b, s0, run);
    DrainedIsReady(b, s0, run, batch);
    BooksIgnoreTasks(s, seq(|batch|, i => Waiting));
  }

  lemma NewExecutor(s: State)
    requires Ready([], s) && s.counters == map[] && s.gauge == map[] && s.log == Start
    ensures OnCourse([], s, Start, s)
  {
    NewBooksBalance(s);
  }
}
