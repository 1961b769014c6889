/** The batch executor as a step system: src/engine/executor.py over the limiter of
    runtime/resilience.py.

    A batch is a list of tasks, one for each check.  A task moves from one program point to the
    next; between two suspension points of the source it is not interrupted.  (The points
    between two policy decisions are no suspension points of the source, so the model has a few
    more interleavings than the program, and none less.)  What the environment decides - what a
    fetch and the evaluators yield, whether handlers exist, when timeouts and cancellations
    strike - is part of the step. */
module Batch {
  import R = Resilience
  import D = AlertDedupe
  import opened History
  import opened Traces
  import opened Wrappers

  datatype Limits = Limits(maxInflight: nat, breakerEnabled: bool, breaker: R.Config)

  datatype Check = Check(id: string, limits: Limits, evaluators: nat, cooldown: real, window: real)

  type Checks = seq<Check>

  datatype AlertEvent = AlertEvent(source: D.Source, carrier: D.Carrier)

  /** Exceptions of the pipeline, by how they are treated: as an open circuit, as a timeout,
      or as any other failure. */
  datatype Error = CircuitOpen | TimeoutError | OtherError

  datatype Evaluation = NotConfigured | Quiet | Fired(event: AlertEvent) | Crashed(error: Error)

  datatype Fetch = FetchRaised(error: Error) | Payload(evaluations: seq<Evaluation>)

  datatype Ending = Rejected | Passed | Alerted | Skipped | Failed(timedOut: bool)
                  | TimedOut(started: bool) | Aborted(started: bool)

  datatype Pc =
    | Waiting                            // for the global semaphore
    | Queued                             // for the semaphore of its check
    | Fetching
    | Deciding(events: seq<AlertEvent>)  // the alerts that are still to be decided on
    | Sending(events: seq<AlertEvent>)   // one alert is with its handlers
    | Done(ending: Ending)

  datatype Status = SStarted | SPassed | SAlerted | SFailed | SSkipped | SCancelled | STimeout

  datatype Label = Label(id: string, status: Status)

  /** What the resilience manager keeps for a check id; `calls` is the run of its breaker. */
  datatype Slot = Slot(limits: Limits, permits: int, breaker: R.State, calls: R.Trace)

  datatype State = State(
    free: int,
    slots: map<string, Slot>,
    pcs: seq<Pc>,
    counters: map<Label, nat>,
    gauge: map<string, int>,
    log: Log<Record>,
    policy: D.State,
    alerts: D.Trace,
    now: real)

  /** The milliseconds that the two stopwatches show: the one of the pipeline, and the one
      around it, which starts before the semaphore of the check. */
  datatype Timing = Timing(pipeline: real, whole: real)

  const INSTANT := Timing(0.0, 0.0)

  datatype Action =
    | Acquire
    | Enter
    | Fetched(fetch: Fetch, ms: Timing)
    | Decide(handlersFound: bool, ms: Timing)
    | Sent
    | Finish(ms: Timing)
    | TimeOut(ms: Timing)
    | Abort

  datatype Step = Step(task: nat, action: Action, at: real)

  predicate Holds(pc: Pc) { !pc.Waiting? && !pc.Done? }

  predicate Runs(pc: Pc) { Holds(pc) && !pc.Queued? }

  predicate Suspended(pc: Pc) { pc.Queued? || pc.Fetching? || pc.Sending? }

  predicate Enabled(b: Checks, s: State, st: Step) {
    && st.task < |b| == |s.pcs|
    && s.now <= st.at
    && var c, pc := b[st.task], s.pcs[st.task];
       match st.action
       case Acquire => pc.Waiting? && s.free > 0
       case Enter => pc.Queued? && c.id in s.slots && s.slots[c.id].permits > 0
       case Fetched(fetch, _) =>
         pc.Fetching? && (fetch.Payload? ==> |fetch.evaluations| <= c.evaluators)
       case Decide(_, _) => pc.Deciding? && pc.events != []
       case Sent => pc.Sending?
       case Finish(_) => pc.Deciding? && pc.events == []
       case TimeOut(_) => Suspended(pc)
       case Abort => pc.Waiting? || Suspended(pc)
  }

  // ----- what one step does -----

  /** `circuit`: what the breaker of the check is told.  `status` and `result`: the counter and
      the history entry of the pipeline itself.  `timedOut`: whether the timeout branch around
      it runs as well, which counts and records once more.  `alert`: the policy call made. */
  datatype Effect = Effect(
    pc: Pc,
    status: Option<Status>,
    result: Option<bool>,
    timedOut: bool,
    circuit: Option<R.Event>,
    alert: Option<D.Event>)

  function Goto(pc: Pc): Effect { Effect(pc, None, None, false, None, None) }

  function Ended(ending: Ending, status: Status, result: Option<bool>, outcome: R.Outcome, at: real): Effect {
    Effect(Done(ending), Some(status), result, false, Some(R.Complete(outcome, at)), None)
  }

  /** The `except Exception` branch of the pipeline: an open circuit further down is swallowed,
      so the breaker around the pipeline sees a success. */
  function Raising(e: Error, at: real): Effect {
    match e
    case CircuitOpen => Ended(Skipped, SSkipped, Some(false), R.Returned, at)
    case TimeoutError => Ended(Failed(true), SFailed, Some(false), R.Raised, at).(timedOut := true)
    case OtherError => Ended(Failed(false), SFailed, Some(false), R.Raised, at)
  }

  datatype Collected = Events(events: seq<AlertEvent>) | Broken(error: Error)

  /** The evaluation loop. */
  function Collect(evaluations: seq<Evaluation>): Collected {
    if evaluations == [] then Events([])
    else
      match (Collect(evaluations[..|evaluations| - 1]), evaluations[|evaluations| - 1])
      case (Broken(e), _) => Broken(e)
      case (Events(events), Crashed(e)) => Broken(e)
      case (Events(events), Fired(event)) => Events(events + [event])
      case (Events(events), _) => Events(events)
  }

  function EffectOf(b: Checks, s: State, st: Step): Effect
    requires Enabled(b, s, st)
  {
    var c, pc, at := b[st.task], s.pcs[st.task], st.at;
    match st.action
    case Acquire => Goto(Queued)
    case Enter =>
      var slot := s.slots[c.id];
      if !slot.limits.breakerEnabled || R.Admits(slot.limits.breaker, slot.breaker, at) then
        Goto(Fetching).(status := Some(SStarted), circuit := Some(R.Enter(at)))
      else
        Goto(Done(Rejected)).(circuit := Some(R.Enter(at)))
    case Fetched(FetchRaised(e), _) => Raising(e, at)
    case Fetched(Payload(evaluations), _) =>
      (match Collect(evaluations)
       case Broken(e) => Raising(e, at)
       case Events(events) =>
         if events == [] then Ended(Passed, SPassed, Some(true), R.Returned, at)
         else Goto(Deciding(events)))
    case Decide(handlersFound, _) =>
      var event, rest := pc.events[0], pc.events[1..];
      var alert := D.Alert(event.source, c.window, event.carrier, at);
      var verdict := D.Decide(s.policy, D.Fingerprint(event.source), c.window, event.carrier, at).1;
      (match verdict
       case Suppressed => Goto(Deciding(rest))
       case Dispatched(_) => if handlersFound then Goto(Sending(rest)) else Raising(OtherError, at)
       case Raised => Raising(OtherError, at)).(alert := Some(alert))
    case Sent => Goto(Deciding(pc.events))
    case Finish(_) => Ended(Alerted, SAlerted, Some(true), R.Returned, at)
    case TimeOut(_) =>
      if pc.Queued? then Goto(Done(TimedOut(false))).(timedOut := true)
      else Ended(TimedOut(true), SCancelled, None, R.Cancelled, at).(timedOut := true)
    case Abort =>
      if Runs(pc) then Ended(Aborted(true), SCancelled, None, R.Cancelled, at)
      else Goto(Done(Aborted(false)))
  }

  function Millis(a: Action): Timing {
    match a
    case Fetched(_, ms) => ms
    case Decide(_, ms) => ms
    case Finish(ms) => ms
    case TimeOut(ms) => ms
    case _ => INSTANT
  }

  function GaugeOf(gauge: map<string, int>, id: string): int { if id in gauge then gauge[id] else 0 }

  function CountOf(counters: map<Label, nat>, id: string, status: Status): nat {
    if Label(id, status) in counters then counters[Label(id, status)] else 0
  }

  function Inc(counters: map<Label, nat>, id: string, status: Status): map<Label, nat> {
    counters[Label(id, status) := CountOf(counters, id, status) + 1]
  }

  function Counted(counters: map<Label, nat>, id: string, e: Effect): map<Label, nat> {
    var inner := if e.status.Some? then Inc(counters, id, e.status.value) else counters;
    if e.timedOut then Inc(inner, id, STimeout) else inner
  }

  function Recorded(log: Log<Record>, id: string, e: Effect, ms: Timing): Log<Record> {
    var inner := if e.result.Some? then Then(log, Record(id, Result(e.result.value, ms.pipeline))) else log;
    if e.timedOut then Then(inner, Record(id, Result(false, ms.whole))) else inner
  }

  function One(p: bool): int { if p then 1 else 0 }

  function GaugeAfter(gauge: map<string, int>, id: string, was: Pc, pc: Pc): map<string, int> {
    if Runs(was) == Runs(pc) then gauge
    else gauge[id := GaugeOf(gauge, id) + One(Runs(pc)) - One(Runs(was))]
  }

  /** The slot of a check, created from the first configuration that asks for it. */
  function SlotFor(slots: map<string, Slot>, c: Check): Slot {
    if c.id in slots then slots[c.id]
    else Slot(c.limits, c.limits.maxInflight, R.INITIAL, Start)
  }

  /** The slot after the step: a permit of the check is held exactly while the task runs. */
  function SlotAfter(slot: Slot, was: Pc, e: Effect): Slot {
    var s := slot.(permits := slot.permits + One(Runs(was)) - One(Runs(e.pc)));
    if e.circuit.Some? && slot.limits.breakerEnabled then
      s.(breaker := R.Step(slot.limits.breaker, slot.breaker, e.circuit.value),
         calls := Then(slot.calls, e.circuit.value))
    else s
  }

  function SlotsAfter(slots: map<string, Slot>, c: Check, was: Pc, e: Effect): map<string, Slot> {
    if Holds(e.pc) || Holds(was) then slots[c.id := SlotAfter(SlotFor(slots, c), was, e)] else slots
  }

  /** The whole state after task `i` has had the effect `e`. */
  function Apply(b: Checks, s: State, i: nat, e: Effect, ms: Timing, at: real): State
    requires i < |b| == |s.pcs|
  {
    var c, was := b[i], s.pcs[i];
    State(
      s.free + One(Holds(was)) - One(Holds(e.pc)),
      SlotsAfter(s.slots, c, was, e),
      s.pcs[i := e.pc],
      Counted(s.counters, c.id, e),
      GaugeAfter(s.gauge, c.id, was, e.pc),
      Recorded(s.log, c.id, e, ms),
      if e.alert.Some? then D.Step(s.policy, e.alert.value) else s.policy,
      if e.alert.Some? then Then(s.alerts, e.alert.value) else s.alerts,
      at)
  }

  function Next(b: Checks, s: State, st: Step): State
    requires Enabled(b, s, st)
  {
    Apply(b, s, st.task, EffectOf(b, s, st), Millis(st.action), st.at)
  }

  // ----- runs -----

  type Run = Log<Step>

  /** The start of a batch: all tasks wait, and nobody holds a permit of any check.  The rest -
      counters, history, breakers, policy - is whatever earlier batches have left behind. */
  predicate Ready(b: Checks, s: State) {
    && |s.pcs| == |b| && s.free >= 0
    && (forall i | 0 <= i < |b| :: s.pcs[i] == Waiting)
    && (forall id | id in s.slots :: Idle(s.slots[id], s.now))
    && s.policy == D.Run(s.alerts) && D.Monotone(s.alerts) && D.NotAfter(s.alerts, s.now)
  }

  predicate Idle(slot: Slot, now: real) {
    && slot.permits == slot.limits.maxInflight
    && slot.breaker == R.Run(slot.limits.breaker, slot.calls)
    && R.NotAfter(slot.calls, now)
  }

  predicate Possible(b: Checks, s: State, run: Run)
    decreases run, 0
  {
    run.Then? ==> Possible(b, s, run.before) && Enabled(b, After(b, s, run.before), run.last)
  }

  function After(b: Checks, s: State, run: Run): State
    requires Possible(b, s, run)
    decreases run, 1
  {
    match run
    case Start => s
    case Then(before, st) => Next(b, After(b, s, before), st)
  }
}
