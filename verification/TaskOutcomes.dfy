/** What becomes of the tasks of a batch, and who hears of it (src/engine/executor.py): where
    each step takes its task, what the breakers, the history and the policy are told, and which
    alerts reach the handlers.  Everything is read off from outside: from the actions of the run,
    the program points the tasks pass, and the verdicts on the alerts so far. */
module TaskOutcomes {
  import D = AlertDedupe
  import R = Resilience
  import opened Batch
  import opened BatchTheorems
  import opened History
  import opened Traces
  import opened Wrappers

  // ----- where a step takes its task -----

  /** The exception that ends the pipeline right after its fetch, if any. */
  function ErrorOf(fetch: Fetch): Option<Error> {
    match fetch
    case FetchRaised(error) => Some(error)
    case Payload(evaluations) => FirstCrash(evaluations)
  }

  function AlertOf(c: Check, event: AlertEvent, at: real): D.Event {
    D.Alert(event.source, c.window, event.carrier, at)
  }

  /** The breaker refuses an entry now, by the memoryless rule. */
  predicate Refuses(slots: map<string, Slot>, id: string, now: real) {
    id in slots && slots[id].limits.breakerEnabled && R.Refused(slots[id].limits.breaker, slots[id].calls, now)
  }

  lemma SemaphoreStep(b: Checks, s: State, st: Step)
    requires Enabled(b, s, st)
    ensures var pc := Next(b, s, st).pcs[st.task];
      && (pc == Queued <==> st.action == Acquire)
      && (pc == Done(Rejected) || pc == Fetching <==> st.action == Enter)
  {}

  /** Past the global semaphore a task queues for its check; past that one it fetches, unless the
      breaker refuses. */
  lemma {:induction false} AfterSemaphores(b: Checks, s0: State, run: Run, st: Step)
    requires Ready(b, s0) && Possible(b, s0, Then(run, st))
    ensures var s, pc := After(b, s0, run), After(b, s0, Then(run, st)).pcs[st.task];
      && (pc == Queued <==> st.action == Acquire)
      && (pc == Done(Rejected) <==> st.action == Enter && Refuses(s.slots, b[st.task].id, st.at))
      && (pc == Fetching <==> st.action == Enter && !Refuses(s.slots, b[st.task].id, st.at))
  {
    SemaphoreStep(b, After(b, s0, run), st);
    if st.action == Enter {
      RejectedExactly(b, s0, run, st);
    }
  }

  /** Fetch and evaluation: the first exception decides how the check ends, by its kind; without
      one the check has passed if there are no alerts, or goes on to decide on all of them. */
  lemma {:induction false} AfterFetching(b: Checks, s: State, st: Step)
    requires Enabled(b, s, st)
    ensures var pc, a := Next(b, s, st).pcs[st.task], st.action;
      && (pc == Done(Skipped) <==> a.Fetched? && ErrorOf(a.fetch) == Some(CircuitOpen))
      && (pc == Done(Failed(true)) <==> a.Fetched? && ErrorOf(a.fetch) == Some(TimeoutError))
      && (a.Fetched? ==> (pc == Done(Failed(false)) <==> ErrorOf(a.fetch) == Some(OtherError)))
      && (pc == Done(Passed) <==>
            a.Fetched? && a.fetch.Payload? && ErrorOf(a.fetch).None? && Alarms(a.fetch.evaluations) == [])
      && (a.Fetched? && a.fetch.Payload? && ErrorOf(a.fetch).None? && Alarms(a.fetch.evaluations) != [] ==>
            pc == Deciding(Alarms(a.fetch.evaluations)))
  {
    if st.action.Fetched? && st.action.fetch.Payload? {
      EvaluationIsAllOrNothing(st.action.fetch.evaluations);
    }
  }

  /** The decisions: exactly the alerts the policy dispatches go to the handlers, suppressed ones
      are passed over, and every other case fails the check. */
  lemma {:induction false} AfterDeciding(b: Checks, s0: State, run: Run, st: Step)
    requires Ready(b, s0) && Possible(b, s0, Then(run, st)) && st.action.Decide?
    ensures var s, pc := After(b, s0, run), After(b, s0, Then(run, st)).pcs[st.task];
      var events := s.pcs[st.task].events;
      var verdict := D.VerdictOn(s.alerts, AlertOf(b[st.task], events[0], st.at));
      && (pc == Deciding(events[1..]) <==> verdict == D.Suppressed)
      && (pc == Sending(events[1..]) <==> verdict.Dispatched? && st.action.handlersFound)
      && (pc == Done(Failed(false)) <==> verdict == D.Raised || (verdict.Dispatched? && !st.action.handlersFound))
  {
    RunsAreSound(b, s0, run);
  }

  /** The rest: handlers return to the remaining decisions, and timeouts and cancellations end the
      task wherever they meet it. */
  lemma {:induction false} AfterTheRest(b: Checks, s: State, st: Step)
    requires Enabled(b, s, st)
    ensures var was, pc, a := s.pcs[st.task], Next(b, s, st).pcs[st.task], st.action;
      && (a == Sent ==> pc == Deciding(was.events))
      && (pc == Done(Alerted) <==> a.Finish?)
      && (pc == Done(TimedOut(Runs(was))) <==> a.TimeOut?)
      && (pc == Done(Aborted(Runs(was))) <==> a == Abort)
    ensures forall j | 0 <= j < |b| && j != st.task :: Next(b, s, st).pcs[j] == s.pcs[j]
  {}

  // ----- what the history is told -----

  /** The entries for a task that has come to `pc`. */
  function WithEntries(log: Log<Record>, id: string, pc: Pc, ms: Timing): Log<Record> {
    if !pc.Done? then log
    else
      match pc.ending
      case Passed => Then(log, Record(id, Result(true, ms.pipeline)))
      case Alerted => Then(log, Record(id, Result(true, ms.pipeline)))
      case Skipped => Then(log, Record(id, Result(false, ms.pipeline)))
      case Failed(timedOut) =>
        var failed := Then(log, Record(id, Result(false, ms.pipeline)));
        if timedOut then Then(failed, Record(id, Result(false, ms.whole))) else failed
      case TimedOut(_) => Then(log, Record(id, Result(false, ms.whole)))
      case Rejected => log
      case Aborted(_) => log
  }

  lemma EffectIsRecorded(b: Checks, s: State, st: Step, log: Log<Record>, id: string, ms: Timing)
    requires Enabled(b, s, st)
    ensures var e := EffectOf(b, s, st);
      Recorded(log, id, e, ms) == WithEntries(log, id, e.pc, ms)
  {}

  /** Every step records the ending it leads to, with the time of the right stopwatch, and
      nothing else. */
  lemma {:induction false} EndingsAreRecorded(b: Checks, s: State, st: Step)
    requires Enabled(b, s, st)
    ensures var s' := Next(b, s, st);
      s'.log == WithEntries(s.log, b[st.task].id, s'.pcs[st.task], Millis(st.action))
  {
    EffectIsRecorded(b, s, st, s.log, b[st.task].id, Millis(st.action));
  }

  // ----- what the breakers hear -----

  /** How a call ends for the breaker around it, by the ending of the task. */
  function OutcomeOf(ending: Ending): R.Outcome
    requires !ending.Rejected?
  {
    match ending
    case Passed => R.Returned
    case Alerted => R.Returned
    case Skipped => R.Returned
    case Failed(_) => R.Raised
    case TimedOut(_) => R.Cancelled
    case Aborted(_) => R.Cancelled
  }

  /** What a breaker must hear of a task that moves from `was` to `pc`. */
  function Heard(was: Pc, pc: Pc, at: real): Option<R.Event> {
    if was.Queued? && (pc.Fetching? || pc == Done(Rejected)) then Some(R.Enter(at))
    else if Runs(was) && pc.Done? && !pc.ending.Rejected? then Some(R.Complete(OutcomeOf(pc.ending), at))
    else None
  }

  function Extended(calls: R.Trace, heard: Option<R.Event>): R.Trace {
    if heard.Some? then Then(calls, heard.value) else calls
  }

  lemma EffectIsHeard(b: Checks, s: State, st: Step)
    requires Enabled(b, s, st)
    ensures EffectOf(b, s, st).circuit == Heard(s.pcs[st.task], EffectOf(b, s, st).pc, st.at)
  {}

  function Inherited(s: State, id: string): R.Trace {
    if id in s.slots then s.slots[id].calls else Start
  }

  /** One step: the breaker of the check, if enabled, hears of its task, and no other does. */
  lemma BreakersHearStep(b: Checks, s: State, st: Step, id: string)
    requires Enabled(b, s, st) && TaskSound(b, s, st.task)
    ensures var s' := Next(b, s, st);
      var heard := Heard(s.pcs[st.task], s'.pcs[st.task], st.at);
      && Inherited(s', id) ==
           (if id in s.slots && id == b[st.task].id && s.slots[id].limits.breakerEnabled
            then Extended(Inherited(s, id), heard) else Inherited(s, id))
      && (heard.Some? ==> b[st.task].id in s.slots)
      && (id in s.slots ==> id in s'.slots && s'.slots[id].limits == s.slots[id].limits)
  {
    EffectIsHeard(b, s, st);
  }

  /** All that the breaker of `id` must hear in a run, after what it heard before. */
  function Hearing(b: Checks, s0: State, run: Run, id: string): R.Trace
    requires Possible(b, s0, run)
  {
    match run
    case Start => Inherited(s0, id)
    case Then(before, st) =>
      var was, pc := After(b, s0, before).pcs[st.task], After(b, s0, run).pcs[st.task];
      Extended(Hearing(b, s0, before, id), if b[st.task].id == id then Heard(was, pc, st.at) else None)
  }

  /** In every run, an enabled breaker has heard of every entry and of every ending of the calls
      of its check, each as what it was, in order, and of nothing else; a disabled one of nothing
      at all. */
  lemma {:induction false} BreakersHearAll(b: Checks, s0: State, run: Run, id: string)
    requires Ready(b, s0) && Possible(b, s0, run)
    ensures var slots := After(b, s0, run).slots;
      && (id in slots ==>
            slots[id].calls == if slots[id].limits.breakerEnabled then Hearing(b, s0, run, id) else Inherited(s0, id))
      && (id !in slots ==> Hearing(b, s0, run, id) == Start == Inherited(s0, id))
  {
    if run.Then? {
      BreakersHearAll(b, s0, run.before, id);
      RunsAreSound(b, s0, run.before);
      assert TaskSound(b, After(b, s0, run.before), run.last.task);
      BreakersHearStep(b, After(b, s0, run.before), run.last, id);
    }
  }

  /** So a task is turned away exactly when its breaker is enabled and the memoryless rule refuses
      what has become of the calls of its check. */
  lemma {:induction false} RejectedByOutcomes(b: Checks, s0: State, run: Run, st: Step)
    requires Ready(b, s0) && Possible(b, s0, Then(run, st)) && st.action == Enter
    ensures var id := b[st.task].id;
      var limits := After(b, s0, run).slots[id].limits;
      After(b, s0, Then(run, st)).pcs[st.task] == Done(Rejected) <==>
        limits.breakerEnabled && R.Refused(limits.breaker, Hearing(b, s0, run, id), st.at)
  {
    BreakersHearAll(b, s0, run, b[st.task].id);
    RejectedExactly(b, s0, run, st);
  }

  // ----- which alerts are decided on, and which reach the handlers -----

  /** What the evaluators of a task have yielded. */
  function EvaluationsOf(run: Run, i: nat): seq<Evaluation> {
    match run
    case Start => []
    case Then(before, st) =>
      if st.task == i && st.action.Fetched? && st.action.fetch.Payload? then st.action.fetch.evaluations
      else EvaluationsOf(before, i)
  }

  /** The alert that a step has put to the policy. */
  function AskedBy(s: State, s': State): seq<AlertEvent> {
    if s'.alerts != s.alerts && s'.alerts.Then? && s'.alerts.last.Alert?
    then [AlertEvent(s'.alerts.last.source, s'.alerts.last.carrier)] else []
  }

  /** All alerts that task `i` has put to the policy. */
  function Asked(b: Checks, s0: State, run: Run, i: nat): seq<AlertEvent>
    requires Possible(b, s0, run)
  {
    match run
    case Start => []
    case Then(before, st) =>
      Asked(b, s0, before, i) + if st.task == i then AskedBy(After(b, s0, before), After(b, s0, run)) else []
  }

  /** Those of them that the policy has dispatched. */
  function Granted(b: Checks, s0: State, run: Run, i: nat): seq<AlertEvent>
    requires Possible(b, s0, run)
  {
    match run
    case Start => []
    case Then(before, st) =>
      var s, s' := After(b, s0, before), After(b, s0, run);
      Granted(b, s0, before, i) +
      if st.task == i && AskedBy(s, s') != [] && D.VerdictOn(s.alerts, s'.alerts.last).Dispatched?
      then AskedBy(s, s') else []
  }

  /** Those that were with the handlers of the check. */
  function Handed(b: Checks, s0: State, run: Run, i: nat): seq<AlertEvent>
    requires Possible(b, s0, run) && i < |b|
  {
    match run
    case Start => []
    case Then(before, st) =>
      var s, s' := After(b, s0, before), After(b, s0, run);
      Handed(b, s0, before, i) + if st.task == i && s'.pcs[i].Sending? then AskedBy(s, s') else []
  }

  /** A step puts an alert to the policy only when it decides: the next one of its task, with
      the window of the check and the time of the step. */
  lemma StepAsks(b: Checks, s: State, st: Step)
    requires Enabled(b, s, st)
    ensures Next(b, s, st).alerts ==
      if st.action.Decide? then Then(s.alerts, AlertOf(b[st.task], s.pcs[st.task].events[0], st.at)) else s.alerts
    ensures AskedBy(s, Next(b, s, st)) == if st.action.Decide? then [s.pcs[st.task].events[0]] else []
  {}

  /** How far a task is with its alerts. */
  predicate Accounted(pc: Pc, evaluations: seq<Evaluation>, asked: seq<AlertEvent>) {
    match pc
    case Waiting => asked == []
    case Queued => asked == []
    case Fetching => asked == []
    case Deciding(events) => FirstCrash(evaluations).None? && Alarms(evaluations) == asked + events != []
    case Sending(events) => FirstCrash(evaluations).None? && Alarms(evaluations) == asked + events && asked != []
    case Done(Alerted) => FirstCrash(evaluations).None? && Alarms(evaluations) == asked != []
    case Done(Passed) => FirstCrash(evaluations).None? && Alarms(evaluations) == asked == []
    case Done(_) => asked <= Alarms(evaluations)
  }

  lemma FetchAccounts(b: Checks, s: State, st: Step, evaluations: seq<Evaluation>)
    requires Enabled(b, s, st) && st.action.Fetched?
    requires st.action.fetch.Payload? ==> evaluations == st.action.fetch.evaluations
    ensures Accounted(Next(b, s, st).pcs[st.task], evaluations, [])
  {
    AfterFetching(b, s, st);
    var none: seq<AlertEvent> := [];
    assert none + Alarms(evaluations) == Alarms(evaluations) && none <= Alarms(evaluations);
    match ErrorOf(st.action.fetch)
    case None =>
    case Some(CircuitOpen) =>
    case Some(TimeoutError) =>
    case Some(OtherError) =>
  }

  lemma AccountStep(b: Checks, s: State, st: Step, evaluations: seq<Evaluation>, asked: seq<AlertEvent>)
    requires Enabled(b, s, st) && Accounted(s.pcs[st.task], evaluations, asked)
    ensures var now := if st.action.Fetched? && st.action.fetch.Payload? then st.action.fetch.evaluations else evaluations;
      Accounted(Next(b, s, st).pcs[st.task], now, asked + AskedBy(s, Next(b, s, st)))
  {
    StepAsks(b, s, st);
    assert asked + [] == asked;
    match st.action {
      case Fetched(fetch, _) =>
        FetchAccounts(b, s, st, if fetch.Payload? then fetch.evaluations else evaluations);
      case Decide(_, _) =>
        var events := s.pcs[st.task].events;
        assert asked + events == (asked + [events[0]]) + events[1..];
      case Finish(_) =>
      case _ =>
    }
  }

  lemma AccountGoesOn(b: Checks, s: State, st: Step, i: nat, evaluations: seq<Evaluation>, asked: seq<AlertEvent>)
    requires Enabled(b, s, st) && i < |b| && Accounted(s.pcs[i], evaluations, asked)
    ensures var own := st.task == i;
      var now := if own && st.action.Fetched? && st.action.fetch.Payload? then st.action.fetch.evaluations else evaluations;
      Accounted(Next(b, s, st).pcs[i], now, asked + if own then AskedBy(s, Next(b, s, st)) else [])
  {
    if st.task == i {
      AccountStep(b, s, st, evaluations, asked);
    } else {
      AfterTheRest(b, s, st);
      assert asked + [] == asked;
    }
  }

  /** A check that has passed had no alerts.  A check that ends as alerted has put exactly the
      alerts of its evaluators to the policy, each once and in order, and none is left; while it
      decides, the alerts put to the policy and those to come are all of them; and no check ever
      puts more to the policy than it has. */
  lemma {:induction false} EveryAlertIsDecided(b: Checks, s0: State, run: Run, i: nat)
    requires Ready(b, s0) && Possible(b, s0, run) && i < |b|
    ensures |After(b, s0, run).pcs| == |b|
    ensures Accounted(After(b, s0, run).pcs[i], EvaluationsOf(run, i), Asked(b, s0, run, i))
  {
    if run.Then? {
      EveryAlertIsDecided(b, s0, run.before, i);
      AccountGoesOn(b, After(b, s0, run.before), run.last, i, EvaluationsOf(run.before, i), Asked(b, s0, run.before, i));
    }
  }

  lemma HandStep(b: Checks, s: State, st: Step)
    requires Enabled(b, s, st) && s.policy == D.Run(s.alerts)
    ensures var s' := Next(b, s, st);
      var granted := AskedBy(s, s') != [] && D.VerdictOn(s.alerts, s'.alerts.last).Dispatched?;
      && (s'.pcs[st.task].Sending? ==> granted)
      && (granted && !s'.pcs[st.task].Sending? ==> s'.pcs[st.task] == Done(Failed(false)))
  {
    StepAsks(b, s, st);
  }

  /** Exactly the alerts that the policy dispatches reach the handlers, in order; only a check
      that has failed may have lost its last one. */
  lemma {:induction false} HandlersGetDispatches(b: Checks, s0: State, run: Run, i: nat)
    requires Ready(b, s0) && Possible(b, s0, run) && i < |b|
    ensures |After(b, s0, run).pcs| == |b|
    ensures var granted, handed := Granted(b, s0, run, i), Handed(b, s0, run, i);
      && (After(b, s0, run).pcs[i] != Done(Failed(false)) ==> handed == granted)
      && handed <= granted && |granted| <= |handed| + 1
  {
    if run.Then? {
      HandlersGetDispatches(b, s0, run.before, i);
      RunsAreSound(b, s0, run.before);
      if run.last.task == i {
        HandStep(b, After(b, s0, run.before), run.last);
      }
    }
  }
}
