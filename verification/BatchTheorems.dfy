/** What every run of a batch keeps (src/engine/executor.py). */
module BatchTheorems {
  import D = AlertDedupe
  import R = Resilience
  import Dedupe = DedupeTheorems
  import opened Batch
  import opened History
  import opened Traces
  import opened Wrappers

  // ----- the books: every observable is accounted for by the tasks -----

  /** What can be observed from outside: slots taken, calls in flight (the gauge), counters, and
      history entries by success. */
  datatype Book = Taken | Inflight(id: string) | Counter(id: string, status: Status) | Entries(id: string, ok: bool)

  /** The counters a task has incremented by the time it is at `pc`. */
  predicate Counts(pc: Pc, status: Status) {
    match status
    case SStarted =>
      Runs(pc) || (pc.Done? &&
        match pc.ending
        case Rejected => false
        case TimedOut(started) => started
        case Aborted(started) => started
        case _ => true)
    case SPassed => pc == Done(Passed)
    case SAlerted => pc == Done(Alerted)
    case SSkipped => pc == Done(Skipped)
    case SFailed => pc.Done? && pc.ending.Failed?
    case SCancelled => pc == Done(TimedOut(true)) || pc == Done(Aborted(true))
    case STimeout => pc.Done? && (pc.ending == Failed(true) || pc.ending.TimedOut?)
  }

  /** The history entries it has made. */
  function EntriesOf(pc: Pc, ok: bool): int {
    if !pc.Done? then 0
    else
      match pc.ending
      case Passed => One(ok)
      case Alerted => One(ok)
      case Skipped => One(!ok)
      case Failed(timedOut) => if ok then 0 else 1 + One(timedOut)
      case TimedOut(_) => One(!ok)
      case _ => 0
  }

  function Share(g: Book, id: string, pc: Pc): int {
    match g
    case Taken => One(Holds(pc))
    case Inflight(x) => One(x == id && Runs(pc))
    case Counter(x, status) => One(x == id && Counts(pc, status))
    case Entries(x, ok) => if x == id then EntriesOf(pc, ok) else 0
  }

  function Tally(b: Checks, pcs: seq<Pc>, g: Book, k: nat): int
    requires k <= |b| == |pcs|
  {
    if k == 0 then 0 else Tally(b, pcs, g, k - 1) + Share(g, b[k - 1].id, pcs[k - 1])
  }

  function Observed(s: State, g: Book): int {
    match g
    case Taken => -s.free
    case Inflight(id) => GaugeOf(s.gauge, id)
    case Counter(id, status) => CountOf(s.counters, id, status)
    case Entries(id, ok) => CountEntries(s.log, id, ok)
  }

  lemma {:induction false} TallyUpdate(b: Checks, pcs: seq<Pc>, g: Book, k: nat, i: nat, pc: Pc)
    requires k <= |b| == |pcs| && i < |b|
    ensures Tally(b, pcs[i := pc], g, k) == Tally(b, pcs, g, k)
      + if i < k then Share(g, b[i].id, pc) - Share(g, b[i].id, pcs[i]) else 0
  {
    if k > 0 {
      TallyUpdate(b, pcs, g, k - 1, i, pc);
    }
  }

  lemma {:induction false} NothingYet(b: Checks, pcs: seq<Pc>, g: Book, k: nat)
    requires k <= |b| == |pcs| && forall i | 0 <= i < |b| :: pcs[i] == Waiting
    ensures Tally(b, pcs, g, k) == 0
  {
    if k > 0 {
      NothingYet(b, pcs, g, k - 1);
    }
  }

  /** The counter increments of a step are those that lead from its old to its new program
      point. */
  lemma StepCounts(b: Checks, s: State, st: Step, status: Status)
    requires Enabled(b, s, st)
    ensures var e := EffectOf(b, s, st);
      One(Counts(e.pc, status)) == One(Counts(s.pcs[st.task], status))
        + One(e.status == Some(status)) + One(e.timedOut && status == STimeout)
  {}

  /** So are its history entries. */
  lemma StepEntries(b: Checks, s: State, st: Step, ok: bool)
    requires Enabled(b, s, st)
    ensures var e := EffectOf(b, s, st);
      EntriesOf(e.pc, ok) == EntriesOf(s.pcs[st.task], ok)
        + One(e.result == Some(ok)) + One(e.timedOut && !ok)
  {}

  lemma CountedAdds(counters: map<Label, nat>, id: string, e: Effect, x: string, status: Status)
    ensures CountOf(Counted(counters, id, e), x, status) == CountOf(counters, x, status)
      + One(x == id && e.status == Some(status)) + One(x == id && e.timedOut && status == STimeout)
  {}

  lemma RecordedAdds(log: Log<Record>, id: string, e: Effect, ms: Timing, x: string, ok: bool)
    ensures CountEntries(Recorded(log, id, e, ms), x, ok) == CountEntries(log, x, ok)
      + One(x == id && e.result == Some(ok)) + One(x == id && e.timedOut && !ok)
  {}

  lemma {:induction false} StepObserved(b: Checks, s: State, st: Step, g: Book)
    requires Enabled(b, s, st)
    ensures var id, e := b[st.task].id, EffectOf(b, s, st);
      Observed(Next(b, s, st), g) - Observed(s, g) == Share(g, id, e.pc) - Share(g, id, s.pcs[st.task])
  {
    var id, e := b[st.task].id, EffectOf(b, s, st);
    match g
    case Taken =>
    case Inflight(x) =>
    case Counter(x, status) =>
      StepCounts(b, s, st, status);
      CountedAdds(s.counters, id, e, x, status);
    case Entries(x, ok) =>
      StepEntries(b, s, st, ok);
      RecordedAdds(s.log, id, e, Millis(st.action), x, ok);
  }

  /** The observable has grown by exactly what the tasks account for. */
  predicate Grown(b: Checks, s0: State, s: State, g: Book) {
    |s.pcs| == |b| && Observed(s, g) == Observed(s0, g) + Tally(b, s.pcs, g, |b|)
  }

  /** At every point of every run, each counter, each gauge, each number of history entries and
      the number of free slots is determined by where the tasks are. */
  lemma {:induction false} BooksBalance(b: Checks, s0: State, run: Run, g: Book)
    requires Ready(b, s0) && Possible(b, s0, run)
    ensures Grown(b, s0, After(b, s0, run), g)
  {
    if run.Then? {
      BooksBalance(b, s0, run.before, g);
      var s, st := After(b, s0, run.before), run.last;
      StepObserved(b, s, st, g);
      TallyUpdate(b, s.pcs, g, |b|, st.task, EffectOf(b, s, st).pc);
    } else {
      NothingYet(b, s0.pcs, g, |b|);
    }
  }

  // ----- the evaluation loop, read from the front -----

  function FirstCrash(evaluations: seq<Evaluation>): Option<Error> {
    if evaluations == [] then None
    else if evaluations[0].Crashed? then Some(evaluations[0].error)
    else FirstCrash(evaluations[1..])
  }

  function Alarms(evaluations: seq<Evaluation>): seq<AlertEvent> {
    if evaluations == [] then []
    else if evaluations[0].Fired? then [evaluations[0].event] + Alarms(evaluations[1..])
    else Alarms(evaluations[1..])
  }

  lemma {:induction false} OneMoreEvaluation(init: seq<Evaluation>, e: Evaluation)
    ensures FirstCrash(init + [e])
         == if FirstCrash(init).None? && e.Crashed? then Some(e.error) else FirstCrash(init)
    ensures Alarms(init + [e]) == Alarms(init) + if e.Fired? then [e.event] else []
  {
    if init != [] {
      OneMoreEvaluation(init[1..], e);
      assert (init + [e])[1..] == init[1..] + [e];
    }
  }

  /** The first exception of an evaluator decides; without one, the alerts are those of all
      evaluators, none lost, in the order of the configuration. */
  lemma {:induction false} EvaluationIsAllOrNothing(evaluations: seq<Evaluation>)
    ensures Collect(evaluations) == match FirstCrash(evaluations)
                                    case Some(error) => Broken(error)
                                    case None => Events(Alarms(evaluations))
  {
    if evaluations != [] {
      var init, e := evaluations[..|evaluations| - 1], evaluations[|evaluations| - 1];
      EvaluationIsAllOrNothing(init);
      OneMoreEvaluation(init, e);
      assert evaluations == init + [e];
    }
  }

  // ----- the ledger -----

  /** Per check: every start is accounted for by an outcome or is still in flight, successes in
      the history are the passed and the alerted runs, and the other entries are the failed,
      the skipped and the timed out ones.  (A timeout that the pipeline raises by itself is
      both failed and timed out, and is recorded twice.) */
  predicate Ledger(s: State, id: string) {
    && CountOf(s.counters, id, SStarted)
       == CountOf(s.counters, id, SPassed) + CountOf(s.counters, id, SAlerted)
        + CountOf(s.counters, id, SFailed) + CountOf(s.counters, id, SSkipped)
        + CountOf(s.counters, id, SCancelled) + GaugeOf(s.gauge, id)
    && CountEntries(s.log, id, true)
       == CountOf(s.counters, id, SPassed) + CountOf(s.counters, id, SAlerted)
    && CountEntries(s.log, id, false)
       == CountOf(s.counters, id, SFailed) + CountOf(s.counters, id, SSkipped) + CountOf(s.counters, id, STimeout)
  }

  ghost predicate Balanced(s: State) {
    forall id :: Ledger(s, id)
  }

  lemma PointBalances(pc: Pc)
    ensures One(Counts(pc, SStarted))
      == One(Counts(pc, SPassed)) + One(Counts(pc, SAlerted)) + One(Counts(pc, SFailed))
       + One(Counts(pc, SSkipped)) + One(Counts(pc, SCancelled)) + One(Runs(pc))
    ensures EntriesOf(pc, true) == One(Counts(pc, SPassed)) + One(Counts(pc, SAlerted))
    ensures EntriesOf(pc, false)
      == One(Counts(pc, SFailed)) + One(Counts(pc, SSkipped)) + One(Counts(pc, STimeout))
  {}

  function TallyOf(b: Checks, pcs: seq<Pc>, id: string, status: Status, k: nat): int
    requires k <= |b| == |pcs|
  {
    Tally(b, pcs, Counter(id, status), k)
  }

  lemma {:induction false} TasksBalance(b: Checks, pcs: seq<Pc>, id: string, k: nat)
    requires k <= |b| == |pcs|
    ensures TallyOf(b, pcs, id, SStarted, k)
      == TallyOf(b, pcs, id, SPassed, k) + TallyOf(b, pcs, id, SAlerted, k)
       + TallyOf(b, pcs, id, SFailed, k) + TallyOf(b, pcs, id, SSkipped, k)
       + TallyOf(b, pcs, id, SCancelled, k) + Tally(b, pcs, Inflight(id), k)
    ensures Tally(b, pcs, Entries(id, true), k)
      == TallyOf(b, pcs, id, SPassed, k) + TallyOf(b, pcs, id, SAlerted, k)
    ensures Tally(b, pcs, Entries(id, false), k)
      == TallyOf(b, pcs, id, SFailed, k) + TallyOf(b, pcs, id, SSkipped, k) + TallyOf(b, pcs, id, STimeout, k)
  {
    if k > 0 {
      TasksBalance(b, pcs, id, k - 1);
      PointBalances(pcs[k - 1]);
    }
  }

  lemma LedgerFromBooks(b: Checks, s0: State, s: State, id: string)
    requires |b| == |s.pcs| && Ledger(s0, id)
    requires forall g :: Grown(b, s0, s, g)
    ensures Ledger(s, id)
  {
    assert Grown(b, s0, s, Inflight(id));
    assert Grown(b, s0, s, Entries(id, true)) && Grown(b, s0, s, Entries(id, false));
    assert Grown(b, s0, s, Counter(id, SStarted)) && Grown(b, s0, s, Counter(id, SPassed));
    assert Grown(b, s0, s, Counter(id, SAlerted)) && Grown(b, s0, s, Counter(id, SFailed));
    assert Grown(b, s0, s, Counter(id, SSkipped)) && Grown(b, s0, s, Counter(id, SCancelled));
    assert Grown(b, s0, s, Counter(id, STimeout));
    TasksBalance(b, s.pcs, id, |b|);
  }

  /** The ledger of every check is conserved: it holds at every point of every run if it held
      when the batch began. */
  lemma {:induction false} LedgerIsConserved(b: Checks, s0: State, run: Run, id: string)
    requires Ready(b, s0) && Possible(b, s0, run) && Ledger(s0, id)
    ensures Ledger(After(b, s0, run), id)
  {
    forall g
      ensures Grown(b, s0, After(b, s0, run), g)
    {
      BooksBalance(b, s0, run, g);
    }
    LedgerFromBooks(b, s0, After(b, s0, run), id);
  }

  lemma BalanceIsConserved(b: Checks, s0: State, run: Run)
    requires Ready(b, s0) && Possible(b, s0, run) && Balanced(s0)
    ensures Balanced(After(b, s0, run))
  {
    forall id {
      LedgerIsConserved(b, s0, run, id);
    }
  }

  /** With nothing counted, nothing in flight and nothing recorded, the ledger holds. */
  lemma NewBooksBalance(s: State)
    requires s.counters == map[] && s.gauge == map[] && s.log == Start
    ensures Balanced(s)
  {}

  /** It does not depend on where tasks are. */
  lemma BooksIgnoreTasks(s: State, pcs: seq<Pc>)
    requires Balanced(s)
    ensures Balanced(s.(pcs := pcs))
  {
    forall id
      ensures Ledger(s.(pcs := pcs), id)
    {
      assert Ledger(s, id);
    }
  }

  // ----- permits, breakers and the policy in every run -----

  /** The slot of a check: permits and running tasks add up to the limit, and the breaker is
      where its own run has taken it. */
  ghost predicate SlotInOrder(slots: map<string, Slot>, id: string, running: int, now: real) {
    if id in slots then
      var slot := slots[id];
      && slot.permits >= 0 && slot.permits + running == slot.limits.maxInflight
      && slot.breaker == R.Run(slot.limits.breaker, slot.calls)
      && R.NotAfter(slot.calls, now)
    else
      running == 0
  }

  ghost predicate SlotSound(b: Checks, s: State, id: string)
    requires |b| == |s.pcs|
  {
    SlotInOrder(s.slots, id, Tally(b, s.pcs, Inflight(id), |b|), s.now)
  }

  ghost predicate TaskSound(b: Checks, s: State, i: nat)
    requires i < |b| == |s.pcs|
  {
    Holds(s.pcs[i]) ==> b[i].id in s.slots
  }

  ghost predicate Sound(b: Checks, s: State) {
    && |b| == |s.pcs| && s.free >= 0
    && (forall id :: SlotSound(b, s, id))
    && (forall i | 0 <= i < |b| :: TaskSound(b, s, i))
    && s.policy == D.Run(s.alerts) && D.Monotone(s.alerts) && D.NotAfter(s.alerts, s.now)
  }

  /** What matters about an effect for the slots: the breaker is told the time of the step, by
      a task that is past the global semaphore, and only an entry takes a permit. */
  predicate Tame(slots: map<string, Slot>, c: Check, was: Pc, e: Effect, at: real) {
    && (e.circuit.Some? ==> Holds(was) && e.circuit.value.at == at)
    && (Runs(e.pc) && !Runs(was) ==> c.id in slots && slots[c.id].permits > 0)
    && (Holds(was) ==> c.id in slots)
  }

  lemma EffectsAreTame(b: Checks, s: State, st: Step)
    requires Enabled(b, s, st) && TaskSound(b, s, st.task)
    ensures Tame(s.slots, b[st.task], s.pcs[st.task], EffectOf(b, s, st), st.at)
  {}

  lemma SlotMove(slots: map<string, Slot>, c: Check, was: Pc, e: Effect, now: real, at: real, id: string, running: int)
    requires Tame(slots, c, was, e, at) && now <= at && SlotInOrder(slots, id, running, now)
    ensures SlotInOrder(SlotsAfter(slots, c, was, e), id,
      running + if id == c.id then One(Runs(e.pc)) - One(Runs(was)) else 0, at)
  {
    if id in slots {
      R.LaterStill(slots[id].calls, now, at);
    }
  }

  lemma SlotStep(b: Checks, s: State, st: Step, id: string)
    requires Sound(b, s) && Enabled(b, s, st)
    ensures SlotSound(b, Next(b, s, st), id)
  {
    var e := EffectOf(b, s, st);
    assert SlotSound(b, s, id) && TaskSound(b, s, st.task);
    EffectsAreTame(b, s, st);
    TallyUpdate(b, s.pcs, Inflight(id), |b|, st.task, e.pc);
    SlotMove(s.slots, b[st.task], s.pcs[st.task], e, s.now, st.at, id, Tally(b, s.pcs, Inflight(id), |b|));
  }

  lemma SoundStep(b: Checks, s: State, st: Step)
    requires Sound(b, s) && Enabled(b, s, st)
    ensures Sound(b, Next(b, s, st))
  {
    var s' := Next(b, s, st);
    forall id {
      SlotStep(b, s, st, id);
    }
    forall i | 0 <= i < |b|
      ensures TaskSound(b, s', i)
    {
      assert TaskSound(b, s, i);
    }
    D.LaterStill(s.alerts, s.now, st.at);
  }

  lemma {:induction false} RunsAreSound(b: Checks, s0: State, run: Run)
    requires Ready(b, s0) && Possible(b, s0, run)
    ensures Sound(b, After(b, s0, run))
  {
    if run.Then? {
      RunsAreSound(b, s0, run.before);
      SoundStep(b, After(b, s0, run.before), run.last);
    } else {
      forall id
        ensures SlotSound(b, s0, id)
      {
        NothingYet(b, s0.pcs, Inflight(id), |b|);
      }
    }
  }

  /** No permit is ever lost or invented: the free slots and the tasks past the global semaphore
      add up to its limit; the permits of a check and its running tasks add up to the limit of
      the check, so at most that many run; and the gauge shows exactly the running tasks. */
  lemma ConcurrencyIsBounded(b: Checks, s0: State, run: Run, id: string)
    requires Ready(b, s0) && Possible(b, s0, run)
    ensures var s := After(b, s0, run);
      var running := Tally(b, s.pcs, Inflight(id), |b|);
      && s.free >= 0 && s.free + Tally(b, s.pcs, Taken, |b|) == s0.free
      && (id in s.slots ==>
           s.slots[id].permits >= 0 && s.slots[id].permits + running == s.slots[id].limits.maxInflight)
      && GaugeOf(s.gauge, id) == GaugeOf(s0.gauge, id) + running
  {
    RunsAreSound(b, s0, run);
    BooksBalance(b, s0, run, Taken);
    BooksBalance(b, s0, run, Inflight(id));
    assert SlotSound(b, After(b, s0, run), id);
  }

  /** A task that enters is turned away exactly when the breaker of its check is enabled and the
      memoryless rule refuses the run of that breaker so far. */
  lemma {:induction false} RejectedExactly(b: Checks, s0: State, run: Run, st: Step)
    requires Ready(b, s0) && Possible(b, s0, Then(run, st)) && st.action == Enter
    ensures var s := After(b, s0, run);
      var slot := s.slots[b[st.task].id];
      s.pcs[st.task] == Queued
      && (After(b, s0, Then(run, st)).pcs[st.task] == Done(Rejected) <==>
            slot.limits.breakerEnabled && R.Refused(slot.limits.breaker, slot.calls, st.at))
  {
    var s := After(b, s0, run);
    RunsAreSound(b, s0, run);
    var id := b[st.task].id;
    assert SlotSound(b, s, id);
    R.LaterStill(s.slots[id].calls, s.now, st.at);
    R.AdmissionIsMemoryless(s.slots[id].limits.breaker, s.slots[id].calls, st.at);
  }

  /** The limits of the first task in the run that came past the global semaphore with this
      check id. */
  function FirstAsked(b: Checks, run: Run, id: string): Option<Limits> {
    match run
    case Start => None
    case Then(before, st) =>
      if FirstAsked(b, before, id).Some? then FirstAsked(b, before, id)
      else if st.action == Acquire && st.task < |b| && b[st.task].id == id then Some(b[st.task].limits)
      else None
  }

  /** The configuration that asks first wins: a check id keeps the limits it had when the batch
      began, and otherwise has those of the first task that asked, whatever later tasks of the
      same id bring along; ids that nobody asked for have none. */
  lemma {:induction false} FirstConfigurationWins(b: Checks, s0: State, run: Run, id: string)
    requires Ready(b, s0) && Possible(b, s0, run)
    ensures var slots := After(b, s0, run).slots;
      && (id in slots <==> id in s0.slots || FirstAsked(b, run, id).Some?)
      && (id in s0.slots ==> slots[id].limits == s0.slots[id].limits)
      && (id in slots && id !in s0.slots ==> slots[id].limits == FirstAsked(b, run, id).value)
  {
    if run.Then? {
      FirstConfigurationWins(b, s0, run.before, id);
      RunsAreSound(b, s0, run.before);
      assert TaskSound(b, After(b, s0, run.before), run.last.task);
    }
  }

  /** However the tasks of a batch interleave, alerts of one fingerprint go out at least `d`
      apart, if its dedupe windows are at least `d` and purges keep `d`; and suppression is no
      stricter than it must be: if the windows are at most `d`, no choice of alerts so far apart
      is larger by more than the alerts on which the policy raised. */
  lemma {:induction false} AlertsStayApart(b: Checks, s0: State, run: Run, fp: string, d: real, pick: seq<nat>)
    requires Ready(b, s0) && Possible(b, s0, run)
    ensures var alerts := After(b, s0, run).alerts;
      && (Dedupe.WindowsAtLeast(alerts, fp, d) && Dedupe.PurgesKeep(alerts, d) ==>
            Dedupe.Separated(Dedupe.DispatchTimes(alerts, fp), d))
      && (Dedupe.WindowsAtMost(alerts, fp, d) && Dedupe.Choice(pick, Dedupe.AlertTimes(alerts, fp), d) ==>
            |pick| <= |Dedupe.DispatchTimes(alerts, fp)| + Dedupe.RaisedCount(alerts, fp))
  {
    RunsAreSound(b, s0, run);
    var alerts := After(b, s0, run).alerts;
    if Dedupe.WindowsAtLeast(alerts, fp, d) && Dedupe.PurgesKeep(alerts, d) {
      Dedupe.DispatchesStayApart(alerts, fp, d);
    }
    if Dedupe.WindowsAtMost(alerts, fp, d) && Dedupe.Choice(pick, Dedupe.AlertTimes(alerts, fp), d) {
      Dedupe.DispatchesStayAhead(alerts, fp, d, pick);
    }
  }

  /** What a failing step does to the books and to the breaker of its check. */
  ghost predicate Fails(b: Checks, s: State, st: Step)
    requires Enabled(b, s, st)
  {
    var id, s' := b[st.task].id, Next(b, s, st);
    && s'.pcs[st.task] == Done(Failed(false))
    && CountOf(s'.counters, id, SFailed) == CountOf(s.counters, id, SFailed) + 1
    && s'.log == Then(s.log, Record(id, Result(false, Millis(st.action).pipeline)))
    && GaugeOf(s'.gauge, id) == GaugeOf(s.gauge, id) - 1
    && s'.free == s.free + 1
    && (id in s.slots && s.slots[id].limits.breakerEnabled ==>
          s'.slots[id].calls == Then(s.slots[id].calls, R.Complete(R.Raised, st.at)))
  }

  lemma DecisionStep(b: Checks, s: State, st: Step)
    requires Enabled(b, s, st) && st.action.Decide?
    ensures var event := s.pcs[st.task].events[0];
      var fp := D.Fingerprint(event.source);
      EffectOf(b, s, st) == Raising(OtherError, st.at).(alert := EffectOf(b, s, st).alert) <==>
        && !D.WithinWindow(s.policy, fp, b[st.task].window, st.at)
        && (!st.action.handlersFound || (event.carrier == D.Frozen && D.Pending(s.policy, fp) > 0))
    ensures !Next(b, s, st).pcs[st.task].Done?
         || EffectOf(b, s, st) == Raising(OtherError, st.at).(alert := EffectOf(b, s, st).alert)
  {}

  lemma FailingStep(b: Checks, s: State, st: Step)
    requires Enabled(b, s, st)
    requires EffectOf(b, s, st) == Raising(OtherError, st.at).(alert := EffectOf(b, s, st).alert)
    requires Runs(s.pcs[st.task])
    ensures Fails(b, s, st)
  {}

  /** A check whose alert is decided on fails, with a failed run in the books, an unsuccessful
      entry in the history and a failure for its breaker, exactly when its window has passed since
      the latest dispatch, and either the handlers of the check cannot be found or the event is
      frozen and the latest alert of its fingerprint was suppressed.  Otherwise it goes on. */
  lemma {:induction false} DecisionFails(b: Checks, s0: State, run: Run, st: Step)
    requires Ready(b, s0) && Possible(b, s0, Then(run, st)) && st.action.Decide?
    requires Dedupe.PurgesKeep(After(b, s0, run).alerts, b[st.task].window)
    ensures var s := After(b, s0, run);
      var event, window := s.pcs[st.task].events[0], b[st.task].window;
      var fp := D.Fingerprint(event.source);
      && (Fails(b, s, st) <==>
            && !Dedupe.Recent(s.alerts, fp, window, st.at)
            && (!st.action.handlersFound
                || Dedupe.Unmentionable(s.alerts, D.Alert(event.source, window, event.carrier, st.at))))
      && (Fails(b, s, st) || !Next(b, s, st).pcs[st.task].Done?)
  {
    var s := After(b, s0, run);
    RunsAreSound(b, s0, run);
    DecisionStep(b, s, st);
    var fp := D.Fingerprint(s.pcs[st.task].events[0].source);
    D.LaterStill(s.alerts, s.now, st.at);
    Dedupe.WindowIsRecent(s.alerts, fp, b[st.task].window, st.at);
    Dedupe.PendingSinceSuppressed(s.alerts, fp);
    if EffectOf(b, s, st).pc.Done? {
      FailingStep(b, s, st);
    }
  }

  // A batch of one check, on its way to a decision.

  /** What the steps before a decision leave alone. */
  predicate OnTheWay(s: State, s': State, pc: Pc, at: real) {
    s'.pcs == [pc] && s'.policy == s.policy && s'.alerts == s.alerts && s'.now == at
  }

  lemma WaysIn(b: Checks, s: State, at: real)
    requires |b| == 1 && s.pcs == [Waiting] && s.free > 0 && s.now <= at && b[0].id !in s.slots
    ensures Enabled(b, s, Step(0, Acquire, at))
    ensures var s' := Next(b, s, Step(0, Acquire, at));
      OnTheWay(s, s', Queued, at) && b[0].id in s'.slots && s'.slots[b[0].id] == SlotFor(s.slots, b[0])
  {}

  lemma WayThrough(b: Checks, s: State, at: real)
    requires |b| == 1 && s.pcs == [Queued] && s.now <= at && b[0].id in s.slots
    requires var slot := s.slots[b[0].id]; slot.permits > 0 && !slot.limits.breakerEnabled
    ensures Enabled(b, s, Step(0, Enter, at))
    ensures OnTheWay(s, Next(b, s, Step(0, Enter, at)), Fetching, at)
  {}

  lemma WayToDecision(b: Checks, s: State, event: AlertEvent, at: real)
    requires |b| == 1 && s.pcs == [Fetching] && s.now <= at && b[0].evaluators >= 1
    ensures var st := Step(0, Fetched(Payload([Fired(event)]), INSTANT), at);
      Enabled(b, s, st) && OnTheWay(s, Next(b, s, st), Deciding([event]), at)
  {
    var evaluations := [Fired(event)];
    assert evaluations[..0] == [] && Collect([]) == Events([]);
    assert Collect(evaluations) == Events([event]);
  }

  lemma ReachDecision(b: Checks, s0: State, event: AlertEvent, at: real) returns (run: Run)
    requires |b| == 1 && s0.pcs == [Waiting] && s0.free > 0 && s0.now <= at && b[0].id !in s0.slots
    requires b[0].evaluators >= 1 && b[0].limits.maxInflight >= 1 && !b[0].limits.breakerEnabled
    ensures Possible(b, s0, run) && OnTheWay(s0, After(b, s0, run), Deciding([event]), at)
  {
    var acquire, enter := Step(0, Acquire, at), Step(0, Enter, at);
    WaysIn(b, s0, at);
    var one := Next(b, s0, acquire);
    WayThrough(b, one, at);
    var two := Next(b, one, enter);
    WayToDecision(b, two, event, at);
    run := ThreeSteps(b, s0, acquire, enter, Step(0, Fetched(Payload([Fired(event)]), INSTANT), at));
  }

  lemma ThreeSteps(b: Checks, s: State, x: Step, y: Step, z: Step) returns (run: Run)
    requires Enabled(b, s, x) && Enabled(b, Next(b, s, x), y) && Enabled(b, Next(b, Next(b, s, x), y), z)
    ensures Possible(b, s, run) && After(b, s, run) == Next(b, Next(b, Next(b, s, x), y), z)
  {
    var none: Run := Start;
    assert Possible(b, s, none) && After(b, s, none) == s;
    var one := Then(none, x);
    assert Possible(b, s, one) && After(b, s, one) == Next(b, s, x);
    var two := Then(one, y);
    assert Possible(b, s, two) && After(b, s, two) == Next(b, Next(b, s, x), y);
    run := Then(two, z);
  }

  lemma DecisionByUnmentionable(b: Checks, s: State, event: AlertEvent, at: real)
    requires |b| == 1 && s.pcs == [Deciding([event])] && s.now <= at
    requires s.policy == D.Run(s.alerts)
    requires D.VerdictOn(s.alerts, D.Alert(event.source, b[0].window, event.carrier, at)) == D.Raised
    ensures var st := Step(0, Decide(true, INSTANT), at);
      Enabled(b, s, st) && Fails(b, s, st)
  {
    var st := Step(0, Decide(true, INSTANT), at);
    assert [event][1..] == [];
    DecisionStep(b, s, st);
    FailingStep(b, s, st);
  }

  /** For every source and window there is a batch in which this happens, to a check that fetches
      its payload, alerts as it did before, and finds its handler. */
  lemma FrozenAlertFailsItsCheck(source: D.Source, d: real) returns (b: Checks, s0: State, run: Run, st: Step)
    requires d > 0.0
    ensures Ready(b, s0) && Possible(b, s0, Then(run, st))
    ensures st.action.Decide? && st.action.handlersFound
    ensures Fails(b, After(b, s0, run), st)
  {
    var tr, e := Dedupe.FrozenEventsLoseDispatches(source, d);
    var event := AlertEvent(source, D.Frozen);
    b := [Check("c", Limits(1, false, R.Config(1, 0.0)), 1, 0.0, d)];
    s0 := State(1, map[], [Waiting], map[], map[], Start, D.Run(tr), tr, d);
    run := ReachDecision(b, s0, event, d);
    st := Step(0, Decide(true, INSTANT), d);
    DecisionByUnmentionable(b, After(b, s0, run), event, d);
  }

  // ----- every batch drains -----

  function Fuel(c: Check, pc: Pc): nat {
    match pc
    case Waiting => 2 * c.evaluators + 5
    case Queued => 2 * c.evaluators + 4
    case Fetching => 2 * c.evaluators + 3
    case Deciding(events) => 2 * |events| + 1
    case Sending(events) => 2 * |events| + 2
    case Done(_) => 0
  }

  function TotalFuel(b: Checks, pcs: seq<Pc>, k: nat): nat
    requires k <= |b| == |pcs|
  {
    if k == 0 then 0 else TotalFuel(b, pcs, k - 1) + Fuel(b[k - 1], pcs[k - 1])
  }

  function Length(run: Run): nat {
    match run
    case Start => 0
    case Then(before, _) => Length(before) + 1
  }

  lemma {:induction false} CollectsAtMostAll(evaluations: seq<Evaluation>)
    ensures Collect(evaluations).Events? ==> |Collect(evaluations).events| <= |evaluations|
  {
    if evaluations != [] {
      CollectsAtMostAll(evaluations[..|evaluations| - 1]);
    }
  }

  lemma StepsBurnFuel(b: Checks, s: State, st: Step)
    requires Enabled(b, s, st)
    ensures Fuel(b[st.task], EffectOf(b, s, st).pc) < Fuel(b[st.task], s.pcs[st.task])
  {
    if st.action.Fetched? && st.action.fetch.Payload? {
      CollectsAtMostAll(st.action.fetch.evaluations);
    }
  }

  lemma {:induction false} FuelUpdate(b: Checks, pcs: seq<Pc>, k: nat, i: nat, pc: Pc)
    requires k <= |b| == |pcs| && i < |b|
    ensures TotalFuel(b, pcs[i := pc], k)
         == TotalFuel(b, pcs, k) + if i < k then Fuel(b[i], pc) - Fuel(b[i], pcs[i]) else 0
  {
    if k > 0 {
      FuelUpdate(b, pcs, k - 1, i, pc);
    }
  }

  /** No run is longer than the fuel of the batch: five steps for each task and two for each of
      its evaluators. */
  lemma {:induction false} RunsAreShort(b: Checks, s0: State, run: Run)
    requires Ready(b, s0) && Possible(b, s0, run)
    ensures |After(b, s0, run).pcs| == |b|
    ensures Length(run) + TotalFuel(b, After(b, s0, run).pcs, |b|) <= TotalFuel(b, s0.pcs, |b|)
  {
    if run.Then? {
      RunsAreShort(b, s0, run.before);
      var s, st := After(b, s0, run.before), run.last;
      StepsBurnFuel(b, s, st);
      FuelUpdate(b, s.pcs, |b|, st.task, EffectOf(b, s, st).pc);
    }
  }

  /** The bounds that the configuration schema checks. */
  predicate Positive(b: Checks, s: State) {
    && s.free >= 1
    && (forall i | 0 <= i < |b| :: b[i].limits.maxInflight >= 1)
    && SlotsPositive(s.slots)
  }

  predicate SlotsPositive(slots: map<string, Slot>) {
    forall id | id in slots :: slots[id].limits.maxInflight >= 1
  }

  lemma {:induction false} LimitsStayPositive(b: Checks, s0: State, run: Run)
    requires Ready(b, s0) && Possible(b, s0, run) && Positive(b, s0)
    ensures SlotsPositive(After(b, s0, run).slots)
  {
    if run.Then? {
      LimitsStayPositive(b, s0, run.before);
      var st := run.last;
      assert b[st.task].limits.maxInflight >= 1;
    }
  }

  lemma {:induction false} NobodyCounts(b: Checks, pcs: seq<Pc>, g: Book, k: nat)
    requires k <= |b| == |pcs|
    requires forall i | 0 <= i < k :: Share(g, b[i].id, pcs[i]) == 0
    ensures Tally(b, pcs, g, k) == 0
  {
    if k > 0 {
      NobodyCounts(b, pcs, g, k - 1);
    }
  }

  lemma SomeStep(b: Checks, s: State, free: int) returns (st: Step)
    requires Sound(b, s) && SlotsPositive(s.slots)
    requires s.free + Tally(b, s.pcs, Taken, |b|) == free >= 1
    requires exists i :: 0 <= i < |b| && !s.pcs[i].Done?
    ensures Enabled(b, s, st) && !st.action.TimeOut? && !st.action.Abort?
  {
    if i :| 0 <= i < |b| && Runs(s.pcs[i]) {
      st := Step(i, match s.pcs[i]
                    case Fetching => Fetched(Payload([]), INSTANT)
                    case Deciding(events) => if events == [] then Finish(INSTANT) else Decide(true, INSTANT)
                    case _ => Sent, s.now);
    } else if i :| 0 <= i < |b| && s.pcs[i] == Queued {
      var id := b[i].id;
      assert TaskSound(b, s, i) && SlotSound(b, s, id);
      NobodyCounts(b, s.pcs, Inflight(id), |b|);
      st := Step(i, Enter, s.now);
    } else {
      var i :| 0 <= i < |b| && !s.pcs[i].Done?;
      NobodyCounts(b, s.pcs, Taken, |b|);
      st := Step(i, Acquire, s.now);
    }
  }

  /** Nested acquisition cannot deadlock: as long as a task is unfinished, some task can make a
      step that is neither a timeout nor a cancellation.  With `RunsAreShort`, every batch
      comes to an end. */
  lemma NeverStuck(b: Checks, s0: State, run: Run) returns (st: Step)
    requires Ready(b, s0) && Possible(b, s0, run) && Positive(b, s0)
    requires exists i :: 0 <= i < |b| && !After(b, s0, run).pcs[i].Done?
    ensures Possible(b, s0, Then(run, st)) && !st.action.TimeOut? && !st.action.Abort?
  {
    RunsAreSound(b, s0, run);
    LimitsStayPositive(b, s0, run);
    BooksBalance(b, s0, run, Taken);
    st := SomeStep(b, After(b, s0, run), s0.free);
  }

  /** When all tasks are done, every permit is back and nothing is in flight: the executor is
      ready for the next batch, whatever that is. */
  lemma DrainedIsReady(b: Checks, s0: State, run: Run, next: Checks)
    requires Ready(b, s0) && Possible(b, s0, run)
    requires forall i | 0 <= i < |b| :: After(b, s0, run).pcs[i].Done?
    ensures var s := After(b, s0, run);
      && Ready(next, s.(pcs := seq(|next|, i => Waiting)))
      && s.free == s0.free
      && forall id :: GaugeOf(s.gauge, id) == GaugeOf(s0.gauge, id)
  {
    var s := After(b, s0, run);
    RunsAreSound(b, s0, run);
    BooksBalance(b, s0, run, Taken);
    NobodyCounts(b, s.pcs, Taken, |b|);
    forall id
      ensures GaugeOf(s.gauge, id) == GaugeOf(s0.gauge, id)
      ensures id in s.slots ==> Idle(s.slots[id], s.now)
    {
      BooksBalance(b, s0, run, Inflight(id));
      NobodyCounts(b, s.pcs, Inflight(id), |b|);
      assert SlotSound(b, s, id);
    }
  }
}
