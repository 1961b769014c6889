/** The executor of src/engine/executor.py as an object.  Its methods are the stretches of code
    between two suspension points; each does to the fields, the limiters, the history and the
    policy exactly what the step system of `Batch` says, so every theorem about its runs is one
    about this object. */
module Executor {
  import D = AlertDedupe
  import R = Resilience
  import opened Batch
  import opened BatchTheorems
  import opened ExecutorSteps
  import opened History
  import opened Limiter
  import opened Traces

  /** The evaluation loop: it collects the alerts in order and stops at the first exception. */
  method Evaluate(evaluations: seq<Evaluation>) returns (collected: Collected)
    ensures collected == Collect(evaluations)
  {
    var validEvents: seq<AlertEvent> := [];
    for i := 0 to |evaluations|
      invariant Collect(evaluations[..i]) == Events(validEvents)
    {
      assert evaluations[..i + 1][..i] == evaluations[..i];
      match evaluations[i] {
        case Fired(event) => validEvents := validEvents + [event];
        case Crashed(error) =>
          CollectStops(evaluations, i + 1);
          return Broken(error);
        case _ =>
      }
    }
    assert evaluations[..|evaluations|] == evaluations;
    return Events(validEvents);
  }

  /** What has broken once stays broken. */
  lemma {:induction false} CollectStops(evaluations: seq<Evaluation>, k: nat)
    requires k <= |evaluations| && Collect(evaluations[..k]).Broken?
    ensures Collect(evaluations) == Collect(evaluations[..k])
  {
    if k == |evaluations| {
      assert evaluations[..k] == evaluations;
    } else {
      var all := evaluations[..|evaluations| - 1];
      assert all[..k] == evaluations[..k];
      CollectStops(all, k);
    }
  }

  class Executor {
    const resilience: ResilienceManager
    const history: ExecutionHistory
    const policy: D.AlertPolicy
    var free: int
    var checks: Checks
    var pcs: seq<Pc>
    var counters: map<Label, nat>
    var gauge: map<string, int>
    ghost var now: real
    ghost var beginning: State
    ghost var run: Run

    ghost function View(): State
      requires resilience.Valid()
      reads this, resilience, resilience.Repr, history, policy
    {
      State(free, resilience.View(), pcs, counters, gauge, history.log, policy.View(), policy.trace, now)
    }

    /** The objects the executor works with are in order and share nothing. */
    ghost predicate Wired()
      reads this, resilience, resilience.Repr, history, policy
    {
      && resilience.Valid() && {this, history, policy} !! resilience.Repr
      && history.Valid() && policy.Valid()
    }

    /** The state is the one that the run since the beginning of the batch has led to, and the
        ledgers of all checks balance. */
    ghost predicate Valid()
      reads this, resilience, resilience.Repr, history, policy
    {
      Wired() && OnCourse(checks, beginning, run, View())
    }

    /** The policy and the resilience manager come from outside and may have a past; no check
        may be running. */
    constructor (concurrencyLimit: nat, policy: D.AlertPolicy, resilience: ResilienceManager, now: real)
      requires resilience.Valid() && policy.Valid() && policy !in resilience.Repr
      requires Ready([], State(concurrencyLimit, resilience.View(), [], map[], map[], Start, policy.View(), policy.trace, now))
      ensures Valid() && fresh(history) && this.policy == policy && this.resilience == resilience
      ensures checks == [] && free == concurrencyLimit && counters == map[] && gauge == map[] && run == Start
      ensures history.maxSize == 100 && history.log == Start
    {
      this.resilience, this.policy := resilience, policy;
      history := new ExecutionHistory(100);
      free, checks, pcs, counters, gauge := concurrencyLimit, [], [], map[], map[];
      this.now, run := now, Start;
      ghost var empty := State(concurrencyLimit, resilience.View(), [], map[], map[], Start, policy.View(), policy.trace, now);
      beginning := empty;
      NewExecutor(empty);
    }

    // ----- single actions -----

    method IncCheck(id: string, status: Status)
      requires Wired()
      modifies this`counters
      ensures Wired() && View() == WithCount(old(View()), id, status)
    {
      var count := if Label(id, status) in counters then counters[Label(id, status)] else 0;
      counters := counters[Label(id, status) := count + 1];
    }

    method AddResult(id: string, success: bool, ms: real)
      requires Wired()
      modifies history
      ensures Wired() && View() == WithResult(old(View()), id, success, ms)
    {
      history.AddResult(id, success, ms);
    }

    method Move(i: nat, pc: Pc, at: real)
      requires Wired() && i < |pcs|
      modifies this`pcs, this`now
      ensures Wired() && View() == At(old(View()), i, pc, at)
    {
      pcs := pcs[i := pc];
      now := at;
    }

    /** Task `i` has the permit of its check and the consent of its breaker. */
    method Begin(i: nat, at: real)
      requires Wired() && i < |checks| == |pcs|
      modifies this`gauge, this`pcs, this`now
      ensures Wired()
      ensures View() == At(old(View()).(gauge := Moved(old(View()).gauge, checks[i].id, 1)), i, Fetching, at)
    {
      gauge := Moved(gauge, checks[i].id, 1);
      pcs := pcs[i := Fetching];
      now := at;
    }

    /** The `finally` of the pipeline and the global semaphore. */
    method Release(i: nat, ending: Ending, at: real)
      requires Wired() && i < |checks| == |pcs|
      modifies this`gauge, this`free, this`pcs, this`now
      ensures Wired()
      ensures View() == At(old(View()).(free := old(View()).free + 1,
        gauge := Moved(old(View()).gauge, checks[i].id, -1)), i, Done(ending), at)
    {
      gauge := Moved(gauge, checks[i].id, -1);
      free := free + 1;
      pcs := pcs[i := Done(ending)];
      now := at;
    }

    /** A task that never ran leaves the global semaphore. */
    method GiveUp(i: nat, ending: Ending, at: real)
      requires Wired() && i < |checks| == |pcs|
      modifies this`free, this`pcs, this`now
      ensures Wired()
      ensures View() == At(old(View()).(free := old(View()).free + 1), i, Done(ending), at)
    {
      free := free + 1;
      pcs := pcs[i := Done(ending)];
      now := at;
    }

    /** The wrapped coroutine has ended: the breaker and the semaphore of the check. */
    method LeaveCheck(id: string, outcome: R.Outcome, at: real)
      requires Wired() && id in resilience.checks
      modifies resilience.Repr
      ensures Wired()
      ensures View() == old(View()).(slots := old(View()).slots[id := Departed(old(View()).slots[id], outcome, at)])
    {
      resilience.Leave(id, outcome, at);
    }

    method Settle(i: nat, ending: Ending, outcome: R.Outcome, at: real)
      requires Wired() && i < |checks| == |pcs| && checks[i].id in resilience.checks
      modifies this`gauge, this`free, this`pcs, this`now, resilience.Repr
      ensures Wired()
      ensures View() == Settled(old(View()), checks[i].id, i, ending, outcome, at)
    {
      LeaveCheck(checks[i].id, outcome, at);
      Release(i, ending, at);
    }

    method Raise(i: nat, error: Error, ms: Timing, at: real)
      requires Wired() && i < |checks| == |pcs| && checks[i].id in resilience.checks
      modifies this`counters, this`gauge, this`free, this`pcs, this`now, resilience.Repr, history
      ensures Wired()
      ensures View() == AfterRaise(old(View()), checks[i].id, i, error, ms, at)
    {
      var id := checks[i].id;
      AddResult(id, false, ms.pipeline);
      match error {
        case CircuitOpen =>
          IncCheck(id, SSkipped);
          Settle(i, Skipped, R.Returned, at);
        case OtherError =>
          IncCheck(id, SFailed);
          Settle(i, Failed(false), R.Raised, at);
        case TimeoutError =>
          IncCheck(id, SFailed);
          Settle(i, Failed(true), R.Raised, at);
          AddResult(id, false, ms.whole);
          IncCheck(id, STimeout);
      }
    }

    // ----- the stretches between two suspension points -----

    method ForCheck(c: Check)
      requires Wired()
      modifies resilience
      ensures Wired() && fresh(resilience.Repr - old(resilience.Repr))
      ensures View() == old(View()).(slots := old(View()).slots[c.id := SlotFor(old(View()).slots, c)])
    {
      var _ := resilience.ForCheck(c);
    }

    method EnterQueue(i: nat, at: real)
      requires Wired() && i < |pcs|
      modifies this`free, this`pcs, this`now
      ensures Wired() && View() == At(old(View()).(free := old(View()).free - 1), i, Queued, at)
    {
      free := free - 1;
      pcs := pcs[i := Queued];
      now := at;
    }

    method TakeSlot(i: nat, at: real)
      requires Wired() && i < |checks| == |pcs|
      modifies this`free, this`pcs, this`now, resilience
      ensures Wired() && fresh(resilience.Repr - old(resilience.Repr))
      ensures View() == AfterAcquire(old(View()), checks[i], i, at)
    {
      EnterQueue(i, at);
      ForCheck(checks[i]);
    }

    method AskCheck(id: string, at: real) returns (admitted: bool)
      requires Wired() && id in resilience.checks && resilience.checks[id].permits > 0
      modifies resilience.Repr
      ensures Wired() && (admitted <==> Welcome(old(View()).slots[id], at))
      ensures View() == old(View()).(slots := old(View()).slots[id := Entered(old(View()).slots[id], at)])
    {
      admitted := resilience.Enter(id, at);
    }

    method StartPipeline(i: nat, at: real)
      requires Wired() && i < |checks| == |pcs|
      modifies this`counters, this`gauge, this`pcs, this`now
      ensures Wired()
      ensures View() == Answered(old(View()), checks[i].id, i, true, at)
    {
      IncCheck(checks[i].id, SStarted);
      Begin(i, at);
    }

    method StartOrGiveUp(i: nat, admitted: bool, at: real)
      requires Wired() && i < |checks| == |pcs|
      modifies this`counters, this`gauge, this`free, this`pcs, this`now
      ensures Wired()
      ensures View() == Answered(old(View()), checks[i].id, i, admitted, at)
    {
      if admitted {
        StartPipeline(i, at);
      } else {
        GiveUp(i, Rejected, at);
      }
    }

    method EnterCheck(i: nat, at: real)
      requires Wired() && i < |checks| == |pcs|
      requires checks[i].id in resilience.checks && resilience.checks[checks[i].id].permits > 0
      modifies this`counters, this`gauge, this`free, this`pcs, this`now, resilience.Repr
      ensures Wired()
      ensures View() == AfterEnter(old(View()), checks[i].id, i, at)
    {
      var admitted := AskCheck(checks[i].id, at);
      StartOrGiveUp(i, admitted, at);
    }

    method Succeed(i: nat, ending: Ending, status: Status, ms: Timing, at: real)
      requires Wired() && i < |checks| == |pcs| && checks[i].id in resilience.checks
      modifies this`counters, this`gauge, this`free, this`pcs, this`now, resilience.Repr, history
      ensures Wired()
      ensures View() == AfterSuccess(old(View()), checks[i].id, i, ending, status, ms, at)
    {
      AddResult(checks[i].id, true, ms.pipeline);
      IncCheck(checks[i].id, status);
      Settle(i, ending, R.Returned, at);
    }

    method FetchReturned(i: nat, fetch: Fetch, ms: Timing, at: real)
      requires Wired() && i < |checks| == |pcs| && checks[i].id in resilience.checks
      modifies this`counters, this`gauge, this`free, this`pcs, this`now, resilience.Repr, history
      ensures Wired()
      ensures View() == AfterFetch(old(View()), checks[i].id, i, fetch, ms, at)
    {
      match fetch {
        case FetchRaised(error) => Raise(i, error, ms, at);
        case Payload(evaluations) =>
          var collected := Evaluate(evaluations);
          match collected {
            case Broken(error) => Raise(i, error, ms, at);
            case Events(validEvents) =>
              if validEvents == [] {
                Succeed(i, Passed, SPassed, ms, at);
              } else {
                Move(i, Deciding(validEvents), at);
              }
          }
      }
    }

    method AskPolicy(c: Check, event: AlertEvent, at: real) returns (verdict: D.Verdict)
      requires Wired()
      modifies policy
      ensures Wired()
      ensures verdict == D.Decide(old(View()).policy, D.Fingerprint(event.source), c.window, event.carrier, at).1
      ensures var alert := D.Alert(event.source, c.window, event.carrier, at);
        View() == old(View()).(policy := D.Step(old(View()).policy, alert), alerts := Then(old(View()).alerts, alert))
    {
      verdict := policy.ShouldDispatch(event.source, c.cooldown, c.window, event.carrier, at);
    }

    method DecideOn(i: nat, event: AlertEvent, rest: seq<AlertEvent>, handlersFound: bool, ms: Timing, at: real)
      requires Wired() && i < |checks| == |pcs| && checks[i].id in resilience.checks
      modifies this`counters, this`gauge, this`free, this`pcs, this`now, resilience.Repr, history, policy
      ensures Wired()
      ensures View() == AfterDecision(old(View()), checks[i], i, event, rest, handlersFound, ms, at)
    {
      var verdict := AskPolicy(checks[i], event, at);
      match verdict {
        case Suppressed => Move(i, Deciding(rest), at);
        case Raised => Raise(i, OtherError, ms, at);
        case Dispatched(_) =>
          if handlersFound {
            Move(i, Sending(rest), at);
          } else {
            Raise(i, OtherError, ms, at);
          }
      }
    }

    method Cancel(i: nat, timedOut: bool, at: real)
      requires Wired() && i < |checks| == |pcs|
      requires !pcs[i].Waiting? ==> checks[i].id in resilience.checks
      modifies this`counters, this`gauge, this`free, this`pcs, this`now, resilience.Repr
      ensures Wired()
      ensures View() == AfterCancel(old(View()), checks[i].id, i, timedOut, at)
    {
      var ending := if timedOut then TimedOut(Runs(pcs[i])) else Aborted(Runs(pcs[i]));
      if pcs[i].Waiting? {
        Move(i, Done(ending), at);
      } else if pcs[i].Queued? {
        GiveUp(i, ending, at);
      } else {
        IncCheck(checks[i].id, SCancelled);
        Settle(i, ending, R.Cancelled, at);
      }
    }

    /** `wait_for` cancels the task and raises; the outer handler takes over. */
    method Expire(i: nat, ms: Timing, at: real)
      requires Wired() && i < |checks| == |pcs| && checks[i].id in resilience.checks
      modifies this`counters, this`gauge, this`free, this`pcs, this`now, resilience.Repr, history
      ensures Wired()
      ensures View() == AfterTimeOut(old(View()), checks[i].id, i, ms, at)
    {
      Cancel(i, true, at);
      AddResult(checks[i].id, false, ms.whole);
      IncCheck(checks[i].id, STimeout);
    }

    // ----- whole runs -----

    method Perform(st: Step)
      requires Wired() && Enabled(checks, View(), st) && TaskSound(checks, View(), st.task)
      modifies this`counters, this`gauge, this`free, this`pcs, this`now, resilience, resilience.Repr, history, policy
      ensures Wired() && fresh(resilience.Repr - old(resilience.Repr))
      ensures View() == AfterStep(checks, old(View()), st)
    {
      var i, at := st.task, st.at;
      match st.action {
        case Acquire => TakeSlot(i, at);
        case Enter => EnterCheck(i, at);
        case Fetched(fetch, ms) => FetchReturned(i, fetch, ms, at);
        case Decide(found, ms) => DecideOn(i, pcs[i].events[0], pcs[i].events[1..], found, ms, at);
        case Sent => Move(i, Deciding(pcs[i].events), at);
        case Finish(ms) => Succeed(i, Alerted, SAlerted, ms, at);
        case TimeOut(ms) => Expire(i, ms, at);
        case Abort => Cancel(i, false, at);
      }
    }

    /** The event loop lets one task of the batch go on, up to its next suspension point.  The
        run grows by exactly that step, so whatever `BatchTheorems` says about the states that
        runs lead to holds of this object, always. */
    method Resume(st: Step)
      requires Valid() && Enabled(checks, View(), st)
      modifies this`counters, this`gauge, this`free, this`pcs, this`now, this`run
      modifies resilience, resilience.Repr, history, policy
      ensures Valid() && fresh(resilience.Repr - old(resilience.Repr))
      ensures run == Then(old(run), st)
    {
      RunGoesOn(checks, beginning, run, View(), st);
      Perform(st);
      run := Then(run, st);
    }

    method Load(batch: Checks)
      requires Wired()
      modifies this`checks, this`pcs
      ensures Wired() && checks == batch
      ensures View() == old(View()).(pcs := seq(|batch|, i => Waiting))
    {
      checks, pcs := batch, seq(|batch|, i => Waiting);
    }

    /** `execute_batch` starts a new batch once the previous one has come to its end.  All
        permits are there again; limiters, breakers, counters, history and policy live on. */
    method StartBatch(batch: Checks)
      requires Valid() && forall i | 0 <= i < |pcs| :: pcs[i].Done?
      modifies this`checks, this`pcs, this`beginning, this`run
      ensures Valid() && checks == batch && run == Start
      ensures View() == old(View()).(pcs := seq(|batch|, i => Waiting))
      ensures free == old(beginning.free)
    {
      NextBatch(checks, beginning, run, View(), batch);
      Load(batch);
      run, beginning := Start, View();
    }
  }
}
