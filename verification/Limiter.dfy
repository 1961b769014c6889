/** `CheckResilience` and `ResilienceManager` of runtime/resilience.py: the objects behind the
    slots of a batch. */
module Limiter {
  import R = Resilience
  import opened Batch
  import opened Traces
  import opened Wrappers

  /** The slot once a call has asked for admission: an admitted call keeps the permit, and the
      breaker, if enabled, has seen the entry. */
  function Entered(slot: Slot, now: real): Slot {
    SlotAfter(slot, Queued, Goto(if Welcome(slot, now) then Fetching else Done(Rejected))
                            .(circuit := Some(R.Enter(now))))
  }

  predicate Welcome(slot: Slot, now: real) {
    slot.limits.breakerEnabled ==> R.Admits(slot.limits.breaker, slot.breaker, now)
  }

  /** The slot once an admitted call has ended. */
  function Departed(slot: Slot, outcome: R.Outcome, now: real): Slot {
    SlotAfter(slot, Fetching, Goto(Done(Passed)).(circuit := Some(R.Complete(outcome, now))))
  }

  class CheckResilience {
    const limits: Limits
    const breaker: R.CircuitBreaker
    var permits: int

    ghost predicate Valid()
      reads this, breaker
    {
      breaker.Valid() && breaker.config == limits.breaker
    }

    ghost function View(): Slot
      reads this, breaker
    {
      Slot(limits, permits, breaker.View(), breaker.trace)
    }

    constructor (limits: Limits)
      ensures Valid() && fresh(breaker)
      ensures this.limits == limits && View() == Slot(limits, limits.maxInflight, R.INITIAL, Start)
    {
      this.limits := limits;
      permits := limits.maxInflight;
      breaker := new R.CircuitBreaker(limits.breaker.failureThreshold, limits.breaker.resetTimeout);
    }

    /** `execute` up to the point where the coroutine starts.  An exception of the breaker
        leaves the `async with` block, which gives the permit back. */
    method Enter(now: real) returns (admitted: bool)
      requires Valid() && permits > 0
      modifies this, breaker
      ensures Valid() && View() == Entered(old(View()), now)
      ensures admitted <==> Welcome(old(View()), now)
      ensures R.NotAfter(old(breaker.trace), now) ==>
        (admitted <==> !(limits.breakerEnabled && R.Refused(limits.breaker, old(breaker.trace), now)))
      ensures permits == old(permits) - One(admitted)
      ensures breaker.trace ==
        if limits.breakerEnabled then Then(old(breaker.trace), R.Enter(now)) else old(breaker.trace)
    {
      permits := permits - 1;
      admitted := true;
      if limits.breakerEnabled {
        admitted := breaker.Admit(now);
      }
      if !admitted {
        permits := permits + 1;
      }
    }

    /** `execute` from the point where the coroutine has ended. */
    method Leave(outcome: R.Outcome, now: real)
      requires Valid()
      modifies this, breaker
      ensures Valid() && View() == Departed(old(View()), outcome, now)
      ensures permits == old(permits) + 1
      ensures breaker.trace ==
        if limits.breakerEnabled then Then(old(breaker.trace), R.Complete(outcome, now)) else old(breaker.trace)
    {
      if limits.breakerEnabled {
        breaker.Finish(outcome, now);
      }
      permits := permits + 1;
    }
  }

  class ResilienceManager {
    var checks: map<string, CheckResilience>
    ghost var Repr: set<object>

    /** No two check ids share a limiter or a breaker. */
    ghost predicate Valid()
      reads this, Repr
    {
      && this !in Repr
      && (forall id | id in checks ::
            checks[id] in Repr && checks[id].breaker in Repr && checks[id].Valid())
      && (forall x, y | x in checks && y in checks && x != y ::
            checks[x] != checks[y] && checks[x].breaker != checks[y].breaker)
    }

    ghost function View(): map<string, Slot>
      requires Valid()
      reads this, Repr
    {
      map id | id in checks :: checks[id].View()
    }

    constructor ()
      ensures Valid() && View() == map[] && Repr == {}
    {
      checks, Repr := map[], {};
    }

    /** Whoever asks first for an id fixes its limits. */
    method ForCheck(c: Check) returns (resilience: CheckResilience)
      requires Valid()
      modifies this
      ensures Valid() && checks.Keys == old(checks.Keys) + {c.id} && resilience == checks[c.id]
      ensures fresh(Repr - old(Repr))
      ensures View() == old(View())[c.id := SlotFor(old(View()), c)]
      ensures c.id in old(checks) ==> checks == old(checks)
      ensures c.id !in old(checks) ==> resilience.limits == c.limits && resilience.permits == c.limits.maxInflight
    {
      if c.id !in checks {
        var created := new CheckResilience(c.limits);
        checks := checks[c.id := created];
        Repr := Repr + {created, created.breaker};
      }
      return checks[c.id];
    }

    /** Touching one limiter leaves those of all other checks alone. */
    twostate lemma OthersUnchanged(id: string)
      requires old(Valid()) && id in old(checks) && unchanged(this)
      requires unchanged(Repr - {checks[id], checks[id].breaker})
      requires checks[id].Valid()
      ensures Valid() && View() == old(View())[id := checks[id].View()]
    {
      forall x | x in checks && x != id
        ensures checks[x].Valid() && checks[x].View() == old(checks[x].View())
      {
        assert checks[x] in Repr && checks[x].breaker in Repr;
      }
    }

    /** `execute` for the limiter of a check. */
    method Enter(id: string, now: real) returns (admitted: bool)
      requires Valid() && id in checks && checks[id].permits > 0
      modifies Repr
      ensures Valid() && View() == old(View())[id := Entered(old(View())[id], now)]
      ensures admitted <==> Welcome(old(View())[id], now)
    {
      admitted := checks[id].Enter(now);
      OthersUnchanged(id);
    }

    method Leave(id: string, outcome: R.Outcome, now: real)
      requires Valid() && id in checks
      modifies Repr
      ensures Valid() && View() == old(View())[id := Departed(old(View())[id], outcome, now)]
    {
      checks[id].Leave(outcome, now);
      OthersUnchanged(id);
    }
  }
}
