/** Alert deduplication, `AlertPolicy` in src/core/policies.py.  Time is the reading of the
    clock, in seconds; the theorems say where they need it not to run backwards. */
module AlertDedupe {
  import opened Traces

  /** The triple an alert is deduplicated by. */
  datatype Source = Source(metricId: string, evaluatorType: string, severity: string)

  /** What `should_dispatch` is given as its event: nothing with a message, an event whose
      message can be assigned, or a frozen one such as the repository's own `AlertEvent`,
      on which the assignment raises. */
  datatype Carrier = NoMessage | Assignable | Frozen

  /** What it does: return False, return True after reporting a number of suppressed alerts
      in the message (0 when the message is left alone), or raise. */
  datatype Verdict = Suppressed | Dispatched(reported: nat) | Raised

  datatype State = State(
    lastSeen: map<string, real>,
    lastDispatched: map<string, real>,
    failureCounts: map<string, nat>)

  datatype Event =
    | Alert(source: Source, window: real, carrier: Carrier, at: real)
    | Purge(maxAge: real, at: real)

  type Trace = Log<Event>

  const INITIAL := State(map[], map[], map[])

  function Fingerprint(s: Source): string {
    s.metricId + ":" + s.evaluatorType + ":" + s.severity
  }

  function Pending(s: State, fp: string): nat {
    if fp in s.failureCounts then s.failureCounts[fp] else 0
  }

  predicate WithinWindow(s: State, fp: string, window: real, now: real) {
    fp in s.lastDispatched && now - s.lastDispatched[fp] < window
  }

  function Decide(s: State, fp: string, window: real, carrier: Carrier, now: real): (State, Verdict) {
    var seen := s.(lastSeen := s.lastSeen[fp := now]);
    if WithinWindow(s, fp, window, now) then
      (seen.(failureCounts := s.failureCounts[fp := Pending(s, fp) + 1]), Suppressed)
    else
      var count := Pending(s, fp);
      var popped := seen.(failureCounts := s.failureCounts - {fp});
      if count > 0 && carrier == Frozen then (popped, Raised)
      else (popped.(lastDispatched := s.lastDispatched[fp := now]),
            Dispatched(if carrier == NoMessage then 0 else count))
  }

  function Younger(m: map<string, real>, maxAge: real, now: real): map<string, real> {
    map fp | fp in m && now - m[fp] <= maxAge :: m[fp]
  }

  function Purged(s: State, maxAge: real, now: real): State {
    s.(lastSeen := Younger(s.lastSeen, maxAge, now),
       lastDispatched := Younger(s.lastDispatched, maxAge, now))
  }

  function Step(s: State, e: Event): State {
    match e
    case Alert(source, window, carrier, now) => Decide(s, Fingerprint(source), window, carrier, now).0
    case Purge(maxAge, now) => Purged(s, maxAge, now)
  }

  function Run(tr: Trace): State {
    match tr
    case Start => INITIAL
    case Then(before, e) => Step(Run(before), e)
  }

  /** What the policy says to an alert that comes after the events of `tr`. */
  function VerdictOn(tr: Trace, e: Event): Verdict
    requires e.Alert?
  {
    Decide(Run(tr), Fingerprint(e.source), e.window, e.carrier, e.at).1
  }

  predicate NotAfter(tr: Trace, now: real) {
    tr.Then? ==> tr.last.at <= now && NotAfter(tr.before, now)
  }

  /** The clock never runs backwards. */
  predicate Monotone(tr: Trace) {
    tr.Then? ==> Monotone(tr.before) && NotAfter(tr.before, tr.last.at)
  }

  lemma LaterStill(tr: Trace, t: real, now: real)
    requires NotAfter(tr, t) && t <= now
    ensures NotAfter(tr, now)
  {}

  // ----- the class -----

  class AlertPolicy {
    var lastSeen: map<string, real>
    var lastDispatched: map<string, real>
    var failureCounts: map<string, nat>
    ghost var trace: Trace

    ghost function View(): State
      reads this
    {
      State(lastSeen, lastDispatched, failureCounts)
    }

    ghost predicate Valid()
      reads this
    {
      View() == Run(trace)
    }

    constructor ()
      ensures Valid() && trace == Start
    {
      lastSeen, lastDispatched, failureCounts := map[], map[], map[];
      trace := Start;
    }

    /** `cooldownSeconds` is accepted and, as in the source, never read. */
    method ShouldDispatch(source: Source, cooldownSeconds: real, window: real, carrier: Carrier, now: real)
      returns (verdict: Verdict)
      requires Valid()
      modifies this
      ensures Valid() && trace == Then(old(trace), Alert(source, window, carrier, now))
      ensures verdict == VerdictOn(old(trace), Alert(source, window, carrier, now))
      ensures lastSeen == old(lastSeen)[Fingerprint(source) := now]
      ensures lastDispatched ==
        if verdict.Dispatched? then old(lastDispatched)[Fingerprint(source) := now] else old(lastDispatched)
    {
      ghost var e := Alert(source, window, carrier, now);
      trace := Then(trace, e);
      var fingerprint := Fingerprint(source);
      lastSeen := lastSeen[fingerprint := now];
      if fingerprint in lastDispatched {
        var elapsed := now - lastDispatched[fingerprint];
        if elapsed < window {
          var sofar := if fingerprint in failureCounts then failureCounts[fingerprint] else 0;
          failureCounts := failureCounts[fingerprint := sofar + 1];
          return Suppressed;
        }
      }
      var count := if fingerprint in failureCounts then failureCounts[fingerprint] else 0;
      failureCounts := failureCounts - {fingerprint};
      var reported := 0;
      if count > 0 && carrier != NoMessage {
        if carrier == Frozen {
          return Raised;
        }
        reported := count;
      }
      lastDispatched := lastDispatched[fingerprint := now];
      return Dispatched(reported);
    }

    method PurgeOldState(maxAge: real, now: real)
      requires Valid()
      modifies this
      ensures Valid() && trace == Then(old(trace), Purge(maxAge, now))
      ensures forall fp :: fp in lastSeen <==> fp in old(lastSeen) && now - old(lastSeen)[fp] <= maxAge
      ensures forall fp :: fp in lastDispatched <==> fp in old(lastDispatched) && now - old(lastDispatched)[fp] <= maxAge
      ensures forall fp | fp in lastSeen :: lastSeen[fp] == old(lastSeen)[fp]
      ensures forall fp | fp in lastDispatched :: lastDispatched[fp] == old(lastDispatched)[fp]
      ensures failureCounts == old(failureCounts)
    {
      ghost var e := Purge(maxAge, now);
      lastSeen := DropOld(lastSeen, maxAge, now);
      lastDispatched := DropOld(lastDispatched, maxAge, now);
      trace := Then(trace, e);
    }
  }

  /** One of the two loops of `purge_old_state`: it walks over a copy of the keys and deletes
      entries of the map on the way. */
  method DropOld(m: map<string, real>, maxAge: real, now: real) returns (kept: map<string, real>)
    ensures kept == Younger(m, maxAge, now)
    ensures forall fp :: fp in kept <==> fp in m && now - m[fp] <= maxAge
    ensures forall fp | fp in kept :: kept[fp] == m[fp]
  {
    kept := m;
    var keys := m.Keys;
    while keys != {}
      invariant keys <= m.Keys
      invariant forall fp :: fp in kept <==> fp in m && (fp in keys || now - m[fp] <= maxAge)
      invariant forall fp | fp in kept :: kept[fp] == m[fp]
      decreases |keys|
    {
      var fingerprint :| fingerprint in keys;
      if now - m[fingerprint] > maxAge {
        kept := kept - {fingerprint};
      }
      keys := keys - {fingerprint};
    }
  }

  // ----- what every run keeps -----

  ghost predicate SeenCovers(s: State, now: real) {
    && (forall fp | fp in s.lastDispatched :: fp in s.lastSeen && s.lastDispatched[fp] <= s.lastSeen[fp])
    && (forall fp | fp in s.lastSeen :: s.lastSeen[fp] <= now)
  }

  lemma SeenCoversStep(s: State, now: real, e: Event)
    requires SeenCovers(s, now) && now <= e.at
    ensures SeenCovers(Step(s, e), e.at)
  {
    var s' := Step(s, e);
    forall fp | fp in s'.lastDispatched
      ensures fp in s'.lastSeen && s'.lastDispatched[fp] <= s'.lastSeen[fp]
    {
      if fp in s.lastDispatched {
        assert fp in s.lastSeen;
      }
    }
  }

  /** Every dispatched key has a last-seen entry no older than its dispatch, also after both
      purge loops. */
  lemma {:induction false} DispatchedIsSeen(tr: Trace)
    requires Monotone(tr) && tr.Then?
    ensures SeenCovers(Run(tr), tr.last.at)
  {
    if tr.before.Then? {
      DispatchedIsSeen(tr.before);
      SeenCoversStep(Run(tr.before), tr.before.last.at, tr.last);
    } else {
      SeenCoversStep(INITIAL, tr.last.at, tr.last);
    }
  }

  // ----- suppression counts are conserved -----

  predicate About(e: Event, fp: string) { e.Alert? && Fingerprint(e.source) == fp }

  function SuppressedCount(tr: Trace, fp: string): nat {
    match tr
    case Start => 0
    case Then(before, e) =>
      SuppressedCount(before, fp) + if About(e, fp) && VerdictOn(before, e) == Suppressed then 1 else 0
  }

  function ReportedCount(tr: Trace, fp: string): nat {
    match tr
    case Start => 0
    case Then(before, e) =>
      ReportedCount(before, fp)
        + if About(e, fp) && VerdictOn(before, e).Dispatched? then VerdictOn(before, e).reported else 0
  }

  /** Counts that were taken off the tally while the message could not carry them. */
  function LostCount(tr: Trace, fp: string): nat {
    match tr
    case Start => 0
    case Then(before, e) =>
      LostCount(before, fp)
        + if About(e, fp) && e.carrier != Assignable && VerdictOn(before, e) != Suppressed
          then Pending(Run(before), fp) else 0
  }

  predicate AllAssignable(tr: Trace, fp: string) {
    tr.Then? ==> AllAssignable(tr.before, fp) && (About(tr.last, fp) ==> tr.last.carrier == Assignable)
  }

  /** Every suppressed alert is reported by a later dispatch, still pending, or was lost at an
      alert whose message cannot be assigned; purges do not touch the tally. */
  lemma {:induction false} SuppressionsAreConserved(tr: Trace, fp: string)
    ensures SuppressedCount(tr, fp) == ReportedCount(tr, fp) + Pending(Run(tr), fp) + LostCount(tr, fp)
    ensures AllAssignable(tr, fp) ==> LostCount(tr, fp) == 0
  {
    if tr.Then? {
      SuppressionsAreConserved(tr.before, fp);
    }
  }
}
