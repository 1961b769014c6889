/** Whole-run theorems about `AlertPolicy` (src/core/policies.py). */
module DedupeTheorems {
  import opened AlertDedupe
  import opened Traces

  // ----- purging is invisible -----

  function WithoutPurges(tr: Trace): Trace {
    match tr
    case Start => tr
    case Then(before, Purge(_, _)) => WithoutPurges(before)
    case Then(before, e) => Then(WithoutPurges(before), e)
  }

  /** All dedupe windows are at most `w`, and all purges keep at least that much. */
  predicate WindowKept(e: Event, w: real) {
    if e.Alert? then e.window <= w else w <= e.maxAge
  }

  predicate WindowsKept(tr: Trace, w: real) {
    tr.Then? ==> WindowsKept(tr.before, w) && WindowKept(tr.last, w)
  }

  /** `s` is `full` without some dispatches that are too old to matter from now on. */
  ghost predicate Trimmed(s: State, full: State, now: real, w: real) {
    && s.failureCounts == full.failureCounts
    && (forall fp | fp in s.lastDispatched ::
          fp in full.lastDispatched && full.lastDispatched[fp] == s.lastDispatched[fp])
    && (forall fp | fp in full.lastDispatched && fp !in s.lastDispatched ::
          now - full.lastDispatched[fp] > w)
  }

  lemma TrimStep(s: State, full: State, e: Event, w: real)
    requires Trimmed(s, full, e.at, w)
    requires WindowKept(e, w)
    ensures Trimmed(Step(s, e), if e.Alert? then Step(full, e) else full, e.at, w)
  {
    match e
    case Alert(_, _, _, _) =>
    case Purge(_, _) =>
  }

  lemma {:induction false} PurgesOnlyTrim(tr: Trace, w: real, now: real)
    requires Monotone(tr) && NotAfter(tr, now) && WindowsKept(tr, w)
    ensures Trimmed(Run(tr), Run(WithoutPurges(tr)), now, w)
  {
    if tr.Then? {
      PurgesOnlyTrim(tr.before, w, tr.last.at);
      TrimStep(Run(tr.before), Run(WithoutPurges(tr.before)), tr.last, w);
    }
  }

  /** Calls of `purge_old_state` anywhere in a run, each with a maximal age no smaller than
      the dedupe windows in use, change no verdict and no reported count. */
  lemma PurgingIsInvisible(tr: Trace, e: Event, w: real)
    requires Monotone(Then(tr, e)) && WindowsKept(Then(tr, e), w) && e.Alert?
    ensures VerdictOn(tr, e) == VerdictOn(WithoutPurges(tr), e)
  {
    PurgesOnlyTrim(tr, w, e.at);
  }

  /** The condition on the maximal age cannot be weakened: any purge that keeps less than a
      window can let a duplicate through. */
  lemma ShortPurgesShow(source: Source, window: real, maxAge: real)
    requires 0.0 <= maxAge < window
    ensures var t := (maxAge + window) / 2.0;
      var first, again := Alert(source, window, NoMessage, 0.0), Alert(source, window, NoMessage, t);
      && VerdictOn(Then(Start, first), again) == Suppressed
      && VerdictOn(Then(Then(Start, first), Purge(maxAge, t)), again) == Dispatched(0)
  {
    var first := Then(Start, Alert(source, window, NoMessage, 0.0));
    assert Run(first) == Step(Run(Start), first.last);
  }

  // ----- fingerprints and non-interference -----

  predicate ColonFree(s: Source) { ':' !in s.evaluatorType && ':' !in s.severity }

  lemma LastColonSplits(p: string, q: string, p': string, q': string)
    requires ':' !in q && ':' !in q'
    requires p + ":" + q == p' + ":" + q'
    ensures p == p' && q == q'
  {
    var s := p + ":" + q;
    assert s[|p|] == ':' && forall k | |p| < k < |s| :: s[k] == q[k - |p| - 1];
    assert s[|p'|] == ':' && forall k | |p'| < k < |s| :: s[k] == q'[k - |p'| - 1];
    assert |p| == |p'|;
    assert p == s[..|p|] && q == s[|p| + 1..];
    assert p' == s[..|p'|] && q' == s[|p'| + 1..];
  }

  /** Metric ids may contain colons: evaluator types and severities without them keep the
      fingerprint injective. */
  lemma FingerprintIsInjective(a: Source, b: Source)
    requires ColonFree(a) && ColonFree(b)
    requires Fingerprint(a) == Fingerprint(b)
    ensures a == b
  {
    LastColonSplits(a.metricId + ":" + a.evaluatorType, a.severity,
                    b.metricId + ":" + b.evaluatorType, b.severity);
    LastColonSplits(a.metricId, a.evaluatorType, b.metricId, b.evaluatorType);
  }

  /** A colon in the evaluator type or the severity always makes for a collision. */
  lemma ColonsCollide(s: Source) returns (other: Source)
    requires !ColonFree(s)
    ensures other != s && Fingerprint(other) == Fingerprint(s)
  {
    if ':' in s.evaluatorType {
      var i :| 0 <= i < |s.evaluatorType| && s.evaluatorType[i] == ':';
      var x, y := s.evaluatorType[..i], s.evaluatorType[i + 1..];
      assert s.evaluatorType == x + ":" + y;
      other := Source(s.metricId + ":" + x, y, s.severity);
      assert Fingerprint(other) == Fingerprint(s);
    } else {
      var i :| 0 <= i < |s.severity| && s.severity[i] == ':';
      var x, y := s.severity[..i], s.severity[i + 1..];
      assert s.severity == x + ":" + y;
      other := Source(s.metricId + ":" + s.evaluatorType, x, y);
      assert Fingerprint(other) == Fingerprint(s);
    }
  }

  /** The run with every alert of another source removed. */
  function Only(tr: Trace, s: Source): Trace {
    match tr
    case Start => tr
    case Then(before, e) =>
      if e.Alert? && e.source != s then Only(before, s) else Then(Only(before, s), e)
  }

  predicate AllColonFree(tr: Trace) {
    tr.Then? ==> AllColonFree(tr.before) && (tr.last.Alert? ==> ColonFree(tr.last.source))
  }

  predicate AgreeAt(s: State, t: State, fp: string) {
    && (fp in s.lastDispatched <==> fp in t.lastDispatched)
    && (fp in s.lastDispatched ==> s.lastDispatched[fp] == t.lastDispatched[fp])
    && Pending(s, fp) == Pending(t, fp)
  }

  lemma {:induction false} OthersLeaveNoTrace(tr: Trace, s: Source)
    requires ColonFree(s) && AllColonFree(tr)
    ensures AgreeAt(Run(tr), Run(Only(tr, s)), Fingerprint(s))
  {
    if tr.Then? {
      OthersLeaveNoTrace(tr.before, s);
      var e := tr.last;
      if e.Alert? && Fingerprint(e.source) == Fingerprint(s) {
        FingerprintIsInjective(e.source, s);
      }
    }
  }

  /** What the policy says about one source does not depend on the traffic of any other. */
  lemma NonInterference(tr: Trace, e: Event)
    requires e.Alert? && AllColonFree(Then(tr, e))
    ensures VerdictOn(tr, e) == VerdictOn(Only(tr, e.source), e)
  {
    OthersLeaveNoTrace(tr, e.source);
  }

  // ----- what the dictionaries remember of a run -----

  function AlertTimes(tr: Trace, fp: string): seq<real> {
    match tr
    case Start => []
    case Then(before, e) =>
      if About(e, fp) then AlertTimes(before, fp) + [e.at] else AlertTimes(before, fp)
  }

  function DispatchTimes(tr: Trace, fp: string): seq<real> {
    match tr
    case Start => []
    case Then(before, e) =>
      if About(e, fp) && VerdictOn(before, e).Dispatched? then DispatchTimes(before, fp) + [e.at]
      else DispatchTimes(before, fp)
  }

  function Latest(ts: seq<real>): real
    requires ts != []
  {
    ts[|ts| - 1]
  }

  predicate LatestSuppressed(tr: Trace, fp: string) {
    match tr
    case Start => false
    case Then(before, e) =>
      if About(e, fp) then VerdictOn(before, e) == Suppressed else LatestSuppressed(before, fp)
  }

  predicate PurgesKeep(tr: Trace, w: real) {
    tr.Then? ==> PurgesKeep(tr.before, w) && (tr.last.Purge? ==> w <= tr.last.maxAge)
  }

  lemma {:induction false} RememberedIsLatest(tr: Trace, fp: string)
    ensures var s, sent := Run(tr), DispatchTimes(tr, fp);
      fp in s.lastDispatched ==> sent != [] && s.lastDispatched[fp] == Latest(sent)
  {
    if tr.Then? {
      RememberedIsLatest(tr.before, fp);
    }
  }

  /** The last-seen entry of a fingerprint is the time of its latest alert, dispatched or not. */
  lemma {:induction false} SeenIsLatest(tr: Trace, fp: string)
    ensures var s, ts := Run(tr), AlertTimes(tr, fp);
      fp in s.lastSeen ==> ts != [] && s.lastSeen[fp] == Latest(ts)
  {
    if tr.Then? {
      SeenIsLatest(tr.before, fp);
    }
  }

  /** It is there, unless a purge came when the alert was older than all purges keep. */
  lemma {:induction false} UnseenIsOld(tr: Trace, fp: string, d: real, now: real)
    requires PurgesKeep(tr, d) && Monotone(tr) && NotAfter(tr, now)
    ensures var ts := AlertTimes(tr, fp);
      fp !in Run(tr).lastSeen ==> ts == [] || now - Latest(ts) > d
  {
    if tr.Then? {
      SeenIsLatest(tr.before, fp);
      UnseenIsOld(tr.before, fp, d, tr.last.at);
    }
  }

  /** And after a purge nothing is left that is older than it keeps. */
  lemma PurgesClear(tr: Trace, maxAge: real, now: real, fp: string)
    ensures var s := Run(Then(tr, Purge(maxAge, now)));
      && (fp in s.lastSeen <==> fp in Run(tr).lastSeen && now - Run(tr).lastSeen[fp] <= maxAge)
      && (fp in s.lastDispatched <==> fp in Run(tr).lastDispatched && now - Run(tr).lastDispatched[fp] <= maxAge)
  {}

  /** What the policy has forgotten is too old to matter. */
  lemma {:induction false} ForgottenIsOld(tr: Trace, fp: string, d: real, now: real)
    requires PurgesKeep(tr, d) && Monotone(tr) && NotAfter(tr, now)
    ensures var sent := DispatchTimes(tr, fp);
      fp !in Run(tr).lastDispatched ==> sent == [] || now - Latest(sent) > d
  {
    if tr.Then? {
      RememberedIsLatest(tr.before, fp);
      ForgottenIsOld(tr.before, fp, d, tr.last.at);
    }
  }

  /** Suppressed alerts are pending exactly while the latest alert was one of them. */
  lemma {:induction false} PendingSinceSuppressed(tr: Trace, fp: string)
    ensures Pending(Run(tr), fp) > 0 <==> LatestSuppressed(tr, fp)
    ensures LatestSuppressed(tr, fp) ==> DispatchTimes(tr, fp) != []
  {
    if tr.Then? {
      PendingSinceSuppressed(tr.before, fp);
      RememberedIsLatest(tr.before, fp);
    }
  }

  /** Less than the window has passed since the latest dispatch. */
  predicate Recent(tr: Trace, fp: string, window: real, now: real) {
    var sent := DispatchTimes(tr, fp);
    sent != [] && now - Latest(sent) < window
  }

  lemma WindowIsRecent(tr: Trace, fp: string, window: real, now: real)
    requires PurgesKeep(tr, window) && Monotone(tr) && NotAfter(tr, now)
    ensures WithinWindow(Run(tr), fp, window, now) <==> Recent(tr, fp, window, now)
  {
    RememberedIsLatest(tr, fp);
    ForgottenIsOld(tr, fp, window, now);
  }

  /** An alert is suppressed exactly when the latest dispatch of its fingerprint is less than
      its window before it, whatever the messages, the windows of other alerts, and the purges
      that keep this window. */
  lemma {:induction false} SuppressedExactlyInWindow(tr: Trace, e: Event)
    requires e.Alert? && Monotone(Then(tr, e)) && PurgesKeep(tr, e.window)
    ensures VerdictOn(tr, e) == Suppressed <==> Recent(tr, Fingerprint(e.source), e.window, e.at)
  {
    WindowIsRecent(tr, Fingerprint(e.source), e.window, e.at);
  }

  // ----- frozen events -----

  /** A frozen event that comes first after suppressed ones, once the window is over. */
  predicate Unmentionable(tr: Trace, e: Event)
    requires e.Alert?
  {
    var fp := Fingerprint(e.source);
    e.carrier == Frozen && LatestSuppressed(tr, fp) && !Recent(tr, fp, e.window, e.at)
  }

  /** `should_dispatch` raises exactly when a frozen event arrives at least its window after
      the latest dispatch, and the latest alert of its fingerprint was suppressed.  The count of
      suppressed alerts is then gone and no dispatch recorded: the next alert goes out without
      a word about them. */
  lemma FrozenEventsRaise(tr: Trace, e: Event, next: Event)
    requires e.Alert? && Monotone(Then(tr, e)) && PurgesKeep(tr, e.window)
    requires next.Alert? && next.source == e.source && next.window <= e.window && e.at <= next.at
    ensures VerdictOn(tr, e) == Raised <==> Unmentionable(tr, e)
    ensures VerdictOn(tr, e) == Raised ==>
      && VerdictOn(Then(tr, e), next) == Dispatched(0)
      && DispatchTimes(Then(tr, e), Fingerprint(e.source)) == DispatchTimes(tr, Fingerprint(e.source))
  {
    WindowIsRecent(tr, Fingerprint(e.source), e.window, e.at);
    PendingSinceSuppressed(tr, Fingerprint(e.source));
  }

  /** For every source and window there is a run that raises: three frozen alerts, at the
      beginning, in the middle and at the end of the window.  It dispatches only the first,
      although the first and the last are far enough apart. */
  lemma FrozenEventsLoseDispatches(source: Source, d: real) returns (tr: Trace, e: Event)
    requires d > 0.0
    ensures Monotone(Then(tr, e)) && e == Alert(source, d, Frozen, d)
    ensures VerdictOn(tr, e) == Raised
    ensures var all, fp := Then(tr, e), Fingerprint(source);
      && Regular(all, fp, d)
      && DispatchTimes(all, fp) == [0.0] && RaisedCount(all, fp) == 1
      && Choice([0, 2], AlertTimes(all, fp), d)
  {
    var first, second := Alert(source, d, Frozen, 0.0), Alert(source, d, Frozen, d / 2.0);
    e := Alert(source, d, Frozen, d);
    var one, fp := Then(Start, first), Fingerprint(source);
    tr := Then(one, second);
    assert Run(Start) == INITIAL && VerdictOn(Start, first) == Dispatched(0);
    Grows(Start, first, fp);
    assert VerdictOn(one, second) == Suppressed;
    Grows(one, second, fp);
    assert VerdictOn(tr, e) == Raised;
    Grows(tr, e, fp);
    assert AlertTimes(Then(tr, e), fp) == [0.0, d / 2.0, d];
    assert DispatchTimes(Then(tr, e), fp) == [0.0];
    assert Monotone(one) && Monotone(tr) && NotAfter(tr, d);
    assert WindowsAtLeast(one, fp, d) && WindowsAtMost(one, fp, d) && PurgesKeep(one, d);
    assert WindowsAtLeast(tr, fp, d) && WindowsAtMost(tr, fp, d) && PurgesKeep(tr, d);
  }

  lemma Grows(tr: Trace, e: Event, fp: string)
    requires About(e, fp)
    ensures var v, all := VerdictOn(tr, e), Then(tr, e);
      && AlertTimes(all, fp) == AlertTimes(tr, fp) + [e.at]
      && DispatchTimes(all, fp) == DispatchTimes(tr, fp) + (if v.Dispatched? then [e.at] else [])
      && RaisedCount(all, fp) == RaisedCount(tr, fp) + if v == Raised then 1 else 0
  {}

  // ----- dispatches are an optimal choice -----

  function RaisedCount(tr: Trace, fp: string): nat {
    match tr
    case Start => 0
    case Then(before, e) =>
      RaisedCount(before, fp) + if About(e, fp) && VerdictOn(before, e) == Raised then 1 else 0
  }

  /** Take the first time, then always the next one at least `d` after the last one taken. */
  function Greedy(ts: seq<real>, d: real): seq<real> {
    if ts == [] then [] else
      var taken, t := Greedy(ts[..|ts| - 1], d), ts[|ts| - 1];
      if taken == [] || t - Latest(taken) >= d then taken + [t] else taken
  }

  predicate Sorted(ts: seq<real>) {
    forall i, j | 0 <= i < j < |ts| :: ts[i] <= ts[j]
  }

  predicate Separated(ts: seq<real>, d: real) {
    forall i, j | 0 <= i < j < |ts| :: ts[j] - ts[i] >= d
  }

  /** A choice of some of the times, given by their increasing positions. */
  predicate Choice(pick: seq<nat>, ts: seq<real>, d: real) {
    && (forall i | 0 <= i < |pick| :: pick[i] < |ts|)
    && (forall i, j | 0 <= i < j < |pick| :: pick[i] < pick[j] && ts[pick[j]] - ts[pick[i]] >= d)
  }

  /** The latest time chosen, if there is one. */
  function End(pick: seq<nat>, ts: seq<real>): real
    requires forall i | 0 <= i < |pick| :: pick[i] < |ts|
  {
    if pick == [] then 0.0 else ts[pick[|pick| - 1]]
  }

  /** What a choice takes of all times but the last, and whether it takes that as well. */
  lemma SplitChoice(pick: seq<nat>, ts: seq<real>, t: real, d: real) returns (prior: seq<nat>, takes: bool)
    requires Choice(pick, ts + [t], d)
    ensures Choice(prior, ts, d)
    ensures |pick| == |prior| + if takes then 1 else 0
    ensures End(pick, ts + [t]) == if takes then t else End(prior, ts)
    ensures takes && prior != [] ==> t - End(prior, ts) >= d
  {
    takes := pick != [] && pick[|pick| - 1] == |ts|;
    prior := if takes then pick[..|pick| - 1] else pick;
    forall i | 0 <= i < |prior|
      ensures prior[i] < |ts| && (ts + [t])[prior[i]] == ts[prior[i]]
    {
      assert i < |pick| - 1 ==> pick[i] < pick[|pick| - 1];
    }
  }

  /** A choice of `n` times that ends at `end` is larger than `sent` by at most `extra`, and if it
      attains this, it ends no earlier. */
  predicate Behind(n: nat, end: real, sent: seq<real>, extra: nat) {
    && n <= |sent| + extra
    && (n == |sent| + extra && n > 0 && sent != [] ==> Latest(sent) <= end)
  }

  /** One more time `t`, which the choice takes or not, and which may be sent, or not for being
      too close, or else allows the choice one more. */
  lemma StaysBehind(n: nat, end: real, takes: bool, t: real, d: real, sent: seq<real>, extra: nat, v: Verdict)
    requires Behind(n, end, sent, extra)
    requires takes && n > 0 ==> t - end >= d
    requires sent != [] ==> Latest(sent) <= t
    requires v == Suppressed ==> sent != [] && t - Latest(sent) < d
    ensures Behind(if takes then n + 1 else n, if takes then t else end,
                   if v.Dispatched? then sent + [t] else sent, if v == Raised then extra + 1 else extra)
  {}

  /** Greedy stays ahead: no separated choice is larger, and one of the same size ends no
      earlier. */
  lemma {:induction false} GreedyStaysAhead(ts: seq<real>, d: real, pick: seq<nat>)
    requires Sorted(ts) && Choice(pick, ts, d)
    ensures Behind(|pick|, End(pick, ts), Greedy(ts, d), 0)
  {
    if ts != [] {
      var rest, t := ts[..|ts| - 1], Latest(ts);
      assert ts == rest + [t];
      var prior, takes := SplitChoice(pick, rest, t, d);
      GreedyStaysAhead(rest, d, prior);
      GreedyStep(ts, d, |prior|, End(prior, rest), takes);
    }
  }

  lemma GreedyStep(ts: seq<real>, d: real, n: nat, end: real, takes: bool)
    requires ts != [] && Sorted(ts)
    requires Behind(n, end, Greedy(ts[..|ts| - 1], d), 0)
    requires takes && n > 0 ==> Latest(ts) - end >= d
    ensures Behind(if takes then n + 1 else n, if takes then Latest(ts) else end, Greedy(ts, d), 0)
  {
    var rest, t := ts[..|ts| - 1], Latest(ts);
    var taken := Greedy(rest, d);
    GreedyIsSorted(rest, d);
    assert rest != [] ==> Latest(rest) <= t;
    StaysBehind(n, end, takes, t, d, taken, 0,
                if taken == [] || t - Latest(taken) >= d then Dispatched(0) else Suppressed);
  }

  lemma {:induction false} GreedyIsSorted(ts: seq<real>, d: real)
    requires Sorted(ts)
    ensures var g := Greedy(ts, d);
      Sorted(g) && (ts != [] ==> g != [] && Latest(g) <= Latest(ts))
  {
    if ts != [] {
      var rest := ts[..|ts| - 1];
      GreedyIsSorted(rest, d);
      assert rest != [] ==> Latest(rest) <= Latest(ts);
    }
  }

  // ----- what the theorems need of the windows of one fingerprint -----

  predicate WindowsAtLeast(tr: Trace, fp: string, d: real) {
    tr.Then? ==> WindowsAtLeast(tr.before, fp, d) && (About(tr.last, fp) ==> tr.last.window >= d)
  }

  predicate WindowsAtMost(tr: Trace, fp: string, d: real) {
    tr.Then? ==> WindowsAtMost(tr.before, fp, d) && (About(tr.last, fp) ==> tr.last.window <= d)
  }

  /** All alerts of the fingerprint use the window `d`, and purges keep it. */
  predicate Regular(tr: Trace, fp: string, d: real) {
    WindowsAtLeast(tr, fp, d) && WindowsAtMost(tr, fp, d) && PurgesKeep(tr, d)
  }

  lemma {:induction false} TimesAreSorted(tr: Trace, fp: string, now: real)
    requires Monotone(tr) && NotAfter(tr, now)
    ensures var ts, sent := AlertTimes(tr, fp), DispatchTimes(tr, fp);
      && Sorted(ts) && (ts != [] ==> Latest(ts) <= now)
      && Sorted(sent) && (sent != [] ==> Latest(sent) <= now)
  {
    if tr.Then? {
      TimesAreSorted(tr.before, fp, tr.last.at);
    }
  }

  /** Dispatches of a fingerprint are pairwise at least `d` apart, if its windows are at least
      `d` and purges keep `d`. */
  lemma {:induction false} DispatchesStayApart(tr: Trace, fp: string, d: real)
    requires Monotone(tr) && WindowsAtLeast(tr, fp, d) && PurgesKeep(tr, d)
    ensures Separated(DispatchTimes(tr, fp), d)
  {
    if tr.Then? {
      DispatchesStayApart(tr.before, fp, d);
      TimesAreSorted(tr.before, fp, tr.last.at);
      RememberedIsLatest(tr.before, fp);
      ForgottenIsOld(tr.before, fp, d, tr.last.at);
    }
  }

  /** With windows of at most `d`, and purges of any kind: a choice of alerts that are `d` apart
      is larger than the dispatches by at most the number of raises. */
  lemma {:induction false} DispatchesStayAhead(tr: Trace, fp: string, d: real, pick: seq<nat>)
    requires Monotone(tr) && WindowsAtMost(tr, fp, d)
    requires Choice(pick, AlertTimes(tr, fp), d)
    ensures Behind(|pick|, End(pick, AlertTimes(tr, fp)), DispatchTimes(tr, fp), RaisedCount(tr, fp))
  {
    if tr.Then? {
      var before, e := tr.before, tr.last;
      if About(e, fp) {
        var ts, sent := AlertTimes(before, fp), DispatchTimes(before, fp);
        var prior, takes := SplitChoice(pick, ts, e.at, d);
        DispatchesStayAhead(before, fp, d, prior);
        SentBefore(before, e, fp);
        StaysBehind(|prior|, End(prior, ts), takes, e.at, d, sent, RaisedCount(before, fp), VerdictOn(before, e));
        Grows(before, e, fp);
      } else {
        DispatchesStayAhead(before, fp, d, pick);
      }
    }
  }

  lemma SentBefore(tr: Trace, e: Event, fp: string)
    requires Monotone(Then(tr, e)) && About(e, fp)
    ensures var sent := DispatchTimes(tr, fp);
      && (sent != [] ==> Latest(sent) <= e.at)
      && (VerdictOn(tr, e) == Suppressed ==> Recent(tr, fp, e.window, e.at))
  {
    TimesAreSorted(tr, fp, e.at);
    RememberedIsLatest(tr, fp);
  }

  /** In a run in which nothing raises, the dispatches are the greedy selection. */
  lemma {:induction false} DispatchesAreGreedy(tr: Trace, fp: string, d: real)
    requires Regular(tr, fp, d) && Monotone(tr) && RaisedCount(tr, fp) == 0
    ensures DispatchTimes(tr, fp) == Greedy(AlertTimes(tr, fp), d)
  {
    if tr.Then? {
      DispatchesAreGreedy(tr.before, fp, d);
      if About(tr.last, fp) {
        SuppressedExactlyInWindow(tr.before, tr.last);
        assert AlertTimes(tr, fp)[..|AlertTimes(tr, fp)| - 1] == AlertTimes(tr.before, fp);
      }
    }
  }

  /** Deduplication is optimal up to its raises.  In any run, with any messages, any traffic of
      other fingerprints and any purges that keep the window: the dispatched alerts of a
      fingerprint are pairwise at least the window apart, and no other choice of its alerts that
      are so far apart is larger, except by the number of alerts on which the method raised. */
  lemma DedupeIsOptimal(tr: Trace, fp: string, d: real, pick: seq<nat>)
    requires Regular(tr, fp, d) && Monotone(tr)
    requires Choice(pick, AlertTimes(tr, fp), d)
    ensures Separated(DispatchTimes(tr, fp), d)
    ensures |pick| <= |DispatchTimes(tr, fp)| + RaisedCount(tr, fp)
  {
    DispatchesStayApart(tr, fp, d);
    DispatchesStayAhead(tr, fp, d, pick);
  }

  // ----- exactly when it is optimal all along -----

  ghost predicate Optimal(tr: Trace, fp: string, d: real) {
    forall pick | Choice(pick, AlertTimes(tr, fp), d) :: |pick| <= |DispatchTimes(tr, fp)|
  }

  /** At every point of the run. */
  ghost predicate AlwaysOptimal(tr: Trace, fp: string, d: real) {
    Optimal(tr, fp, d) && (tr.Then? ==> AlwaysOptimal(tr.before, fp, d))
  }

  predicate NeverUnmentionable(tr: Trace, fp: string) {
    tr.Then? ==> NeverUnmentionable(tr.before, fp) && (About(tr.last, fp) ==> !Unmentionable(tr.before, tr.last))
  }

  /** The positions of the dispatches among the alerts. */
  function DispatchPicks(tr: Trace, fp: string): seq<nat> {
    match tr
    case Start => []
    case Then(before, e) =>
      if About(e, fp) && VerdictOn(before, e).Dispatched? then DispatchPicks(before, fp) + [|AlertTimes(before, fp)|]
      else DispatchPicks(before, fp)
  }

  lemma {:induction false} PicksAreDispatches(tr: Trace, fp: string)
    ensures var ts, sent, picks := AlertTimes(tr, fp), DispatchTimes(tr, fp), DispatchPicks(tr, fp);
      && |picks| == |sent|
      && (forall i | 0 <= i < |picks| :: picks[i] < |ts| && ts[picks[i]] == sent[i])
      && (forall i, j | 0 <= i < j < |picks| :: picks[i] < picks[j])
  {
    if tr.Then? {
      PicksAreDispatches(tr.before, fp);
    }
  }

  /** A raise costs a dispatch: the alert could have been chosen in addition. */
  lemma RaiseIsNotOptimal(tr: Trace, e: Event, fp: string, d: real)
    requires Regular(Then(tr, e), fp, d) && Monotone(Then(tr, e))
    requires About(e, fp) && VerdictOn(tr, e) == Raised
    ensures !Optimal(Then(tr, e), fp, d)
  {
    DispatchesStayApart(tr, fp, d);
    SuppressedExactlyInWindow(tr, e);
    TimesAreSorted(tr, fp, e.at);
    PicksAreDispatches(tr, fp);
    var pick := OneMorePick(DispatchPicks(tr, fp), AlertTimes(tr, fp), DispatchTimes(tr, fp), e.at, d);
    assert |pick| > |DispatchTimes(Then(tr, e), fp)|;
  }

  lemma OneMorePick(picks: seq<nat>, ts: seq<real>, sent: seq<real>, t: real, d: real) returns (pick: seq<nat>)
    requires |picks| == |sent| && Separated(sent, d) && Sorted(sent)
    requires forall i | 0 <= i < |picks| :: picks[i] < |ts| && ts[picks[i]] == sent[i]
    requires forall i, j | 0 <= i < j < |picks| :: picks[i] < picks[j]
    requires sent != [] ==> t - Latest(sent) >= d
    ensures |pick| == |picks| + 1 && Choice(pick, ts + [t], d)
  {
    forall i | 0 <= i < |sent|
      ensures t - sent[i] >= d
    {
      assert i < |sent| - 1 ==> sent[i] <= sent[|sent| - 1];
    }
    pick := picks + [|ts|];
  }

  /** The dispatches are an optimal choice at every point of a run if and only if no frozen
      event came first after suppressed ones with the window over. */
  lemma {:induction false} OptimalUnlessUnmentionable(tr: Trace, fp: string, d: real)
    requires Regular(tr, fp, d) && Monotone(tr)
    ensures AlwaysOptimal(tr, fp, d) <==> NeverUnmentionable(tr, fp)
    ensures NeverUnmentionable(tr, fp) <==> RaisedCount(tr, fp) == 0
  {
    if tr.Then? {
      OptimalUnlessUnmentionable(tr.before, fp, d);
      if About(tr.last, fp) {
        FrozenEventsRaise(tr.before, tr.last, tr.last);
        if VerdictOn(tr.before, tr.last) == Raised {
          RaiseIsNotOptimal(tr.before, tr.last, fp, d);
        }
      }
    }
    if RaisedCount(tr, fp) == 0 {
      forall pick | Choice(pick, AlertTimes(tr, fp), d)
        ensures |pick| <= |DispatchTimes(tr, fp)|
      {
        DispatchesStayAhead(tr, fp, d, pick);
      }
    }
  }
}
