/** The streaming detector of analytics/detectors.py. */
module Detector {
  import opened BoundedDeque
  import opened ZScore

  const DEFAULT_THRESHOLD := 3.0

  /** The batch test on the latest `windowSize` of the readings. */
  predicate Verdict(windowSize: nat, readings: seq<real>) {
    Detect(Latest(windowSize, readings), DEFAULT_THRESHOLD)
  }

  /** At least eleven readings in the window, all of them equal but for the latest. */
  predicate Spiked(windowSize: nat, readings: seq<real>) {
    var window := Latest(windowSize, readings);
    && |window| >= 11
    && (forall i | 0 <= i < |window| - 1 :: window[i] == window[0])
    && window[|window| - 1] != window[0]
  }

  class StatisticalAnomalyDetector {
    const windowSize: nat
    var window: seq<real>
    ghost var readings: seq<real>

    ghost predicate Valid()
      reads this
    {
      window == Latest(windowSize, readings)
    }

    constructor (windowSize: nat)
      ensures Valid() && this.windowSize == windowSize && readings == []
    {
      this.windowSize := windowSize;
      window, readings := [], [];
    }

    method AddValue(value: real) returns (anomalous: bool)
      requires Valid()
      modifies this
      ensures Valid() && readings == old(readings) + [value]
      ensures anomalous == Verdict(windowSize, readings)
      ensures windowSize <= 10 || |readings| <= 10 ==> !anomalous
      ensures Spiked(windowSize, readings) ==> anomalous
    {
      PushKeepsLatest(windowSize, readings, value);
      readings := readings + [value];
      window := Push(windowSize, window, value);
      anomalous := Detect(window, DEFAULT_THRESHOLD);
      if windowSize <= 10 || |readings| <= 10 {
        ShortWindowsNeverFlag(windowSize, readings);
      }
      if Spiked(windowSize, readings) {
        SpikesAlarm(windowSize, readings);
      }
    }
  }

  /** A detector whose window holds at most ten readings never raises an alarm, and neither
      does any detector before its eleventh reading. */
  lemma ShortWindowsNeverFlag(windowSize: nat, readings: seq<real>)
    requires windowSize <= 10 || |readings| <= 10
    ensures !Verdict(windowSize, readings)
  {
    var window := Latest(windowSize, readings);
    if Verdict(windowSize, readings) {
      FlaggedIsLongEnough(window, DEFAULT_THRESHOLD);
      DefaultThresholdNeedsEleven(|window|);
      assert false;
    }
  }

  /** From eleven readings in the window on, a single reading off an otherwise constant signal
      always raises an alarm. */
  lemma SpikesAlarm(windowSize: nat, readings: seq<real>)
    requires Spiked(windowSize, readings)
    ensures Verdict(windowSize, readings)
  {
    var window := Latest(windowSize, readings);
    var n := |window|;
    assert window == Spike(n, window[0], window[n - 1]);
    DefaultThresholdNeedsEleven(n);
    SpikesAreFlagged(n, window[0], window[n - 1], DEFAULT_THRESHOLD);
  }

  lemma {:induction false} ConvertedSuffix(xs: seq<real>, k: nat, a: real, b: real)
    requires k <= |xs|
    ensures Converted(xs, a, b)[k..] == Converted(xs[k..], a, b)
  {
    if k < |xs| {
      var init := xs[..|xs| - 1];
      ConvertedSuffix(init, k, a, b);
      assert xs[k..][..|xs| - k - 1] == init[k..];
    }
  }

  lemma {:induction false} ConvertedLatest(n: nat, xs: seq<real>, a: real, b: real)
    ensures Latest(n, Converted(xs, a, b)) == Converted(Latest(n, xs), a, b)
  {
    if |xs| > n {
      ConvertedSuffix(xs, |xs| - n, a, b);
    }
  }

  /** Converting every reading to another unit or zero point changes no verdict. */
  lemma {:induction false} VerdictsIgnoreUnits(windowSize: nat, readings: seq<real>, a: real, b: real)
    requires a != 0.0
    ensures Verdict(windowSize, Converted(readings, a, b)) <==> Verdict(windowSize, readings)
  {
    ConvertedLatest(windowSize, readings, a, b);
    VerdictIsAffineInvariant(Latest(windowSize, readings), a, b, DEFAULT_THRESHOLD);
  }
}
