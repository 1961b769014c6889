/** The z-score test of analytics/zscore.py, over the reals. */
module ZScore {
  import opened RealArithmetic

  function Sum(xs: seq<real>): real {
    if xs == [] then 0.0 else Sum(xs[..|xs| - 1]) + xs[|xs| - 1]
  }

  function Mean(xs: seq<real>): real
    requires xs != []
  {
    Sum(xs) / |xs| as real
  }

  /** The sum of the squared distances from `m`. */
  function Spread(xs: seq<real>, m: real): real {
    if xs == [] then 0.0 else Spread(xs[..|xs| - 1], m) + Square(xs[|xs| - 1] - m)
  }

  /** The sample variance. */
  function Variance(xs: seq<real>): real
    requires |xs| >= 2
  {
    Spread(xs, Mean(xs)) / (|xs| as real - 1.0)
  }

  /** Whether `|d| / sqrt(variance)` exceeds the threshold, by comparing squares; a negative
      threshold is exceeded by every z-score. */
  predicate Exceeds(d: real, variance: real, threshold: real) {
    threshold < 0.0 || Square(d) > Square(threshold) * variance
  }

  predicate Detect(xs: seq<real>, threshold: real) {
    |xs| >= 2 &&
    var variance := Variance(xs);
    variance != 0.0 && Exceeds(xs[|xs| - 1] - Mean(xs), variance, threshold)
  }

  function Abs(x: real): real { if x < 0.0 then -x else x }

  /** Comparing squares is what the source does: for the standard deviation `sd`, the quotient
      exceeds the threshold exactly when `Exceeds` says so. */
  lemma SquareFormIsFaithful(d: real, variance: real, threshold: real, sd: real)
    requires sd > 0.0 && Square(sd) == variance
    ensures Abs(d) / sd > threshold <==> Exceeds(d, variance, threshold)
  {
    var z, a, t := Abs(d) / sd, Abs(d), threshold * sd;
    Quotient(a, sd, z);
    ScaleOrder(sd, z, threshold, a, t);
    if threshold < 0.0 {
      ScaleSign(sd, -threshold, -t);
    } else {
      NonNegative(threshold, sd, t);
      SquaresKeepOrder(a, t);
      if d < 0.0 {
        SquareOfNegative(a, d);
      }
      SquareOfProduct(threshold, sd, t);
    }
  }

  // ----- mean and variance, without division -----

  /** `m` is the mean and `v` the sample variance of `xs`, which has length `n`. */
  predicate Moments(xs: seq<real>, n: real, m: real, v: real) {
    && |xs| >= 2 && n == |xs| as real
    && Sum(xs) == n * m
    && Spread(xs, m) == (n - 1.0) * v
  }

  lemma MomentsAre(xs: seq<real>, n: real, m: real, v: real)
    requires |xs| >= 2 && n == |xs| as real
    ensures Moments(xs, n, m, v) <==> m == Mean(xs) && v == Variance(xs)
  {
    Quotient(Sum(xs), n, m);
    Quotient(Spread(xs, m), n - 1.0, v);
  }

  lemma DetectBy(xs: seq<real>, n: real, m: real, v: real, d: real, threshold: real)
    requires Moments(xs, n, m, v) && d == xs[|xs| - 1] - m
    ensures Detect(xs, threshold) <==> v != 0.0 && Exceeds(d, v, threshold)
  {
    MomentsAre(xs, n, m, v);
  }

  /** End to end: for the mean `m` and the standard deviation `sd` of a list, the verdict is the
      comparison of the z-score of its last value with the threshold. */
  lemma DetectIsQuotient(xs: seq<real>, n: real, m: real, sd: real, threshold: real)
    requires sd > 0.0 && Moments(xs, n, m, Square(sd))
    ensures Detect(xs, threshold) <==> Abs(xs[|xs| - 1] - m) / sd > threshold
  {
    var d := xs[|xs| - 1] - m;
    DetectBy(xs, n, m, Square(sd), d, threshold);
    SquareFormIsFaithful(d, Square(sd), threshold, sd);
    SquareSign(sd);
  }

  /** A list of equal values is never flagged, not even for a negative threshold. */
  lemma ConstantListsAreQuiet(xs: seq<real>, a: real, threshold: real)
    requires forall i | 0 <= i < |xs| :: xs[i] == a
    ensures !Detect(xs, threshold)
  {
    if |xs| >= 2 {
      ConstantSums(xs, |xs| as real, a, a);
      SquareSign(0.0);
      MomentsAre(xs, |xs| as real, a, 0.0);
      DetectBy(xs, |xs| as real, a, 0.0, 0.0, threshold);
    }
  }

  // ----- how far out the last value can be -----

  lemma CompleteTheSquare(k: real, s: real, q: real, y: real, cross: real)
    requires k > 0.0 && s * s <= k * q && cross == q + k * (y * y) - 2.0 * (s * y)
    ensures cross >= 0.0
  {
    var r := s - k * y;
    var kc := k * cross;
    assert Square(r) == s * s - 2.0 * (k * (s * y)) + k * (k * (y * y));
    assert kc == k * q - 2.0 * (k * (s * y)) + k * (k * (y * y));
    SquareSign(r);
    ScaleSign(k, -cross, -kc);
  }

  lemma CauchyStep(k: real, s: real, q: real, y: real, k': real, s': real, t: real)
    requires k >= 0.0 && Square(s) <= k * q && (k == 0.0 ==> s == 0.0 && q == 0.0)
    requires k' == k + 1.0 && s' == s + y && t == q + Square(y)
    ensures Square(s') <= k' * t
  {
    var sy, yy := s * y, Square(y);
    var cross := q + k * yy - 2.0 * sy;
    if k > 0.0 {
      CompleteTheSquare(k, s, q, y, cross);
    } else {
      SquareSign(y);
    }
    assert s' * s' == s * s + 2.0 * sy + yy;
    assert k' * t == k * q + k * yy + q + yy;
  }

  /** The Cauchy-Schwarz inequality for the deviations from `m`: `s` is their sum, `t` the sum
      of their squares. */
  lemma {:induction false} DeviationsBounded(xs: seq<real>, m: real, k: real, s: real, t: real)
    requires k == |xs| as real && s == Sum(xs) - k * m && t == Spread(xs, m)
    ensures Square(s) <= k * t
  {
    if xs != [] {
      var init, y := xs[..|xs| - 1], xs[|xs| - 1] - m;
      var q := Spread(init, m);
      assert k * m == (k - 1.0) * m + m;
      DeviationsBounded(init, m, k - 1.0, s - y, q);
      CauchyStep(k - 1.0, s - y, q, y, k, s, t);
    }
  }

  /** Samuelson's inequality, for the last value: `d` is its distance from the mean `m`, `t`
      the sum of all squared distances. */
  lemma Samuelson(xs: seq<real>, n: real, m: real, d: real, t: real)
    requires xs != [] && n == |xs| as real && Sum(xs) == n * m
    requires d == xs[|xs| - 1] - m && t == Spread(xs, m)
    ensures n * Square(d) <= (n - 1.0) * t
  {
    var init := xs[..|xs| - 1];
    var s, q := Sum(init), Spread(init, m);
    var e := s - (n - 1.0) * m;
    DeviationsBounded(init, m, n - 1.0, e, q);
    assert e == -d;
    SquareOfNegative(e, d);
    Distribute(n - 1.0, q, Square(d), t);
  }

  /** The sample sizes for which a list can be flagged at a threshold. */
  predicate LongEnough(n: nat, threshold: real) {
    n >= 2 && (threshold < 0.0 || Square(n as real - 1.0) > Square(threshold) * n as real)
  }

  lemma {:induction false} SpreadIsNonNegative(xs: seq<real>, m: real)
    ensures Spread(xs, m) >= 0.0
  {
    if xs != [] {
      SpreadIsNonNegative(xs[..|xs| - 1], m);
      SquareSign(xs[|xs| - 1] - m);
    }
  }

  lemma FlaggedNumbers(n: real, dd: real, v: real, t: real, tt: real)
    requires n >= 2.0 && t >= 0.0 && t == (n - 1.0) * v && v != 0.0
    requires n * dd <= (n - 1.0) * t && dd > tt * v
    ensures Square(n - 1.0) > tt * n
  {
    var gap := Square(n - 1.0) - tt * n;
    var vg := v * gap;
    ScaleSign(n - 1.0, v, t);
    ScaleOrder(n, dd, tt * v, n * dd, n * (tt * v));
    assert vg == (n - 1.0) * t - n * (tt * v);
    ScaleSign(v, gap, vg);
  }

  lemma FlaggedSample(xs: seq<real>, threshold: real) returns (n: real, d: real, v: real, t: real)
    requires Detect(xs, threshold)
    ensures n == |xs| as real && n >= 2.0 && v != 0.0
    ensures t >= 0.0 && t == (n - 1.0) * v
    ensures Exceeds(d, v, threshold)
    ensures n * Square(d) <= (n - 1.0) * t
  {
    var m := Mean(xs);
    n, d, v, t := |xs| as real, xs[|xs| - 1] - m, Variance(xs), Spread(xs, m);
    MomentsAre(xs, n, m, v);
    SpreadIsNonNegative(xs, m);
    Samuelson(xs, n, m, d, t);
  }

  /** Nothing is ever flagged in a list that is too short. */
  lemma FlaggedIsLongEnough(xs: seq<real>, threshold: real)
    requires Detect(xs, threshold)
    ensures LongEnough(|xs|, threshold)
  {
    var n, d, v, t := FlaggedSample(xs, threshold);
    if threshold >= 0.0 {
      FlaggedNumbers(n, Square(d), v, t, Square(threshold));
    }
  }

  /** `n - 1` equal values and then another one. */
  function Spike(n: nat, a: real, b: real): seq<real>
    requires n >= 1
  {
    seq(n - 1, i => a) + [b]
  }

  lemma {:induction false} ConstantSums(xs: seq<real>, r: real, a: real, m: real)
    requires r == |xs| as real && forall i | 0 <= i < |xs| :: xs[i] == a
    ensures Sum(xs) == r * a && Spread(xs, m) == r * Square(a - m)
  {
    if xs != [] {
      ConstantSums(xs[..|xs| - 1], r - 1.0, a, m);
      assert r * Square(a - m) == (r - 1.0) * Square(a - m) + Square(a - m);
    }
  }

  lemma SpikeMoments(n: nat, r: real, a: real, e: real, d: real, b: real)
    requires n >= 2 && r == n as real && d == (r - 1.0) * e && b == a + e + d
    ensures Moments(Spike(n, a, b), r, a + e, r * Square(e))
  {
    var xs, m := Spike(n, a, b), a + e;
    ConstantSums(xs[..n - 1], r - 1.0, a, m);
    SquareOfNegative(a - m, e);
    SquareOfProduct(r - 1.0, e, d);
    SpikeSums(r, a, e, d, b, Square(e), Square(d));
  }

  lemma SpikeSums(r: real, a: real, e: real, d: real, b: real, ee: real, dd: real)
    requires d == (r - 1.0) * e && b == a + e + d && dd == Square(r - 1.0) * ee
    ensures (r - 1.0) * a + b == r * (a + e)
    ensures (r - 1.0) * ee + dd == (r - 1.0) * (r * ee)
  {}

  lemma SpikeAlgebra(r: real, ee: real, dd: real, tt: real, v: real)
    requires r >= 2.0 && ee > 0.0 && dd == Square(r - 1.0) * ee && v == r * ee
    ensures v != 0.0
    ensures dd > tt * v <==> Square(r - 1.0) > tt * r
  {
    var gap := Square(r - 1.0) - tt * r;
    Positive(r, ee, v);
    assert ee * gap == dd - tt * v;
    ScaleSign(ee, gap, ee * gap);
  }

  lemma SpikeNumbers(n: nat, a: real, b: real) returns (r: real, e: real, d: real)
    requires n >= 2 && a != b
    ensures r == n as real && d == (r - 1.0) * e && b == a + e + d
    ensures Square(e) > 0.0 && Square(d) == Square(r - 1.0) * Square(e)
  {
    r := n as real;
    e := (b - a) / r;
    d := (r - 1.0) * e;
    Quotient(b - a, r, e);
    SquareSign(e);
    SquareOfProduct(r - 1.0, e, d);
  }

  /** The bound is sharp: at every length that is long enough, a single spike at the end is
      flagged, whatever its height and sign. */
  lemma SpikesAreFlagged(n: nat, a: real, b: real, threshold: real)
    requires n >= 2 && a != b
    ensures Detect(Spike(n, a, b), threshold) <==> LongEnough(n, threshold)
  {
    var r, e, d := SpikeNumbers(n, a, b);
    SpikeMoments(n, r, a, e, d, b);
    DetectBy(Spike(n, a, b), r, a + e, r * Square(e), d, threshold);
    SpikeAlgebra(r, Square(e), Square(d), Square(threshold), r * Square(e));
  }

  /** At the default threshold of 3: no list of fewer than eleven values is flagged, and from
      eleven values on every spike is. */
  lemma DefaultThresholdNeedsEleven(n: nat)
    ensures LongEnough(n, 3.0) <==> n >= 11
  {
    var r := n as real;
    assert Square(r - 1.0) == r * r - 2.0 * r + 1.0;
    if n >= 11 {
      NonNegative(r, r - 11.0, r * (r - 11.0));
      assert r * (r - 11.0) == r * r - 11.0 * r;
    } else if n >= 1 {
      NonNegative(r - 1.0, 10.0 - r, (r - 1.0) * (10.0 - r));
      assert (r - 1.0) * (10.0 - r) == 11.0 * r - 10.0 - r * r;
    }
  }

  // ----- change of units -----

  function Convert(a: real, b: real, x: real): real { a * x + b }

  function Converted(xs: seq<real>, a: real, b: real): (ys: seq<real>)
    ensures |ys| == |xs|
  {
    if xs == [] then [] else Converted(xs[..|xs| - 1], a, b) + [Convert(a, b, xs[|xs| - 1])]
  }

  lemma Append(ys: seq<real>, y: real, m: real)
    ensures Sum(ys + [y]) == Sum(ys) + y
    ensures Spread(ys + [y], m) == Spread(ys, m) + Square(y - m)
  {
    assert (ys + [y])[..|ys|] == ys;
  }

  lemma ConvertedDistance(a: real, b: real, x: real, m: real)
    ensures Square(Convert(a, b, x) - Convert(a, b, m)) == Square(a) * Square(x - m)
  {
    SquareOfProduct(a, x - m, Convert(a, b, x) - Convert(a, b, m));
  }

  lemma {:induction false} ConvertedSum(xs: seq<real>, n: real, a: real, b: real)
    requires n == |xs| as real
    ensures Sum(Converted(xs, a, b)) == a * Sum(xs) + n * b
  {
    if xs != [] {
      var init, x := xs[..|xs| - 1], xs[|xs| - 1];
      ConvertedSum(init, n - 1.0, a, b);
      Append(Converted(init, a, b), Convert(a, b, x), 0.0);
      Distribute(a, Sum(init), x, Sum(xs));
    }
  }

  lemma ConvertedLast(xs: seq<real>, a: real, b: real, m: real) returns (u: real, w: real)
    requires xs != []
    ensures Spread(xs, m) == Spread(xs[..|xs| - 1], m) + u
    ensures Spread(Converted(xs, a, b), Convert(a, b, m))
         == Spread(Converted(xs[..|xs| - 1], a, b), Convert(a, b, m)) + w
    ensures w == Square(a) * u
  {
    var init, x := xs[..|xs| - 1], xs[|xs| - 1];
    Append(Converted(init, a, b), Convert(a, b, x), Convert(a, b, m));
    ConvertedDistance(a, b, x, m);
    u, w := Square(x - m), Square(Convert(a, b, x) - Convert(a, b, m));
  }

  lemma {:induction false} ConvertedSpread(xs: seq<real>, a: real, b: real, m: real)
    returns (s: real, t: real)
    ensures s == Spread(xs, m) && t == Spread(Converted(xs, a, b), Convert(a, b, m))
    ensures t == Square(a) * s
  {
    s, t := 0.0, 0.0;
    if xs != [] {
      s, t := ConvertedSpread(xs[..|xs| - 1], a, b, m);
      var u, w := ConvertedLast(xs, a, b, m);
      Distribute(Square(a), s, u, s + u);
      s, t := s + u, t + w;
    }
  }

  lemma Regroup(a: real, n: real, m: real, b: real, s: real)
    requires s == n * m
    ensures a * s + n * b == n * Convert(a, b, m)
  {}

  lemma ConvertedMoments(xs: seq<real>, n: real, m: real, v: real, a: real, b: real, c: real)
    requires Moments(xs, n, m, v) && c == Square(a)
    ensures Moments(Converted(xs, a, b), n, Convert(a, b, m), c * v)
  {
    ConvertedSum(xs, n, a, b);
    var s, t := ConvertedSpread(xs, a, b, m);
    Regroup(a, n, m, b, Sum(xs));
    Regroup(c, n - 1.0, v, 0.0, s);
  }

  lemma ScaledVerdict(c: real, d: real, d': real, v: real, v': real, threshold: real)
    requires c > 0.0 && v' == c * v && Square(d') == c * Square(d)
    ensures v' == 0.0 <==> v == 0.0
    ensures Exceeds(d', v', threshold) <==> Exceeds(d, v, threshold)
  {
    var tt, dd := Square(threshold), Square(d);
    ScaleSign(c, v, v');
    assert c * (tt * v) == tt * v';
    ScaleOrder(c, dd, tt * v, Square(d'), tt * v');
  }

  lemma BothSamples(xs: seq<real>, a: real, b: real, threshold: real)
    returns (d: real, d': real, v: real, v': real)
    requires |xs| >= 2
    ensures v' == Square(a) * v && Square(d') == Square(a) * Square(d)
    ensures Detect(xs, threshold) <==> v != 0.0 && Exceeds(d, v, threshold)
    ensures Detect(Converted(xs, a, b), threshold) <==> v' != 0.0 && Exceeds(d', v', threshold)
  {
    var n, m, x := |xs| as real, Mean(xs), xs[|xs| - 1];
    v := Variance(xs);
    MomentsAre(xs, n, m, v);
    ConvertedMoments(xs, n, m, v, a, b, Square(a));
    d, d', v' := x - m, Convert(a, b, x) - Convert(a, b, m), Square(a) * v;
    ConvertedDistance(a, b, x, m);
    DetectBy(Converted(xs, a, b), n, Convert(a, b, m), v', d', threshold);
  }

  /** The verdict does not depend on the unit or the zero point of the readings. */
  lemma {:induction false} VerdictIsAffineInvariant(xs: seq<real>, a: real, b: real, threshold: real)
    requires a != 0.0
    ensures Detect(Converted(xs, a, b), threshold) <==> Detect(xs, threshold)
  {
    if |xs| >= 2 {
      var d, d', v, v' := BothSamples(xs, a, b, threshold);
      SquareSign(a);
      ScaledVerdict(Square(a), d, d', v, v', threshold);
    }
  }
}
