/** The exponentially weighted moving average of analytics/ewma.py, over the reals. */
module Ewma {
  import opened RealArithmetic

  /** One step of the loop. */
  function Blend(alpha: real, value: real, ewma: real): real {
    alpha * value + (1.0 - alpha) * ewma
  }

  /** The average of a non-empty list; 0 for the empty one. */
  function Average(values: seq<real>, alpha: real): real {
    if values == [] then 0.0
    else if |values| == 1 then values[0]
    else Blend(alpha, values[|values| - 1], Average(values[..|values| - 1], alpha))
  }

  method ComputeEwma(values: seq<real>, alpha: real) returns (ewma: real)
    ensures ewma == Average(values, alpha)
    ensures ewma == if values == [] then 0.0 else WeightedSum(values, alpha, |values|, |values|)
  {
    if |values| == 0 {
      return 0.0;
    }
    ewma := values[0];
    for i := 1 to |values|
      invariant ewma == Average(values[..i], alpha)
    {
      ewma := alpha * values[i] + (1.0 - alpha) * ewma;
      assert values[..i + 1][..i] == values[..i];
    }
    assert values[..|values|] == values;
    ClosedForm(values, alpha);
  }

  function Pow(x: real, n: nat): real {
    if n == 0 then 1.0 else x * Pow(x, n - 1)
  }

  /** The weight of the value at position `i` in a list of length `n`. */
  function Weight(alpha: real, n: nat, i: nat): real
    requires i < n
  {
    if i == 0 then Pow(1.0 - alpha, n - 1) else alpha * Pow(1.0 - alpha, n - 1 - i)
  }

  function Share(alpha: real, n: nat, i: nat, value: real): real
    requires i < n
  {
    Weight(alpha, n, i) * value
  }

  /** The weighted sum of the first `k` of the values of a list of length `n`. */
  function WeightedSum(values: seq<real>, alpha: real, n: nat, k: nat): real
    requires k <= |values| && k <= n
  {
    if k == 0 then 0.0
    else WeightedSum(values, alpha, n, k - 1) + Share(alpha, n, k - 1, values[k - 1])
  }

  lemma ShareDecays(alpha: real, n: nat, i: nat, value: real)
    requires i < n
    ensures Share(alpha, n + 1, i, value) == (1.0 - alpha) * Share(alpha, n, i, value)
  {
    assert Weight(alpha, n + 1, i) == (1.0 - alpha) * Weight(alpha, n, i);
    Associate(1.0 - alpha, Weight(alpha, n, i), value, Weight(alpha, n + 1, i));
  }

  lemma Associate(r: real, w: real, v: real, rw: real)
    requires rw == r * w
    ensures rw * v == r * (w * v)
  {}

  lemma {:induction false} WeightsDecay(values: seq<real>, alpha: real, n: nat, k: nat)
    returns (s: real, t: real)
    requires k <= |values| && k <= n
    ensures s == WeightedSum(values, alpha, n, k) && t == WeightedSum(values, alpha, n + 1, k)
    ensures t == (1.0 - alpha) * s
  {
    s, t := 0.0, 0.0;
    if k > 0 {
      s, t := WeightsDecay(values, alpha, n, k - 1);
      var u, u' := ShareOf(alpha, n, k - 1, values[k - 1]);
      s, t := s + u, t + u';
    }
  }

  lemma ShareOf(alpha: real, n: nat, i: nat, value: real) returns (u: real, u': real)
    requires i < n
    ensures u == Share(alpha, n, i, value) && u' == Share(alpha, n + 1, i, value)
    ensures u' == (1.0 - alpha) * u
  {
    u, u' := Share(alpha, n, i, value), Share(alpha, n + 1, i, value);
    ShareDecays(alpha, n, i, value);
  }

  lemma {:induction false} PrefixWeights(values: seq<real>, more: seq<real>, alpha: real, n: nat, k: nat)
    requires k <= |values| && k <= n
    ensures WeightedSum(values + more, alpha, n, k) == WeightedSum(values, alpha, n, k)
  {
    if k > 0 {
      PrefixWeights(values, more, alpha, n, k - 1);
    }
  }

  /** The average is the weighted sum of its values. */
  lemma {:induction false} ClosedForm(values: seq<real>, alpha: real)
    requires values != []
    ensures Average(values, alpha) == WeightedSum(values, alpha, |values|, |values|)
  {
    var n := |values|;
    if n == 1 {
      assert WeightedSum(values, alpha, 1, 1) == WeightedSum(values, alpha, 1, 0) + Pow(1.0 - alpha, 0) * values[0];
    } else {
      var init, last := values[..n - 1], values[n - 1];
      ClosedForm(init, alpha);
      var _, _ := WeightsDecay(init, alpha, n - 1, n - 1);
      assert values == init + [last];
      PrefixWeights(init, [last], alpha, n, n - 1);
      assert Pow(1.0 - alpha, 0) == 1.0;
    }
  }

  /** The weights of a list of any length add up to one. */
  lemma {:induction false} WeightsSumToOne(ones: seq<real>, alpha: real)
    requires ones != [] && forall i | 0 <= i < |ones| :: ones[i] == 1.0
    ensures WeightedSum(ones, alpha, |ones|, |ones|) == 1.0
  {
    ClosedForm(ones, alpha);
    ConstantAverage(ones, alpha, 1.0);
  }

  lemma {:induction false} ConstantAverage(values: seq<real>, alpha: real, c: real)
    requires values != [] && forall i | 0 <= i < |values| :: values[i] == c
    ensures Average(values, alpha) == c
  {
    if |values| > 1 {
      ConstantAverage(values[..|values| - 1], alpha, c);
    }
  }

  /** For a smoothing factor between 0 and 1 the average lies within the range of the values. */
  lemma {:induction false} StaysInRange(values: seq<real>, alpha: real, lo: real, hi: real)
    requires values != [] && 0.0 <= alpha <= 1.0
    requires forall i | 0 <= i < |values| :: lo <= values[i] <= hi
    ensures lo <= Average(values, alpha) <= hi
  {
    if |values| > 1 {
      var init, last := values[..|values| - 1], values[|values| - 1];
      StaysInRange(init, alpha, lo, hi);
      BlendInRange(alpha, last, Average(init, alpha), lo, hi);
    }
  }

  lemma BlendInRange(alpha: real, x: real, y: real, lo: real, hi: real)
    requires 0.0 <= alpha <= 1.0 && lo <= x <= hi && lo <= y <= hi
    ensures lo <= Blend(alpha, x, y) <= hi
  {
    NonNegative(alpha, x - lo, alpha * (x - lo));
    NonNegative(1.0 - alpha, y - lo, (1.0 - alpha) * (y - lo));
    NonNegative(alpha, hi - x, alpha * (hi - x));
    NonNegative(1.0 - alpha, hi - y, (1.0 - alpha) * (hi - y));
    assert alpha * (x - lo) + (1.0 - alpha) * (y - lo) == Blend(alpha, x, y) - lo;
    assert alpha * (hi - x) + (1.0 - alpha) * (hi - y) == hi - Blend(alpha, x, y);
  }

  /** The average of a whole list can be resumed from the average of any non-empty prefix. */
  lemma {:induction false} Resumes(xs: seq<real>, ys: seq<real>, alpha: real)
    requires xs != []
    ensures Average(xs + ys, alpha) == Average([Average(xs, alpha)] + ys, alpha)
  {
    var a := [Average(xs, alpha)];
    if ys == [] {
      assert xs + ys == xs && a + ys == a;
    } else {
      var init, last := ys[..|ys| - 1], ys[|ys| - 1];
      Resumes(xs, init, alpha);
      assert (xs + ys)[..|xs + ys| - 1] == xs + init;
      assert (a + ys)[..|a + ys| - 1] == a + init;
    }
  }

  lemma {:induction false} ChangeFades(
    values: seq<real>, alpha: real, first: real, p: real, d: real) returns (x: real, y: real)
    requires values != [] && p == Pow(1.0 - alpha, |values| - 1) && d == first - values[0]
    ensures x == Average(values[0 := first], alpha) && y == Average(values, alpha)
    ensures x - y == p * d
  {
    var n := |values|;
    if n == 1 {
      return first, values[0];
    }
    var init, q := values[..n - 1], Pow(1.0 - alpha, n - 2);
    x, y := ChangeFades(init, alpha, first, q, d);
    assert values[0 := first][..n - 1] == init[0 := first];
    Damp(alpha, x, y, values[n - 1], q, d, p);
    x, y := Blend(alpha, values[n - 1], x), Blend(alpha, values[n - 1], y);
  }

  lemma Damp(alpha: real, x: real, y: real, v: real, q: real, d: real, p: real)
    requires x - y == q * d && p == (1.0 - alpha) * q
    ensures Blend(alpha, v, x) - Blend(alpha, v, y) == p * d
  {
    assert Blend(alpha, v, x) - Blend(alpha, v, y) == (1.0 - alpha) * (x - y);
    assert (1.0 - alpha) * (q * d) == ((1.0 - alpha) * q) * d;
  }

  /** A change of the first value is damped by one factor for each later value. */
  lemma FirstValueFades(values: seq<real>, alpha: real, first: real)
    requires values != []
    ensures Average(values[0 := first], alpha) - Average(values, alpha)
         == Pow(1.0 - alpha, |values| - 1) * (first - values[0])
  {
    var _, _ := ChangeFades(values, alpha, first, Pow(1.0 - alpha, |values| - 1), first - values[0]);
  }
}
