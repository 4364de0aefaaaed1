/** Exponentially weighted moving averages as pandas computes them with
    `adjust=False`: the average starts at the first observation and each
    later observation moves it a fraction `alpha` of the way towards itself.
 */
module Ewm {
  import opened Series

  /** The smoothing factor of `ewm(com=com)`: the centre of mass `com` of the
      weights satisfies `com == (1 - alpha) / alpha`.  pandas rejects `com < 0`. */
  function AlphaFromCom(com: real): (alpha: real)
    requires com >= 0.0
    ensures 0.0 < alpha <= 1.0
    ensures alpha * (1.0 + com) == 1.0
  {
    1.0 / (1.0 + com)
  }

  /** The smoothing factor of `ewm(span=span)`, `span == 2 / alpha - 1`.
      pandas rejects `span < 1`. */
  function AlphaFromSpan(span: real): (alpha: real)
    requires span >= 1.0
    ensures 0.0 < alpha <= 1.0
    ensures alpha * (span + 1.0) == 2.0
  {
    2.0 / (span + 1.0)
  }

  /** The four smoothing factors the analysis uses: `com=13` for both RSI
      averages, spans 12 and 26 for the MACD averages, span 9 for its signal line. */
  const RsiAlpha: real := AlphaFromCom(13.0)
  const FastAlpha: real := AlphaFromSpan(12.0)
  const SlowAlpha: real := AlphaFromSpan(26.0)
  const SignalAlpha: real := AlphaFromSpan(9.0)

  lemma SmoothingConstants()
    ensures RsiAlpha == 1.0 / 14.0
    ensures FastAlpha == 2.0 / 13.0
    ensures SlowAlpha == 2.0 / 27.0
    ensures SignalAlpha == 2.0 / 10.0
    ensures 0.0 < RsiAlpha < 1.0 && 0.0 < FastAlpha < 1.0
    ensures 0.0 < SlowAlpha < 1.0 && 0.0 < SignalAlpha < 1.0
  {}

  /** The average after observations `xs[0..i]`. */
  function EwmAt(alpha: real, xs: seq<real>, i: nat): real
    requires i < |xs|
  {
    if i == 0 then xs[0]
    else alpha * xs[i] + (1.0 - alpha) * EwmAt(alpha, xs, i - 1)
  }

  /** One smoothing step stays between any bounds of its two inputs. */
  lemma ConvexStep(alpha: real, x: real, e: real, lo: real, hi: real)
    requires 0.0 <= alpha <= 1.0
    requires lo <= x <= hi && lo <= e <= hi
    ensures lo <= alpha * x + (1.0 - alpha) * e <= hi
  {
    ProductNonnegative(alpha, x - lo);
    ProductNonnegative(1.0 - alpha, e - lo);
    ProductNonnegative(alpha, hi - x);
    ProductNonnegative(1.0 - alpha, hi - e);
  }

  /** The average is a convex combination of the observations so far, so any
      bounds on them bound it. */
  lemma {:induction false} EwmBetween(alpha: real, xs: seq<real>, i: nat, lo: real, hi: real)
    requires 0.0 <= alpha <= 1.0
    requires i < |xs|
    requires forall j :: 0 <= j <= i ==> lo <= xs[j] <= hi
    ensures lo <= EwmAt(alpha, xs, i) <= hi
  {
    if i > 0 {
      EwmBetween(alpha, xs, i - 1, lo, hi);
      ConvexStep(alpha, xs[i], EwmAt(alpha, xs, i - 1), lo, hi);
    }
  }

  /** The average lies between the smallest and the largest observation so far. */
  lemma EwmWithinRange(alpha: real, xs: seq<real>, i: nat)
    requires 0.0 <= alpha <= 1.0
    requires i < |xs|
    ensures SeqMin(xs[..i + 1]) <= EwmAt(alpha, xs, i) <= SeqMax(xs[..i + 1])
  {
    var w := xs[..i + 1];
    assert forall j :: 0 <= j <= i ==> xs[j] == w[j];
    EwmBetween(alpha, xs, i, SeqMin(w), SeqMax(w));
  }

  /** A constant input has a constant average. */
  lemma EwmOfConstant(alpha: real, xs: seq<real>, i: nat, c: real)
    requires 0.0 <= alpha <= 1.0
    requires i < |xs|
    requires forall j :: 0 <= j <= i ==> xs[j] == c
    ensures EwmAt(alpha, xs, i) == c
  {
    EwmBetween(alpha, xs, i, c, c);
  }

  lemma ZeroStep(alpha: real, x: real, e: real)
    requires 0.0 < alpha < 1.0
    requires x >= 0.0 && e >= 0.0
    ensures alpha * x + (1.0 - alpha) * e >= 0.0
    ensures alpha * x + (1.0 - alpha) * e == 0.0 <==> x == 0.0 && e == 0.0
  {
    ProductNonnegative(alpha, x);
    ProductNonnegative(1.0 - alpha, e);
    if x > 0.0 {
      ProductPositive(alpha, x);
    }
    if e > 0.0 {
      ProductPositive(1.0 - alpha, e);
    }
  }

  /** With a smoothing factor strictly between 0 and 1, the average of
      non-negative observations is zero exactly when all of them were zero. */
  lemma {:induction false} EwmZeroIff(alpha: real, xs: seq<real>, i: nat)
    requires 0.0 < alpha < 1.0
    requires i < |xs|
    requires forall j :: 0 <= j <= i ==> xs[j] >= 0.0
    ensures EwmAt(alpha, xs, i) >= 0.0
    ensures EwmAt(alpha, xs, i) == 0.0 <==> forall j :: 0 <= j <= i ==> xs[j] == 0.0
  {
    if i > 0 {
      EwmZeroIff(alpha, xs, i - 1);
      ZeroStep(alpha, xs[i], EwmAt(alpha, xs, i - 1));
    }
  }

  /** The average at `i` depends on the observations up to `i` only. */
  lemma {:induction false} EwmCausal(alpha: real, xs: seq<real>, ys: seq<real>, i: nat)
    requires i < |xs| && i < |ys|
    requires xs[..i + 1] == ys[..i + 1]
    ensures EwmAt(alpha, xs, i) == EwmAt(alpha, ys, i)
  {
    assert xs[i] == xs[..i + 1][i] == ys[..i + 1][i] == ys[i];
    if i > 0 {
      assert xs[..i] == xs[..i + 1][..i] == ys[..i + 1][..i] == ys[..i];
      EwmCausal(alpha, xs, ys, i - 1);
    }
  }

  /** On a series rising by every row, the average stays at or below the
      latest observation, strictly below it from the second row on. */
  lemma {:induction false} EwmBelowRising(alpha: real, xs: seq<real>, i: nat)
    requires 0.0 < alpha < 1.0
    requires i < |xs|
    requires forall j :: 1 <= j <= i ==> xs[j - 1] < xs[j]
    ensures EwmAt(alpha, xs, i) <= xs[i]
    ensures i >= 1 ==> EwmAt(alpha, xs, i) < xs[i]
  {
    if i > 0 {
      EwmBelowRising(alpha, xs, i - 1);
      BelowStep(alpha, xs[i], EwmAt(alpha, xs, i - 1));
    }
  }

  /** A smoothing step towards a larger observation stays strictly below it. */
  lemma BelowStep(alpha: real, x: real, e: real)
    requires 0.0 < alpha < 1.0
    requires e < x
    ensures alpha * x + (1.0 - alpha) * e < x
  {
    var gap := (1.0 - alpha) * (x - e);
    PositiveProduct(1.0 - alpha, x - e, gap);
    assert alpha * x + (1.0 - alpha) * e + gap == x;
  }

  /** `x` to the power `n`. */
  function Power(x: real, n: nat): real
  {
    if n == 0 then 1.0 else x * Power(x, n - 1)
  }

  /** How far the average of a series that rises by `step` on every row trails
      the series after `i` rows, when each row keeps the fraction `keep` of
      the previous distance (`keep == 1 - alpha`). */
  function Lag(keep: real, step: real, i: nat): real
  {
    if i == 0 then 0.0 else keep * (Lag(keep, step, i - 1) + step)
  }

  /** On a series with a constant step the average is the latest observation
      minus the lag. */
  lemma {:induction false} EwmOfLinear(alpha: real, xs: seq<real>, step: real, i: nat)
    requires i < |xs|
    requires forall j :: 1 <= j < |xs| ==> xs[j] == xs[j - 1] + step
    ensures EwmAt(alpha, xs, i) == xs[i] - Lag(1.0 - alpha, step, i)
  {
    if i > 0 {
      EwmOfLinear(alpha, xs, step, i - 1);
      var lag := Lag(1.0 - alpha, step, i - 1);
      assert xs[i - 1] == xs[i] - step;
      assert (1.0 - alpha) * (xs[i] - step - lag) == (1.0 - alpha) * xs[i] - (1.0 - alpha) * (lag + step);
    }
  }

  /** The lag grows by `step * keep^(i+1)` from row `i` to row `i + 1`. */
  lemma {:induction false} LagGrowth(keep: real, step: real, i: nat)
    ensures Lag(keep, step, i + 1) - Lag(keep, step, i) == step * Power(keep, i + 1)
  {
    if i > 0 {
      LagGrowth(keep, step, i - 1);
      ScaledGrowth(keep, Lag(keep, step, i), Lag(keep, step, i - 1), step, Power(keep, i));
    }
  }

  /** One more factor `k` on both sides of a growth `u - v == s * p`. */
  lemma ScaledGrowth(k: real, u: real, v: real, s: real, p: real)
    requires u - v == s * p
    ensures k * (u + s) - k * (v + s) == s * (k * p)
  {
    assert k * (u + s) - k * (v + s) == k * (u - v);
  }

  /** Positive powers keep the order of positive bases. */
  lemma {:induction false} PowerOrder(x: real, y: real, n: nat)
    requires 0.0 < x < y
    requires n >= 1
    ensures 0.0 < Power(x, n) < Power(y, n)
  {
    if n > 1 {
      PowerOrder(x, y, n - 1);
      ProductPositive(x, Power(x, n - 1));
      ProductPositive(y - x, Power(x, n - 1));
      ProductPositive(y, Power(y, n - 1) - Power(x, n - 1));
    }
  }

  /** The single pass pandas makes over the column, carrying the previous average. */
  method ComputeEwm(alpha: real, xs: seq<real>) returns (e: seq<real>)
    ensures |e| == |xs|
    ensures forall i :: 0 <= i < |xs| ==> e[i] == EwmAt(alpha, xs, i)
  {
    e := [];
    var i := 0;
    while i < |xs|
      invariant i <= |xs|
      invariant |e| == i
      invariant forall j :: 0 <= j < i ==> e[j] == EwmAt(alpha, xs, j)
    {
      var next := if i == 0 then xs[0] else alpha * xs[i] + (1.0 - alpha) * e[i - 1];
      e := e + [next];
      i := i + 1;
    }
  }
}
