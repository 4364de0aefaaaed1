/** The moving-average convergence/divergence line of rivian_analysis.py: the
    difference of the 12- and 26-span averages of the close, and its 9-span
    signal line. All three averages are `ewm(span=..., adjust=False)`.
 */
module Macd {
  import opened Series
  import opened Ewm

  /** `exp12 - exp26` on row `i`. */
  function MacdAt(close: seq<real>, i: nat): real
    requires i < |close|
  {
    EwmAt(FastAlpha, close, i) - EwmAt(SlowAlpha, close, i)
  }

  /** The MACD column, defined on every row. */
  function MacdLine(close: seq<real>): (m: seq<real>)
    ensures |m| == |close|
    ensures forall i :: 0 <= i < |close| ==> m[i] == MacdAt(close, i)
  {
    seq(|close|, i requires 0 <= i < |close| => MacdAt(close, i))
  }

  /** The signal line on row `i`: the 9-span average of the MACD column. */
  function SignalAt(close: seq<real>, i: nat): real
    requires i < |close|
  {
    EwmAt(SignalAlpha, MacdLine(close), i)
  }

  /** On a flat close both averages equal the price, so the MACD line and its
      signal are zero on every row. */
  lemma FlatMacd(close: seq<real>, i: nat, c: real)
    requires i < |close|
    requires forall j :: 0 <= j < |close| ==> close[j] == c
    ensures EwmAt(FastAlpha, close, i) == c && EwmAt(SlowAlpha, close, i) == c
    ensures MacdAt(close, i) == 0.0
    ensures SignalAt(close, i) == 0.0
  {
    SmoothingConstants();
    EwmOfConstant(FastAlpha, close, i, c);
    EwmOfConstant(SlowAlpha, close, i, c);
    var m := MacdLine(close);
    forall j | 0 <= j <= i
      ensures m[j] == 0.0
    {
      EwmOfConstant(FastAlpha, close, j, c);
      EwmOfConstant(SlowAlpha, close, j, c);
    }
    EwmOfConstant(SignalAlpha, m, i, 0.0);
  }

  /** Both averages lie in the range of the closes seen so far, so the MACD
      line and its signal are bounded in size by that range. */
  lemma MacdBounded(close: seq<real>, i: nat)
    requires i < |close|
    ensures -(SeqMax(close[..i + 1]) - SeqMin(close[..i + 1])) <= MacdAt(close, i)
    ensures MacdAt(close, i) <= SeqMax(close[..i + 1]) - SeqMin(close[..i + 1])
    ensures -(SeqMax(close[..i + 1]) - SeqMin(close[..i + 1])) <= SignalAt(close, i)
    ensures SignalAt(close, i) <= SeqMax(close[..i + 1]) - SeqMin(close[..i + 1])
  {
    SmoothingConstants();
    var lo, hi := SeqMin(close[..i + 1]), SeqMax(close[..i + 1]);
    var m := MacdLine(close);
    forall j | 0 <= j <= i
      ensures lo - hi <= m[j] <= hi - lo
    {
      assert forall t :: 0 <= t <= j ==> close[t] == close[..i + 1][t];
      EwmBetween(FastAlpha, close, j, lo, hi);
      EwmBetween(SlowAlpha, close, j, lo, hi);
    }
    EwmBetween(SignalAlpha, m, i, lo - hi, hi - lo);
  }

  /** On a close that rises by the same `step > 0` every day the MACD line
      rises strictly: from row `i - 1` to row `i` it gains
      `step * ((25/27)^i - (11/13)^i)`, because the slow average trails the
      close further than the fast one. */
  lemma LinearRiseMacdRising(close: seq<real>, step: real, i: nat)
    requires step > 0.0
    requires forall j :: 1 <= j < |close| ==> close[j] == close[j - 1] + step
    requires 1 <= i < |close|
    ensures MacdAt(close, i - 1) < MacdAt(close, i)
  {
    SmoothingConstants();
    var kf, ks := 1.0 - FastAlpha, 1.0 - SlowAlpha;
    EwmOfLinear(FastAlpha, close, step, i);
    EwmOfLinear(FastAlpha, close, step, i - 1);
    EwmOfLinear(SlowAlpha, close, step, i);
    EwmOfLinear(SlowAlpha, close, step, i - 1);
    LagGrowth(kf, step, i - 1);
    LagGrowth(ks, step, i - 1);
    PowerOrder(kf, ks, i);
    WideningLag(Lag(kf, step, i) - Lag(kf, step, i - 1), Lag(ks, step, i) - Lag(ks, step, i - 1),
                step, Power(kf, i), Power(ks, i));
  }

  /** The slow lag grows faster than the fast one when its growth factor is larger. */
  lemma WideningLag(fast: real, slow: real, step: real, pf: real, ps: real)
    requires step > 0.0 && pf < ps
    requires fast == step * pf && slow == step * ps
    ensures fast < slow
  {
    var gain := step * (ps - pf);
    PositiveProduct(step, ps - pf, gain);
    assert slow - fast == gain;
  }

  /** On a close that rises by the same `step > 0` every day the signal line,
      an average of the rising MACD line, stays strictly below it from row 1
      on: the momentum rule reads bullish. */
  lemma LinearRiseBullish(close: seq<real>, step: real, i: nat)
    requires step > 0.0
    requires forall j :: 1 <= j < |close| ==> close[j] == close[j - 1] + step
    requires 1 <= i < |close|
    ensures SignalAt(close, i) < MacdAt(close, i)
  {
    SmoothingConstants();
    var m := MacdLine(close);
    forall j | 1 <= j <= i
      ensures m[j - 1] < m[j]
    {
      LinearRiseMacdRising(close, step, j);
    }
    EwmBelowRising(SignalAlpha, m, i);
  }

  /** The three passes the pipeline makes: the two price averages, their
      difference, and the average of that difference. */
  method ComputeMacd(close: seq<real>) returns (macd: seq<real>, signal: seq<real>)
    ensures |macd| == |close| && |signal| == |close|
    ensures forall i :: 0 <= i < |close| ==> macd[i] == MacdAt(close, i)
    ensures forall i :: 0 <= i < |close| ==> signal[i] == SignalAt(close, i)
  {
    var exp12 := ComputeEwm(FastAlpha, close);
    var exp26 := ComputeEwm(SlowAlpha, close);
    macd := seq(|close|, i requires 0 <= i < |close| => exp12[i] - exp26[i]);
    assert macd == MacdLine(close);
    signal := ComputeEwm(SignalAlpha, macd);
  }
}
