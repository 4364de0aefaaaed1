/** The quick-insight rules of rivian_analysis.py: the last row of the cleaned
    frame is reduced to an ordered list of signals, and the whole pipeline
    from bars to signals.
 */
module Insights {
  import opened Options
  import opened Series
  import opened Rsi
  import opened Macd
  import opened Frame

  datatype Signal =
    | StrongBullishTrend
    | Overbought
    | Oversold
    | BullishMomentum
    | BearishMomentum

  /** Raised by `hist.iloc[-1]` on a frame with no rows. */
  datatype Error = EmptyFrame

  const OverboughtLevel: real := 70.0
  const OversoldLevel: real := 30.0

  /** The line written for each signal. */
  function Message(s: Signal): string
  {
    match s
    case StrongBullishTrend => "🟢 Strong bullish trend"
    case Overbought => "🔴 Overbought – possible pullback"
    case Oversold => "🟢 Oversold – possible rebound"
    case BullishMomentum => "🟢 Bullish momentum"
    case BearishMomentum => "🔴 Bearish momentum"
  }

  /** `x > y` on possibly not-a-number cells: any comparison with
      not-a-number is false. */
  predicate Above(x: Option<real>, y: Option<real>)
  {
    x.Some? && y.Some? && x.value > y.value
  }

  predicate IsMomentum(s: Signal)
  {
    s == BullishMomentum || s == BearishMomentum
  }

  /** The insight list for one row: the trend entry, at most one of the
      relative-strength entries, and always exactly one momentum entry, last. */
  function Rules(row: Row): (out: seq<Signal>)
    ensures 1 <= |out| <= 3
    ensures StrongBullishTrend in out <==> Above(Some(row.bar.close), row.sma50) && Above(row.sma50, row.sma200)
    ensures StrongBullishTrend in out ==> out[0] == StrongBullishTrend
    ensures Overbought in out <==> Above(row.rsi, Some(OverboughtLevel))
    ensures Oversold in out <==> Above(Some(OversoldLevel), row.rsi)
    ensures !(Overbought in out && Oversold in out)
    ensures out[|out| - 1] == if Above(row.macd, row.macdSignal) then BullishMomentum else BearishMomentum
    ensures forall t :: 0 <= t < |out| - 1 ==> !IsMomentum(out[t])
    ensures |out| == (if StrongBullishTrend in out then 1 else 0)
                   + (if Overbought in out || Oversold in out then 1 else 0) + 1
  {
    var trend := if Above(Some(row.bar.close), row.sma50) && Above(row.sma50, row.sma200)
                 then [StrongBullishTrend] else [];
    var strength := if Above(row.rsi, Some(OverboughtLevel)) then [Overbought]
                    else if Above(Some(OversoldLevel), row.rsi) then [Oversold]
                    else [];
    var momentum := if Above(row.macd, row.macdSignal) then BullishMomentum else BearishMomentum;
    trend + strength + [momentum]
  }

  /** Reads the last row of the cleaned frame and applies the rules; an empty
      frame has no last row. */
  function Evaluate(hist: seq<Row>): Result<seq<Signal>, Error>
  {
    if |hist| == 0 then Failure(EmptyFrame) else Success(Rules(hist[|hist| - 1]))
  }

  /** The whole pipeline: indicators, `dropna`, then the rules on the last row. */
  function Analyse(bars: seq<Bar>, sqrt: real -> real): Result<seq<Signal>, Error>
  {
    Evaluate(DropNa(Indicators(bars, sqrt)))
  }

  /** The pipeline yields insights exactly when there are at least 200 bars and
      the close has moved at least once; the insights are then those of the
      last bar's row. */
  lemma AnalyseSucceedsIff(bars: seq<Bar>, sqrt: real -> real)
    ensures Analyse(bars, sqrt).Success? <==> |bars| >= LongWindow && Moves(Closes(bars), |bars| - 1)
    ensures Analyse(bars, sqrt).Success? ==>
      Analyse(bars, sqrt).value == Rules(RowAt(bars, |bars| - 1, sqrt))
  {
    var kept := DropNa(Indicators(bars, sqrt));
    assert Analyse(bars, sqrt) == Evaluate(kept);
    if |bars| > 0 {
      var last := RowAt(bars, |bars| - 1, sqrt);
      LastKeptRow(bars, sqrt);
      RowComplete(bars, |bars| - 1, sqrt);
      if Complete(last) {
        assert Evaluate(kept) == Success(Rules(last));
      } else {
        assert Evaluate(kept) == Failure(EmptyFrame);
      }
    }
  }

  /** A flat close never yields insights: every row's relative strength index
      is not-a-number, so `dropna` empties the frame. */
  lemma FlatCloseFails(bars: seq<Bar>, sqrt: real -> real, c: real)
    requires forall i :: 0 <= i < |bars| ==> bars[i].close == c
    ensures Analyse(bars, sqrt) == Failure(EmptyFrame)
  {
    AnalyseSucceedsIff(bars, sqrt);
  }

  /** Fewer than 200 bars never yield insights. */
  lemma ShortHistoryFails(bars: seq<Bar>, sqrt: real -> real)
    requires |bars| < LongWindow
    ensures Analyse(bars, sqrt) == Failure(EmptyFrame)
  {
    AnalyseSucceedsIff(bars, sqrt);
  }

  /** A row whose close is above its 50-bar mean, which is above its 200-bar
      mean, and whose relative strength index is above 70 yields the trend,
      the overbought warning and one momentum entry. */
  lemma TrendingOverboughtRow(row: Row)
    requires Above(Some(row.bar.close), row.sma50) && Above(row.sma50, row.sma200)
    requires Above(row.rsi, Some(OverboughtLevel))
    ensures |Rules(row)| == 3
    ensures Rules(row)[0] == StrongBullishTrend && Rules(row)[1] == Overbought
  {}

  /** A trending, overbought row whose MACD is above its signal yields the
      three bullish-side entries, in this order. */
  lemma BullishRow(row: Row)
    requires Above(Some(row.bar.close), row.sma50) && Above(row.sma50, row.sma200)
    requires Above(row.rsi, Some(OverboughtLevel))
    requires Above(row.macd, row.macdSignal)
    ensures Rules(row) == [StrongBullishTrend, Overbought, BullishMomentum]
  {
    TrendingOverboughtRow(row);
  }

  /** A row whose close is not above its 50-bar mean and whose relative
      strength index is below 30 yields the oversold note and one momentum
      entry. */
  lemma FallingOversoldRow(row: Row)
    requires !Above(Some(row.bar.close), row.sma50)
    requires Above(Some(OversoldLevel), row.rsi)
    ensures |Rules(row)| == 2 && Rules(row)[0] == Oversold
  {}

  /** The last bar's row of a strictly increasing close of at least 200
      bars: the close is above its 50-bar mean, which is above the 200-bar
      mean, and the relative strength index is 100. */
  lemma RisingLastRow(bars: seq<Bar>, sqrt: real -> real)
    requires |bars| >= LongWindow
    requires forall p, q :: 0 <= p < q < |bars| ==> bars[p].close < bars[q].close
    ensures var row := RowAt(bars, |bars| - 1, sqrt);
      && Above(Some(row.bar.close), row.sma50) && Above(row.sma50, row.sma200)
      && row.rsi == Some(100.0)
  {
    var c := Closes(bars);
    var n := |bars| - 1;
    RisingCloseRsi(c, n);
    RisingTrend(c, n, ShortWindow, LongWindow);
    LastRowColumns(bars, sqrt);
  }

  /** The last bar's row of a strictly decreasing close of at least 200
      bars: the close is at or below its 50-bar mean and the relative strength
      index is 0. */
  lemma FallingLastRow(bars: seq<Bar>, sqrt: real -> real)
    requires |bars| >= LongWindow
    requires forall p, q :: 0 <= p < q < |bars| ==> bars[p].close > bars[q].close
    ensures var row := RowAt(bars, |bars| - 1, sqrt);
      !Above(Some(row.bar.close), row.sma50) && row.rsi == Some(0.0)
  {
    var c := Closes(bars);
    var n := |bars| - 1;
    FallingCloseRsi(c, n);
    FallingBelowMean(c, n, ShortWindow);
    LastRowColumns(bars, sqrt);
  }

  /** With at least 200 bars and a strictly increasing close the insights open
      with the trend and the overbought warning. */
  lemma RisingCloseInsights(bars: seq<Bar>, sqrt: real -> real)
    requires |bars| >= LongWindow
    requires forall p, q :: 0 <= p < q < |bars| ==> bars[p].close < bars[q].close
    ensures Analyse(bars, sqrt).Success?
    ensures var out := Analyse(bars, sqrt).value;
      |out| == 3 && out[0] == StrongBullishTrend && out[1] == Overbought
  {
    assert Closes(bars)[0] != Closes(bars)[1];
    AnalyseSucceedsIff(bars, sqrt);
    RisingLastRow(bars, sqrt);
    TrendingOverboughtRow(RowAt(bars, |bars| - 1, sqrt));
  }

  /** With at least 200 bars and a strictly decreasing close the insights are
      the oversold note followed by one momentum entry. */
  lemma FallingCloseInsights(bars: seq<Bar>, sqrt: real -> real)
    requires |bars| >= LongWindow
    requires forall p, q :: 0 <= p < q < |bars| ==> bars[p].close > bars[q].close
    ensures Analyse(bars, sqrt).Success?
    ensures var out := Analyse(bars, sqrt).value;
      |out| == 2 && out[0] == Oversold
  {
    assert Closes(bars)[0] != Closes(bars)[1];
    AnalyseSucceedsIff(bars, sqrt);
    FallingLastRow(bars, sqrt);
    FallingOversoldRow(RowAt(bars, |bars| - 1, sqrt));
  }

  /** The last bar's row of a close of at least 200 bars that rises by the
      same amount `step > 0` every day: trending, overbought, and with the
      MACD line above its signal. */
  lemma SteadyRiseLastRow(bars: seq<Bar>, sqrt: real -> real, step: real)
    requires |bars| >= LongWindow
    requires step > 0.0
    requires forall j :: 1 <= j < |bars| ==> bars[j].close == bars[j - 1].close + step
    ensures var row := RowAt(bars, |bars| - 1, sqrt);
      && Above(Some(row.bar.close), row.sma50) && Above(row.sma50, row.sma200)
      && Above(row.rsi, Some(OverboughtLevel))
      && Above(row.macd, row.macdSignal)
  {
    var c := Closes(bars);
    forall p, q | 0 <= p < q < |bars|
      ensures bars[p].close < bars[q].close
    {
      SteadyRiseIncreasing(c, step, p, q);
    }
    RisingLastRow(bars, sqrt);
    LinearRiseBullish(c, step, |bars| - 1);
    LastRowColumns(bars, sqrt);
  }

  /** With at least 200 bars and a close that rises by the same amount
      `step > 0` every day, the insights are exactly the trend, the
      overbought warning and bullish momentum. */
  lemma SteadyRiseInsights(bars: seq<Bar>, sqrt: real -> real, step: real)
    requires |bars| >= LongWindow
    requires step > 0.0
    requires forall j :: 1 <= j < |bars| ==> bars[j].close == bars[j - 1].close + step
    ensures Analyse(bars, sqrt) == Success([StrongBullishTrend, Overbought, BullishMomentum])
  {
    assert Closes(bars)[0] != Closes(bars)[1];
    AnalyseSucceedsIff(bars, sqrt);
    SteadyRiseLastRow(bars, sqrt, step);
    BullishRow(RowAt(bars, |bars| - 1, sqrt));
  }
}
