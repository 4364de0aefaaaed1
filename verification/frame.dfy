/** The price frame of rivian_analysis.py after the indicator columns have been
    added, and `dropna`, which keeps only the rows on which every column is
    defined.
 */
module Frame {
  import opened Options
  import opened Series
  import opened Rsi
  import opened Macd
  import opened Rolling

  /** One daily aggregate as fetched: open, high, low, close and volume. */
  datatype Bar = Bar(open: real, high: real, low: real, close: real, volume: real)

  /** A row of the frame: the bar and the seven indicator columns, each of
      which may be not-a-number. */
  datatype Row = Row(
    bar: Bar,
    rsi: Option<real>,
    macd: Option<real>,
    macdSignal: Option<real>,
    sma50: Option<real>,
    sma200: Option<real>,
    bbUpper: Option<real>,
    bbLower: Option<real>)

  const ShortWindow: nat := 50
  const LongWindow: nat := 200

  /** No column of the row is not-a-number. */
  predicate Complete(row: Row)
  {
    && row.rsi.Some? && row.macd.Some? && row.macdSignal.Some?
    && row.sma50.Some? && row.sma200.Some?
    && row.bbUpper.Some? && row.bbLower.Some?
  }

  /** The `Close` column. */
  function Closes(bars: seq<Bar>): (c: seq<real>)
    ensures |c| == |bars|
    ensures forall i :: 0 <= i < |bars| ==> c[i] == bars[i].close
  {
    seq(|bars|, i requires 0 <= i < |bars| => bars[i].close)
  }

  /** Row `i` once every indicator column has been assigned; `sqrt` is the
      square root used by the rolling standard deviation. */
  function RowAt(bars: seq<Bar>, i: nat, sqrt: real -> real): Row
    requires i < |bars|
  {
    var c := Closes(bars);
    Row(bars[i],
        RsiAt(c, i),
        Some(MacdAt(c, i)),
        Some(SignalAt(c, i)),
        RollingMean(c, ShortWindow, i),
        RollingMean(c, LongWindow, i),
        BandUpper(c, i, sqrt),
        BandLower(c, i, sqrt))
  }

  /** The frame with its indicator columns: one row per bar, in order, with the
      bar itself unchanged. */
  function Indicators(bars: seq<Bar>, sqrt: real -> real): (rows: seq<Row>)
    ensures |rows| == |bars|
    ensures forall i :: 0 <= i < |bars| ==> rows[i].bar == bars[i]
  {
    seq(|bars|, i requires 0 <= i < |bars| => RowAt(bars, i, sqrt))
  }

  /** `hist.dropna()`: the complete rows, in their original order. */
  function DropNa(rows: seq<Row>): (kept: seq<Row>)
    ensures |kept| <= |rows|
    ensures forall t :: 0 <= t < |kept| ==> Complete(kept[t])
    decreases |rows|
  {
    if |rows| == 0 then []
    else
      var n := |rows| - 1;
      DropNa(rows[..n]) + (if Complete(rows[n]) then [rows[n]] else [])
  }

  /** The positions of the complete rows, in increasing order: an independent
      description of what `dropna` keeps. */
  function KeptIndices(rows: seq<Row>): (ks: seq<nat>)
    ensures forall t :: 0 <= t < |ks| ==> ks[t] < |rows| && Complete(rows[ks[t]])
    ensures forall t, u :: 0 <= t < u < |ks| ==> ks[t] < ks[u]
    ensures forall i :: 0 <= i < |rows| && Complete(rows[i]) ==> i in ks
    decreases |rows|
  {
    if |rows| == 0 then []
    else
      var n := |rows| - 1;
      var front := KeptIndices(rows[..n]);
      assert forall i :: 0 <= i < n ==> rows[..n][i] == rows[i];
      front + (if Complete(rows[n]) then [n] else [])
  }

  /** `dropna` selects exactly the complete rows, keeping their order. */
  lemma {:induction false} DropNaSelects(rows: seq<Row>)
    ensures |DropNa(rows)| == |KeptIndices(rows)|
    ensures forall t :: 0 <= t < |DropNa(rows)| ==> DropNa(rows)[t] == rows[KeptIndices(rows)[t]]
    decreases |rows|
  {
    if |rows| > 0 {
      var n := |rows| - 1;
      DropNaSelects(rows[..n]);
      assert forall i :: 0 <= i < n ==> rows[..n][i] == rows[i];
    }
  }

  /** Strictly increasing positions in `[lo, n)` number at most `n - lo`. */
  lemma {:induction false} IncreasingCount(ks: seq<nat>, lo: nat, n: nat)
    requires forall t :: 0 <= t < |ks| ==> lo <= ks[t] < n
    requires forall t, u :: 0 <= t < u < |ks| ==> ks[t] < ks[u]
    ensures |ks| <= if n >= lo then n - lo else 0
    decreases |ks|
  {
    if |ks| > 0 {
      var last := ks[|ks| - 1];
      IncreasingCount(ks[..|ks| - 1], lo, last);
    }
  }

  /** The close has moved by row `i` if it had moved by an earlier row. */
  lemma MovesLater(close: seq<real>, i: nat, j: nat)
    requires i <= j < |close|
    requires Moves(close, i)
    ensures Moves(close, j)
  {
    var k :| 1 <= k <= i && close[k] != close[k - 1];
    assert 1 <= k <= j;
  }

  /** Row `i` is complete exactly when the 200-bar mean is defined there and the
      close has moved at least once by then: the 200-bar mean is the last
      column to become defined, and the relative strength index is
      not-a-number until the first move. */
  lemma RowComplete(bars: seq<Bar>, i: nat, sqrt: real -> real)
    requires i < |bars|
    ensures Complete(RowAt(bars, i, sqrt)) <==> i >= LongWindow - 1 && Moves(Closes(bars), i)
  {
    var c := Closes(bars);
    RsiDefinedIff(c, i);
    RollingMeanSpec(c, ShortWindow, i);
    RollingMeanSpec(c, LongWindow, i);
    RollingMeanSpec(c, BandWindow, i);
  }

  /** After `dropna` no row from before position 199 survives, so at most
      `N - 199` rows remain. */
  lemma DropNaBound(bars: seq<Bar>, sqrt: real -> real)
    ensures |DropNa(Indicators(bars, sqrt))| <= if |bars| >= LongWindow - 1 then |bars| - (LongWindow - 1) else 0
  {
    var rows := Indicators(bars, sqrt);
    var ks := KeptIndices(rows);
    DropNaSelects(rows);
    forall t | 0 <= t < |ks|
      ensures LongWindow - 1 <= ks[t] < |bars|
    {
      RowComplete(bars, ks[t], sqrt);
    }
    IncreasingCount(ks, LongWindow - 1, |bars|);
  }

  /** `dropna` keeps a complete last row as its own last row. */
  lemma KeepsCompleteLast(rows: seq<Row>)
    requires |rows| > 0 && Complete(rows[|rows| - 1])
    ensures |DropNa(rows)| > 0 && DropNa(rows)[|DropNa(rows)| - 1] == rows[|rows| - 1]
  {}

  /** `dropna` of a frame without a complete row is empty. */
  lemma {:induction false} DropsAllIncomplete(rows: seq<Row>)
    requires forall i :: 0 <= i < |rows| ==> !Complete(rows[i])
    ensures DropNa(rows) == []
    decreases |rows|
  {
    if |rows| > 0 {
      var n := |rows| - 1;
      assert forall i :: 0 <= i < n ==> rows[..n][i] == rows[i];
      DropsAllIncomplete(rows[..n]);
    }
  }

  /** The last row `dropna` keeps from the indicator frame is the last bar's
      row when that row is complete; otherwise no row is complete and the
      frame is empty. */
  lemma LastKeptRow(bars: seq<Bar>, sqrt: real -> real)
    requires |bars| > 0
    ensures var kept := DropNa(Indicators(bars, sqrt));
      if Complete(RowAt(bars, |bars| - 1, sqrt))
      then |kept| > 0 && kept[|kept| - 1] == RowAt(bars, |bars| - 1, sqrt)
      else kept == []
  {
    var rows := Indicators(bars, sqrt);
    var n := |bars| - 1;
    if Complete(rows[n]) {
      KeepsCompleteLast(rows);
    } else {
      RowComplete(bars, n, sqrt);
      forall i | 0 <= i < |rows|
        ensures !Complete(rows[i])
      {
        RowComplete(bars, i, sqrt);
        if Moves(Closes(bars), i) {
          MovesLater(Closes(bars), i, n);
        }
      }
      DropsAllIncomplete(rows);
    }
  }

  /** The columns of the last row once the 200-bar mean is defined there. */
  lemma LastRowColumns(bars: seq<Bar>, sqrt: real -> real)
    requires |bars| >= LongWindow
    ensures var c, n := Closes(bars), |bars| - 1;
      && RowAt(bars, n, sqrt).bar.close == c[n]
      && RowAt(bars, n, sqrt).rsi == RsiAt(c, n)
      && RowAt(bars, n, sqrt).macd == Some(MacdAt(c, n))
      && RowAt(bars, n, sqrt).macdSignal == Some(SignalAt(c, n))
      && RowAt(bars, n, sqrt).sma50 == Some(Mean(Window(c, n, ShortWindow)))
      && RowAt(bars, n, sqrt).sma200 == Some(Mean(Window(c, n, LongWindow)))
  {}
}
