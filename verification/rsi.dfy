/** The 14-period relative strength index of rivian_analysis.py: the day-to-day
    change of the close is split into a gain and a loss column, each is
    smoothed with `ewm(com=13, adjust=False)`, and the two averages are
    combined into `100 - 100 / (1 + up / down)`.
 */
module Rsi {
  import opened Options
  import opened Series
  import opened Ewm

  /** `close.diff()`: the change from the previous row, undefined on the first. */
  function Delta(close: seq<real>, i: nat): Option<real>
    requires i < |close|
  {
    if i == 0 then None else Some(close[i] - close[i - 1])
  }

  /** `clip(lower=lo)`. */
  function ClipLower(x: real, lo: real): real
  {
    if x < lo then lo else x
  }

  /** `clip(upper=hi)`. */
  function ClipUpper(x: real, hi: real): real
  {
    if x > hi then hi else x
  }

  /** `delta.clip(lower=0)`: the gain of the day; undefined stays undefined. */
  function Up(close: seq<real>, i: nat): Option<real>
    requires i < |close|
  {
    match Delta(close, i)
    case None => None
    case Some(d) => Some(ClipLower(d, 0.0))
  }

  /** `-delta.clip(upper=0)`: the loss of the day as a non-negative amount. */
  function Down(close: seq<real>, i: nat): Option<real>
    requires i < |close|
  {
    match Delta(close, i)
    case None => None
    case Some(d) => Some(-ClipUpper(d, 0.0))
  }

  /** The number of defined entries of the up and down columns. */
  function Changes(close: seq<real>): nat
  {
    if |close| == 0 then 0 else |close| - 1
  }

  /** The defined part `up[1..]` of the up column; pandas seeds the average at
      its first defined entry, so this is what the smoothing sees. */
  function Gains(close: seq<real>): (g: seq<real>)
    ensures |g| == Changes(close)
  {
    seq(Changes(close), j requires 0 <= j < Changes(close) => Up(close, j + 1).value)
  }

  /** The defined part `down[1..]` of the down column. */
  function Losses(close: seq<real>): (l: seq<real>)
    ensures |l| == Changes(close)
  {
    seq(Changes(close), j requires 0 <= j < Changes(close) => Down(close, j + 1).value)
  }

  /** `up.ewm(com=13, adjust=False).mean()`, undefined on the first row. */
  function EmaUp(close: seq<real>, i: nat): Option<real>
    requires i < |close|
  {
    if i == 0 then None else Some(EwmAt(RsiAlpha, Gains(close), i - 1))
  }

  /** `down.ewm(com=13, adjust=False).mean()`, undefined on the first row. */
  function EmaDown(close: seq<real>, i: nat): Option<real>
    requires i < |close|
  {
    if i == 0 then None else Some(EwmAt(RsiAlpha, Losses(close), i - 1))
  }

  /** `100 - 100 / (1 + up / down)` evaluated in floating point, for the
      non-negative averages the smoothing produces.  A zero `down` makes
      `up / down` infinite, which saturates the index at 100; when `up` is zero
      too, `0 / 0` is not a number and the index is undefined. */
  function RsiValue(up: real, down: real): (r: Option<real>)
    requires up >= 0.0 && down >= 0.0
    ensures down > 0.0 ==> r.Some? && 0.0 <= r.value < 100.0
    ensures down > 0.0 ==> r.Some? && r.value * (up + down) == 100.0 * up
    ensures down == 0.0 && up > 0.0 ==> r == Some(100.0)
    ensures down == 0.0 && up == 0.0 ==> r == None
  {
    if down == 0.0 then
      if up == 0.0 then None else Some(100.0)
    else
      var rs := up / down;
      assert rs >= 0.0;
      assert rs * down == up;
      var v := 100.0 - 100.0 / (1.0 + rs);
      assert 100.0 / (1.0 + rs) * (1.0 + rs) == 100.0;
      assert 100.0 / (1.0 + rs) > 0.0;
      assert v * (1.0 + rs) == 100.0 * rs;
      Some(v)
  }

  /** Both smoothed averages are non-negative on every row but the first. */
  lemma SmoothedNonnegative(close: seq<real>, i: nat)
    requires 1 <= i < |close|
    ensures EmaUp(close, i).Some? && EmaUp(close, i).value >= 0.0
    ensures EmaDown(close, i).Some? && EmaDown(close, i).value >= 0.0
  {
    SmoothingConstants();
    EwmZeroIff(RsiAlpha, Gains(close), i - 1);
    EwmZeroIff(RsiAlpha, Losses(close), i - 1);
  }

  /** `RSI_14` at row `i`. */
  function RsiAt(close: seq<real>, i: nat): Option<real>
    requires i < |close|
  {
    if i == 0 then None
    else
      SmoothedNonnegative(close, i);
      RsiValue(EmaUp(close, i).value, EmaDown(close, i).value)
  }

  /** Some row among `1..i` closes differently from the row before it. */
  predicate Moves(close: seq<real>, i: nat)
    requires i < |close|
  {
    exists j :: 1 <= j <= i && close[j] != close[j - 1]
  }

  /** The split of the change into gain and loss: both undefined on the first
      row; afterwards both non-negative, at most one of them non-zero, and the
      gain minus the loss is the change. */
  lemma UpDownSplit(close: seq<real>, i: nat)
    requires i < |close|
    ensures i == 0 ==> Delta(close, i) == None && Up(close, i) == None && Down(close, i) == None
    ensures i >= 1 ==> Up(close, i).Some? && Down(close, i).Some?
    ensures i >= 1 ==> Up(close, i).value >= 0.0 && Down(close, i).value >= 0.0
    ensures i >= 1 ==> Up(close, i).value - Down(close, i).value == close[i] - close[i - 1]
    ensures i >= 1 ==> Up(close, i).value == 0.0 || Down(close, i).value == 0.0
  {}

  /** A gain and a loss are both zero exactly when the close did not change. */
  lemma FlatDay(close: seq<real>, j: nat)
    requires j < Changes(close)
    ensures Gains(close)[j] >= 0.0 && Losses(close)[j] >= 0.0
    ensures Gains(close)[j] == 0.0 && Losses(close)[j] == 0.0 <==> close[j + 1] == close[j]
  {
    UpDownSplit(close, j + 1);
  }

  /** The index is defined exactly from the first row on which the close has
      moved at least once; before that both averages are zero and `0 / 0` is
      not a number. */
  lemma RsiDefinedIff(close: seq<real>, i: nat)
    requires i < |close|
    ensures RsiAt(close, i).Some? <==> i >= 1 && Moves(close, i)
  {
    if i >= 1 {
      var n := i - 1;
      var g, l := Gains(close), Losses(close);
      SmoothingConstants();
      forall j | 0 <= j <= n
        ensures g[j] >= 0.0 && l[j] >= 0.0
        ensures g[j] == 0.0 && l[j] == 0.0 <==> close[j + 1] == close[j]
      {
        FlatDay(close, j);
      }
      EwmZeroIff(RsiAlpha, g, n);
      EwmZeroIff(RsiAlpha, l, n);
      if Moves(close, i) {
        var k :| 1 <= k <= i && close[k] != close[k - 1];
        assert g[k - 1] != 0.0 || l[k - 1] != 0.0;
      }
    }
  }

  /** On a flat close the index is undefined on every row. */
  lemma ConstantCloseRsiUndefined(close: seq<real>, i: nat)
    requires i < |close|
    requires Constant(close)
    ensures RsiAt(close, i) == None
  {
    RsiDefinedIff(close, i);
  }

  /** When the close rises every day the loss average stays zero while the gain
      average is positive, so the index saturates at 100 from the second row on. */
  lemma RisingCloseRsi(close: seq<real>, i: nat)
    requires forall j :: 1 <= j < |close| ==> close[j] > close[j - 1]
    requires 1 <= i < |close|
    ensures RsiAt(close, i) == Some(100.0)
  {
    var n := i - 1;
    var g, l := Gains(close), Losses(close);
    SmoothingConstants();
    forall j | 0 <= j <= n
      ensures g[j] > 0.0 && l[j] == 0.0
    {
      UpDownSplit(close, j + 1);
    }
    EwmOfConstant(RsiAlpha, l, n, 0.0);
    EwmZeroIff(RsiAlpha, g, n);
  }

  /** When the close falls every day the gain average stays zero while the loss
      average is positive, so the index is 0 from the second row on. */
  lemma FallingCloseRsi(close: seq<real>, i: nat)
    requires forall j :: 1 <= j < |close| ==> close[j] < close[j - 1]
    requires 1 <= i < |close|
    ensures RsiAt(close, i) == Some(0.0)
  {
    var n := i - 1;
    var g, l := Gains(close), Losses(close);
    SmoothingConstants();
    forall j | 0 <= j <= n
      ensures g[j] == 0.0 && l[j] > 0.0
    {
      UpDownSplit(close, j + 1);
    }
    EwmOfConstant(RsiAlpha, g, n, 0.0);
    EwmZeroIff(RsiAlpha, l, n);
  }
}
