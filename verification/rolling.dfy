/** Trailing-window statistics of rivian_analysis.py: `rolling(k).mean()` for
    the 50-, 200- and 20-bar means, `rolling(20).std()` (the sample standard
    deviation, divisor `k - 1`), and the Bollinger bands two deviations above
    and below the 20-bar mean. A window value is undefined until `k` values
    exist.
 */
module Rolling {
  import opened Options
  import opened Series

  const BandWindow: nat := 20
  const BandWidth: real := 2.0

  /** `rolling(k).mean()` on row `i`. */
  function RollingMean(xs: seq<real>, k: nat, i: nat): (r: Option<real>)
    requires 1 <= k && i < |xs|
  {
    if i < k - 1 then None else Some(Mean(Window(xs, i, k)))
  }

  /** The sample variance: squared deviations from the mean over `n - 1`. */
  function SampleVariance(s: seq<real>): real
    requires |s| >= 2
  {
    SumSqDev(s, Mean(s)) / ((|s| - 1) as real)
  }

  /** `sqrt` is a square root on the non-negative reals. The model takes the
      square root of the platform as a parameter constrained by this. */
  ghost predicate IsSqrt(sqrt: real -> real)
  {
    forall v :: v >= 0.0 ==> sqrt(v) >= 0.0 && sqrt(v) * sqrt(v) == v
  }

  /** `rolling(k).std()` on row `i`. */
  function RollingStd(xs: seq<real>, k: nat, i: nat, sqrt: real -> real): (r: Option<real>)
    requires 2 <= k && i < |xs|
  {
    if i < k - 1 then None else Some(sqrt(SampleVariance(Window(xs, i, k))))
  }

  /** `rolling_mean + rolling_std * 2`; undefined when either part is. */
  function BandUpper(close: seq<real>, i: nat, sqrt: real -> real): (r: Option<real>)
    requires i < |close|
  {
    match (RollingMean(close, BandWindow, i), RollingStd(close, BandWindow, i, sqrt))
    case (Some(m), Some(sd)) => Some(m + sd * BandWidth)
    case _ => None
  }

  /** `rolling_mean - rolling_std * 2`; undefined when either part is. */
  function BandLower(close: seq<real>, i: nat, sqrt: real -> real): (r: Option<real>)
    requires i < |close|
  {
    match (RollingMean(close, BandWindow, i), RollingStd(close, BandWindow, i, sqrt))
    case (Some(m), Some(sd)) => Some(m - sd * BandWidth)
    case _ => None
  }

  /** A trailing mean is undefined exactly on the first `k - 1` rows; after
      that it is the window sum over `k`, and lies between the smallest and the
      largest close of the window. */
  lemma RollingMeanSpec(xs: seq<real>, k: nat, i: nat)
    requires 1 <= k && i < |xs|
    ensures RollingMean(xs, k, i).None? <==> i < k - 1
    ensures i >= k - 1 ==> RollingMean(xs, k, i).value == Sum(xs[i - k + 1..i + 1]) / (k as real)
    ensures i >= k - 1 ==>
      SeqMin(xs[i - k + 1..i + 1]) <= RollingMean(xs, k, i).value <= SeqMax(xs[i - k + 1..i + 1])
  {
    if i >= k - 1 {
      MeanWithinRange(Window(xs, i, k));
    }
  }

  /** The sample variance of a sequence is never negative, and is zero exactly
      when the sequence is constant. */
  lemma SampleVarianceZeroIff(s: seq<real>)
    requires |s| >= 2
    ensures SampleVariance(s) >= 0.0
    ensures SampleVariance(s) == 0.0 <==> Constant(s)
  {
    var n := (|s| - 1) as real;
    var q := SumSqDev(s, Mean(s));
    SumSqDevZero(s, Mean(s));
    ConstantIffAllMean(s);
    assert SampleVariance(s) * n == q;
  }

  /** The bands are undefined on the first 19 rows. From row 19 on both are
      defined and sit the same distance `2 * sd` above and below the 20-bar
      mean, where `sd >= 0` squares to the sample variance of the window. */
  lemma BollingerShape(close: seq<real>, i: nat, sqrt: real -> real)
    requires IsSqrt(sqrt)
    requires i < |close|
    ensures i < BandWindow - 1 ==> BandUpper(close, i, sqrt).None? && BandLower(close, i, sqrt).None?
    ensures i >= BandWindow - 1 ==>
      && BandUpper(close, i, sqrt).Some? && BandLower(close, i, sqrt).Some?
      && RollingMean(close, BandWindow, i).Some? && RollingStd(close, BandWindow, i, sqrt).Some?
      && var m, sd := RollingMean(close, BandWindow, i).value, RollingStd(close, BandWindow, i, sqrt).value;
         && sd >= 0.0
         && sd * sd == SampleVariance(Window(close, i, BandWindow))
         && BandUpper(close, i, sqrt).value - m == 2.0 * sd
         && m - BandLower(close, i, sqrt).value == 2.0 * sd
         && BandLower(close, i, sqrt).value <= m <= BandUpper(close, i, sqrt).value
  {
    if i >= BandWindow - 1 {
      SampleVarianceZeroIff(Window(close, i, BandWindow));
    }
  }

  /** From row 19 on, the two bands meet exactly when the 20 closes of the
      window are all equal. */
  lemma BandsMeetIff(close: seq<real>, i: nat, sqrt: real -> real)
    requires IsSqrt(sqrt)
    requires BandWindow - 1 <= i < |close|
    ensures BandUpper(close, i, sqrt) == BandLower(close, i, sqrt) <==> Constant(Window(close, i, BandWindow))
  {
    var w := Window(close, i, BandWindow);
    var sd := sqrt(SampleVariance(w));
    SampleVarianceZeroIff(w);
    Square(sd, sd * sd);
  }

  /** The running-sum pass of `rolling(k).mean()`: each row adds the newest
      value and, once the window is full, drops the oldest one. */
  method ComputeRollingMean(xs: seq<real>, k: nat) returns (r: seq<Option<real>>)
    requires 1 <= k
    ensures |r| == |xs|
    ensures forall i :: 0 <= i < |xs| ==> r[i] == RollingMean(xs, k, i)
  {
    r := [];
    var acc := 0.0;
    var lo := 0;
    var i := 0;
    while i < |xs|
      invariant i <= |xs|
      invariant |r| == i
      invariant Tracks(xs, k, i, lo, acc)
      invariant forall j :: 0 <= j < i ==> r[j] == RollingMean(xs, k, j)
    {
      var next := Slide(xs, k, i, lo, acc);
      lo, acc := next.0, next.1;
      var v := NextMean(xs, k, i, lo, acc);
      r := r + [v];
      i := i + 1;
    }
  }

  /** The value the running pass emits on row `i`, given the sum `acc` of the
      closes from `lo` up to and including `i`. */
  function NextMean(xs: seq<real>, k: nat, i: nat, lo: nat, acc: real): (v: Option<real>)
    requires i < |xs|
    requires Tracks(xs, k, i + 1, lo, acc)
    ensures v == RollingMean(xs, k, i)
  {
    if i < k - 1 then None else Some(acc / (k as real))
  }

  /** Moves the running window from ending before row `i` to ending at it:
      adds `xs[i]` and, when the window would hold `k + 1` values, drops the
      oldest. */
  function Slide(xs: seq<real>, k: nat, i: nat, lo: nat, acc: real): (r: (nat, real))
    requires i < |xs|
    requires Tracks(xs, k, i, lo, acc)
    ensures Tracks(xs, k, i + 1, r.0, r.1)
  {
    SumExtend(xs, lo, i);
    if i + 1 - lo > k then
      SumShrink(xs, lo, i + 1);
      (lo + 1, acc + xs[i] - xs[lo])
    else
      (lo, acc + xs[i])
  }

  /** `acc` is the sum of the window of at most `k` values ending just before
      `i`, and the window is full unless it starts at the first row. */
  predicate Tracks(xs: seq<real>, k: nat, i: nat, lo: nat, acc: real)
  {
    1 <= k && lo <= i <= |xs| && i - lo <= k && (lo == 0 || i - lo == k) && acc == Sum(xs[lo..i])
  }
}
