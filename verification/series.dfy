/** Sums, extremes and trailing windows over finite sequences of reals.

    These are the building blocks of the rolling means and of the range
    statements made about the exponential averages.
 */
module Series {

  /** The sum of all elements. */
  function Sum(s: seq<real>): real
  {
    if |s| == 0 then 0.0 else s[0] + Sum(s[1..])
  }

  /** The sum of squared deviations of the elements from `m`. */
  function SumSqDev(s: seq<real>, m: real): real
  {
    if |s| == 0 then 0.0 else (s[0] - m) * (s[0] - m) + SumSqDev(s[1..], m)
  }

  /** The smallest element of a non-empty sequence. */
  function SeqMin(s: seq<real>): (m: real)
    requires |s| > 0
    ensures forall j :: 0 <= j < |s| ==> m <= s[j]
    ensures exists j :: 0 <= j < |s| && s[j] == m
  {
    if |s| == 1 then s[0]
    else
      var rest := SeqMin(s[1..]);
      assert forall j :: 1 <= j < |s| ==> s[j] == s[1..][j - 1];
      if s[0] <= rest then s[0] else rest
  }

  /** The largest element of a non-empty sequence. */
  function SeqMax(s: seq<real>): (m: real)
    requires |s| > 0
    ensures forall j :: 0 <= j < |s| ==> s[j] <= m
    ensures exists j :: 0 <= j < |s| && s[j] == m
  {
    if |s| == 1 then s[0]
    else
      var rest := SeqMax(s[1..]);
      assert forall j :: 1 <= j < |s| ==> s[j] == s[1..][j - 1];
      if rest <= s[0] then s[0] else rest
  }

  /** All elements are equal. */
  predicate Constant(s: seq<real>)
  {
    forall j :: 0 <= j < |s| ==> s[j] == s[0]
  }

  /** The `k` elements of `xs` ending at (and including) position `i`. */
  function Window(xs: seq<real>, i: int, k: nat): (w: seq<real>)
    requires 1 <= k && k - 1 <= i < |xs|
    ensures |w| == k
    ensures forall j :: 0 <= j < k ==> w[j] == xs[i - k + 1 + j]
  {
    xs[i - k + 1 .. i + 1]
  }

  /** The arithmetic mean of a non-empty sequence. */
  function Mean(s: seq<real>): real
    requires |s| > 0
  {
    Sum(s) / (|s| as real)
  }

  lemma {:induction false} SumConcat(a: seq<real>, b: seq<real>)
    ensures Sum(a + b) == Sum(a) + Sum(b)
    decreases |a|
  {
    if |a| == 0 {
      assert a + b == b;
    } else {
      assert (a + b)[1..] == a[1..] + b;
      SumConcat(a[1..], b);
    }
  }

  /** Adding the next element to the right end of a slice adds it to the sum. */
  lemma SumExtend(xs: seq<real>, lo: int, hi: int)
    requires 0 <= lo <= hi < |xs|
    ensures Sum(xs[lo..hi + 1]) == Sum(xs[lo..hi]) + xs[hi]
  {
    assert xs[lo..hi + 1] == xs[lo..hi] + [xs[hi]];
    SumConcat(xs[lo..hi], [xs[hi]]);
  }

  /** Dropping the leftmost element of a non-empty slice subtracts it from the sum. */
  lemma SumShrink(xs: seq<real>, lo: int, hi: int)
    requires 0 <= lo < hi <= |xs|
    ensures Sum(xs[lo + 1..hi]) == Sum(xs[lo..hi]) - xs[lo]
  {
    assert xs[lo..hi][1..] == xs[lo + 1..hi];
  }

  /** Elementwise bounds bound the sum. */
  lemma {:induction false} SumBounds(s: seq<real>, lo: real, hi: real)
    requires forall j :: 0 <= j < |s| ==> lo <= s[j] <= hi
    ensures (|s| as real) * lo <= Sum(s) <= (|s| as real) * hi
    decreases |s|
  {
    if |s| > 0 {
      assert forall j :: 0 <= j < |s| - 1 ==> s[1..][j] == s[j + 1];
      SumBounds(s[1..], lo, hi);
      var m := |s[1..]| as real;
      assert (|s| as real) * lo == m * lo + lo;
      assert (|s| as real) * hi == m * hi + hi;
    }
  }

  /** A strict elementwise upper bound is a strict bound on the sum of a non-empty sequence. */
  lemma {:induction false} SumStrictlyBelow(s: seq<real>, c: real)
    requires |s| > 0
    requires forall j :: 0 <= j < |s| ==> s[j] < c
    ensures Sum(s) < (|s| as real) * c
    decreases |s|
  {
    if |s| > 1 {
      assert forall j :: 0 <= j < |s| - 1 ==> s[1..][j] == s[j + 1];
      SumStrictlyBelow(s[1..], c);
    }
  }

  /** The sum of a constant sequence. */
  lemma SumConstant(s: seq<real>, c: real)
    requires forall j :: 0 <= j < |s| ==> s[j] == c
    ensures Sum(s) == (|s| as real) * c
  {
    SumBounds(s, c, c);
  }

  /** Elementwise bounds bound the mean. */
  lemma MeanBounds(s: seq<real>, lo: real, hi: real)
    requires |s| > 0
    requires forall j :: 0 <= j < |s| ==> lo <= s[j] <= hi
    ensures lo <= Mean(s) <= hi
  {
    SumBounds(s, lo, hi);
    QuotientBounds(Sum(s), |s| as real, lo, hi);
  }

  /** The mean lies between the smallest and the largest element. */
  lemma MeanWithinRange(s: seq<real>)
    requires |s| > 0
    ensures SeqMin(s) <= Mean(s) <= SeqMax(s)
  {
    MeanBounds(s, SeqMin(s), SeqMax(s));
  }

  /** Dividing bounds `n * lo <= x <= n * hi` by a positive `n`. */
  lemma QuotientBounds(x: real, n: real, lo: real, hi: real)
    requires n > 0.0
    requires n * lo <= x <= n * hi
    ensures lo <= x / n <= hi
  {
    assert (x / n) * n == x;
  }

  lemma ProductPositive(p: real, q: real)
    requires p > 0.0 && q > 0.0
    ensures p * q > 0.0
  {}

  lemma ProductNonnegative(p: real, q: real)
    requires p >= 0.0 && q >= 0.0
    ensures p * q >= 0.0
  {}

  /* The product is passed as its own parameter `q`: stated directly on
     `a * b`, the solver rewrites the strict inequality away before it can
     be used. */
  lemma PositiveProduct(a: real, b: real, q: real)
    requires a > 0.0 && b > 0.0
    requires q == a * b
    ensures q > 0.0
  {
    var p := a * b;
    ProductPositive(a, b);
    assert p > 0.0;
    assert q == p;
  }

  lemma NonnegativeSquare(a: real, q: real)
    requires a >= 0.0
    requires q == a * a
    ensures q >= 0.0
    ensures q == 0.0 <==> a == 0.0
  {
    if a > 0.0 {
      PositiveProduct(a, a, q);
    }
  }

  /** A square `q` of `d` is non-negative, and zero exactly when `d` is. */
  lemma Square(d: real, q: real)
    requires q == d * d
    ensures q >= 0.0
    ensures q == 0.0 <==> d == 0.0
  {
    if d >= 0.0 {
      NonnegativeSquare(d, q);
    } else {
      NonnegativeSquare(-d, q);
    }
  }

  /** A squared deviation sum is never negative, and is zero exactly when every element equals `m`. */
  lemma {:induction false} SumSqDevZero(s: seq<real>, m: real)
    ensures SumSqDev(s, m) >= 0.0
    ensures SumSqDev(s, m) == 0.0 <==> forall j :: 0 <= j < |s| ==> s[j] == m
    decreases |s|
  {
    if |s| > 0 {
      SumSqDevZero(s[1..], m);
      Square(s[0] - m, (s[0] - m) * (s[0] - m));
      assert forall j :: 1 <= j < |s| ==> s[j] == s[1..][j - 1];
    }
  }

  /** A sequence is constant exactly when every element equals its mean. */
  lemma ConstantIffAllMean(s: seq<real>)
    requires |s| > 0
    ensures Constant(s) <==> forall j :: 0 <= j < |s| ==> s[j] == Mean(s)
  {
    if Constant(s) {
      SumConstant(s, s[0]);
      assert Mean(s) == s[0];
    }
  }

  /** Dividing a strict bound `x < n * c` by a positive `n`. */
  lemma QuotientBelow(x: real, n: real, c: real)
    requires n > 0.0
    requires x < n * c
    ensures x / n < c
  {
    assert (x / n) * n == x;
  }

  /** A last element above all the others is above the mean. */
  lemma MeanBelowLast(s: seq<real>)
    requires |s| >= 2
    requires forall j :: 0 <= j < |s| - 1 ==> s[j] < s[|s| - 1]
    ensures Mean(s) < s[|s| - 1]
  {
    var n := |s| - 1;
    assert s == s[..n] + [s[n]];
    SumConcat(s[..n], [s[n]]);
    SumStrictlyBelow(s[..n], s[n]);
    QuotientBelow(Sum(s), |s| as real, s[n]);
  }

  /** Prepending elements that all lie below the mean of `b` pulls the mean down. */
  lemma MeanOfLowerFront(a: seq<real>, b: seq<real>)
    requires |a| > 0 && |b| > 0
    requires forall j :: 0 <= j < |a| ==> a[j] < Mean(b)
    ensures Mean(a + b) < Mean(b)
  {
    var m := Mean(b);
    assert m * (|b| as real) == Sum(b);
    SumConcat(a, b);
    SumStrictlyBelow(a, m);
    QuotientBelow(Sum(a + b), (|a + b|) as real, m);
  }

  /** A sequence that rises by the same positive `step` at every position is
      strictly increasing. */
  lemma {:induction false} SteadyRiseIncreasing(s: seq<real>, step: real, p: nat, q: nat)
    requires step > 0.0
    requires forall j :: 1 <= j < |s| ==> s[j] == s[j - 1] + step
    requires p < q < |s|
    ensures s[p] < s[q]
  {
    if p < q - 1 {
      SteadyRiseIncreasing(s, step, p, q - 1);
    }
  }

  /* Rising and falling are stated over all pairs `p < q` here and in the
     end-to-end lemmas built on them: with the adjacent-pair form the solver
     keeps instantiating one neighbour after another once the means are
     unfolded. The day-by-day lemmas (the RSI and the averages) keep the
     adjacent-pair form because each step of their induction looks at one
     day. */
  /** On a strictly increasing sequence, the last element is above the
      mean of the trailing `short` window, and that mean is above the mean of
      the longer trailing `long` window. */
  lemma RisingTrend(s: seq<real>, i: nat, short: nat, long: nat)
    requires forall p, q :: 0 <= p < q < |s| ==> s[p] < s[q]
    requires 2 <= short < long && long - 1 <= i < |s|
    ensures s[i] > Mean(Window(s, i, short))
    ensures Mean(Window(s, i, short)) > Mean(Window(s, i, long))
  {
    var near := Window(s, i, short);
    MeanBelowLast(near);
    var front := s[i - long + 1..i - short + 1];
    assert Window(s, i, long) == front + near;
    MeanBounds(near, near[0], SeqMax(near));
    assert forall j :: 0 <= j < |front| ==> front[j] < near[0];
    MeanOfLowerFront(front, near);
  }

  /** On a strictly decreasing sequence, the last element is at or below
      the mean of any trailing window. */
  lemma FallingBelowMean(s: seq<real>, i: nat, k: nat)
    requires forall p, q :: 0 <= p < q < |s| ==> s[p] > s[q]
    requires 1 <= k && k - 1 <= i < |s|
    ensures s[i] <= Mean(Window(s, i, k))
  {
    var w := Window(s, i, k);
    MeanBounds(w, s[i], SeqMax(w));
  }
}
