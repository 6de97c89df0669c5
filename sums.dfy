/** Sums, means and the variance term over sequences of reals: the values that
    `std::accumulate` and `std::inner_product` compute in place_detector.h. */
module Sums {

  function Abs(x: real): (a: real)
    ensures a >= 0.0 && (a == x || a == -x)
  {
    if x < 0.0 then -x else x
  }

  function Min(a: real, b: real): (m: real)
    ensures m <= a && m <= b && (m == a || m == b)
  {
    if a <= b then a else b
  }

  /** Left-to-right sum, as `accumulate(begin, end, 0.0)` folds it. */
  function Sum(s: seq<real>): real
  {
    if |s| == 0 then 0.0 else Sum(s[..|s| - 1]) + s[|s| - 1]
  }

  /** Sum of squares, as `inner_product(s, s, 0.0)` folds it. */
  function SumSq(s: seq<real>): real
  {
    if |s| == 0 then 0.0 else SumSq(s[..|s| - 1]) + s[|s| - 1] * s[|s| - 1]
  }

  /** Sum of `c * s[i]`: what an accumulator that adds a scaled term computes. */
  function ScaledSum(s: seq<real>, c: real): real
  {
    if |s| == 0 then 0.0 else ScaledSum(s[..|s| - 1], c) + c * s[|s| - 1]
  }

  /** Sum of squared deviations from `c`; only used to prove the variance term non-negative. */
  ghost function DevSq(s: seq<real>, c: real): real
  {
    if |s| == 0 then 0.0 else DevSq(s[..|s| - 1], c) + (s[|s| - 1] - c) * (s[|s| - 1] - c)
  }

  function Mean(s: seq<real>): real
    requires |s| > 0
  {
    Sum(s) / (|s| as real)
  }

  /** The value under the square root in the source: `sqSum / n - mean * mean`. */
  function Radicand(s: seq<real>): real
    requires |s| > 0
  {
    SumSq(s) / (|s| as real) - Mean(s) * Mean(s)
  }

  function Shift(s: seq<real>, d: real): (t: seq<real>)
    ensures |t| == |s|
  {
    seq(|s|, k requires 0 <= k < |s| => s[k] + d)
  }

  /** Extending a prefix by one entry adds that entry. */
  lemma SumStep(s: seq<real>, i: nat)
    requires i < |s|
    ensures Sum(s[..i + 1]) == Sum(s[..i]) + s[i]
  {
    assert s[..i + 1][..i] == s[..i];
  }

  lemma ScaledSumStep(s: seq<real>, i: nat, c: real)
    requires i < |s|
    ensures ScaledSum(s[..i + 1], c) == ScaledSum(s[..i], c) + c * s[i]
  {
    assert s[..i + 1][..i] == s[..i];
  }

  lemma {:induction false} ScaledSumFactor(s: seq<real>, c: real)
    ensures ScaledSum(s, c) == c * Sum(s)
  {
    if |s| > 0 {
      ScaledSumFactor(s[..|s| - 1], c);
    }
  }

  /** Scaling every term by the count n and dividing by n * n gives the mean. */
  lemma ScaledSumIsMean(s: seq<real>, n: real)
    requires |s| > 0 && n == |s| as real
    ensures ScaledSum(s, n) / (n * n) == Mean(s)
  {
    ScaledSumFactor(s, n);
    assert (n * Sum(s)) / (n * n) == Sum(s) / n;
  }

  lemma {:induction false} SumShift(s: seq<real>, d: real)
    ensures Sum(Shift(s, d)) == Sum(s) + (|s| as real) * d
  {
    if |s| > 0 {
      assert Shift(s, d)[..|s| - 1] == Shift(s[..|s| - 1], d);
      SumShift(s[..|s| - 1], d);
    }
  }

  lemma MeanShift(s: seq<real>, d: real)
    requires |s| > 0
    ensures Mean(Shift(s, d)) == Mean(s) + d
  {
    SumShift(s, d);
    var n := |s| as real;
    assert (Sum(s) + n * d) / n == Sum(s) / n + d;
  }

  lemma {:induction false} SumConstant(s: seq<real>, v: real)
    requires forall k :: 0 <= k < |s| ==> s[k] == v
    ensures Sum(s) == (|s| as real) * v
  {
    if |s| > 0 {
      SumConstant(s[..|s| - 1], v);
    }
  }

  lemma MeanConstant(s: seq<real>, v: real)
    requires |s| > 0
    requires forall k :: 0 <= k < |s| ==> s[k] == v
    ensures Mean(s) == v
  {
    SumConstant(s, v);
  }

  lemma {:induction false} SumNonNegative(s: seq<real>)
    requires forall k :: 0 <= k < |s| ==> s[k] >= 0.0
    ensures Sum(s) >= 0.0
  {
    if |s| > 0 {
      SumNonNegative(s[..|s| - 1]);
    }
  }

  lemma MeanNonNegative(s: seq<real>)
    requires |s| > 0
    requires forall k :: 0 <= k < |s| ==> s[k] >= 0.0
    ensures Mean(s) >= 0.0
  {
    SumNonNegative(s);
  }

  /** A sum whose every term after the first is zero is its first term. */
  lemma {:induction false} SumZeroTail(s: seq<real>)
    requires |s| > 0
    requires forall k :: 1 <= k < |s| ==> s[k] == 0.0
    ensures Sum(s) == s[0]
  {
    if |s| > 1 {
      SumZeroTail(s[..|s| - 1]);
    }
  }

  lemma {:induction false} DevSqExpand(s: seq<real>, c: real)
    ensures DevSq(s, c) == SumSq(s) - 2.0 * c * Sum(s) + (|s| as real) * c * c
  {
    if |s| > 0 {
      DevSqExpand(s[..|s| - 1], c);
    }
  }

  lemma {:induction false} DevSqNonNegative(s: seq<real>, c: real)
    ensures DevSq(s, c) >= 0.0
  {
    if |s| > 0 {
      DevSqNonNegative(s[..|s| - 1], c);
      SquareNonNegative(s[|s| - 1] - c);
    }
  }

  lemma SquareNonNegative(d: real)
    ensures d * d >= 0.0
  {
    if d < 0.0 {
      assert d * d == (-d) * (-d);
    }
  }

  /** The algebra behind the variance bound, on plain reals. */
  lemma VarianceAlgebra(q: real, total: real, n: real)
    requires n > 0.0
    requires q - 2.0 * (total / n) * total + n * (total / n) * (total / n) >= 0.0
    ensures q / n - (total / n) * (total / n) >= 0.0
  {
    var m := total / n;
    assert total == n * m;
    assert q - n * m * m >= 0.0;
    assert q / n - m * m == (q - n * m * m) / n;
  }

  /** In exact arithmetic the population variance `sqSum / n - mean * mean` is never negative. */
  lemma RadicandNonNegative(s: seq<real>)
    requires |s| > 0
    ensures Radicand(s) >= 0.0
  {
    DevSqExpand(s, Mean(s));
    DevSqNonNegative(s, Mean(s));
    VarianceAlgebra(SumSq(s), Sum(s), |s| as real);
  }
}
