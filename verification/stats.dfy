/**
 * The arithmetic behind every figure the dashboards display: `Math.round`,
 * percentages guarded against an empty denominator, means, the one-decimal
 * rounding of `toFixed(1)` and the approval rate with its fixed 7.0 cutoff.
 * All arithmetic is exact (`real`); grade values are integers.
 */
module Stats {
  import opened Seqs

  /** The pass mark used by the reports and grades pages. */
  const ApprovalCutoff: real := 7.0

  /** `Math.round`: the nearest integer, halves rounded upwards. */
  function Round(x: real): (r: int)
    ensures r as real - 0.5 <= x < r as real + 0.5
  {
    (x + 0.5).Floor
  }

  lemma RoundMonotone(x: real, y: real)
    requires x <= y
    ensures Round(x) <= Round(y)
  {
  }

  /** Integers round to themselves. */
  lemma RoundInt(n: int)
    ensures Round(n as real) == n
  {
  }

  lemma {:induction false} DivideBounds(part: real, whole: real)
    requires 0.0 <= part <= whole && whole > 0.0
    ensures 0.0 <= part / whole <= 1.0
  {
    var q := part / whole;
    assert q * whole == part;
  }

  /**
   * `Math.round(part / whole * 100)`, or 0 when `whole` is 0 (the pages test
   * the length before dividing).
   */
  function Percent(part: nat, whole: nat): (r: int)
    ensures whole == 0 ==> r == 0
    ensures whole > 0 ==> r == Round(part as real / whole as real * 100.0)
    ensures part == 0 ==> r == 0
    ensures part <= whole ==> 0 <= r <= 100
    ensures 0 < whole == part ==> r == 100
  {
    if whole == 0 then 0
    else
      var q := part as real / whole as real;
      assert part <= whole ==> 0.0 <= q <= 1.0 by {
        if part <= whole { DivideBounds(part as real, whole as real); }
      }
      assert part == whole ==> q == 1.0;
      Round(q * 100.0)
  }

  /** Adding a member to the numerator and the denominator never lowers a rate. */
  lemma {:induction false} PercentGrowsWithHit(part: nat, whole: nat)
    requires part <= whole
    ensures Percent(part + 1, whole + 1) >= Percent(part, whole)
  {
    if whole > 0 {
      var a := part as real / whole as real;
      var b := (part + 1) as real / (whole + 1) as real;
      assert a * whole as real == part as real;
      assert b * (whole + 1) as real == (part + 1) as real;
      RatioGrows(part as real, whole as real, a, b);
      RoundMonotone(a * 100.0, b * 100.0);
    }
  }

  lemma RatioGrows(k: real, n: real, a: real, b: real)
    requires 0.0 <= k <= n && n > 0.0
    requires a * n == k && b * (n + 1.0) == k + 1.0
    ensures a <= b
  {
    assert a <= 1.0;
    assert (b - a) * (n + 1.0) == 1.0 - a;
  }

  /** Adding a member to the denominator only never raises a rate. */
  lemma {:induction false} PercentShrinksWithMiss(part: nat, whole: nat)
    requires part <= whole
    ensures Percent(part, whole + 1) <= Percent(part, whole)
  {
    if whole > 0 {
      var a := part as real / whole as real;
      var b := part as real / (whole + 1) as real;
      assert a * whole as real == part as real;
      assert b * (whole + 1) as real == part as real;
      RatioShrinks(part as real, whole as real, a, b);
      RoundMonotone(b * 100.0, a * 100.0);
    }
  }

  lemma RatioShrinks(k: real, n: real, a: real, b: real)
    requires 0.0 <= k && n > 0.0
    requires a * n == k && b * (n + 1.0) == k
    ensures b <= a
  {
    assert b >= 0.0;
    assert (a - b) * n == b;
  }

  /** `xs.reduce((sum, x) => sum + x, 0)`. */
  function SumInt(xs: seq<int>): int
  {
    if |xs| == 0 then 0 else SumInt(xs[..|xs| - 1]) + xs[|xs| - 1]
  }

  function SumReal(xs: seq<real>): real
  {
    if |xs| == 0 then 0.0 else SumReal(xs[..|xs| - 1]) + xs[|xs| - 1]
  }

  /** The arithmetic mean of integer grades. */
  function Mean(xs: seq<int>): real
    requires |xs| > 0
  {
    SumInt(xs) as real / |xs| as real
  }

  /** The arithmetic mean of real-valued scores. */
  function MeanReal(xs: seq<real>): real
    requires |xs| > 0
  {
    SumReal(xs) / |xs| as real
  }

  lemma {:induction false} SumIntAtLeast(xs: seq<int>, lo: int)
    requires forall i :: 0 <= i < |xs| ==> lo <= xs[i]
    ensures |xs| * lo <= SumInt(xs)
    decreases |xs|
  {
    if |xs| > 0 {
      var n := |xs| - 1;
      SumIntAtLeast(xs[..n], lo);
      assert (n + 1) * lo == n * lo + lo;
    }
  }

  lemma {:induction false} SumIntAtMost(xs: seq<int>, hi: int)
    requires forall i :: 0 <= i < |xs| ==> xs[i] <= hi
    ensures SumInt(xs) <= |xs| * hi
    decreases |xs|
  {
    if |xs| > 0 {
      var n := |xs| - 1;
      SumIntAtMost(xs[..n], hi);
      assert (n + 1) * hi == n * hi + hi;
    }
  }

  lemma {:induction false} SumRealBounds(xs: seq<real>, lo: real, hi: real)
    requires forall i :: 0 <= i < |xs| ==> lo <= xs[i] <= hi
    ensures |xs| as real * lo <= SumReal(xs) <= |xs| as real * hi
    decreases |xs|
  {
    if |xs| > 0 {
      var n := |xs| - 1;
      SumRealBounds(xs[..n], lo, hi);
      assert (n + 1) as real * lo == n as real * lo + lo;
      assert (n + 1) as real * hi == n as real * hi + hi;
    }
  }

  lemma QuotientBounds(s: real, n: real, lo: real, hi: real)
    requires n > 0.0 && n * lo <= s <= n * hi
    ensures lo <= s / n <= hi
  {
    var q := s / n;
    assert q * n == s;
  }

  /** A mean is at least any lower bound of its values. */
  lemma MeanAtLeast(xs: seq<int>, lo: int)
    requires |xs| > 0
    requires forall i :: 0 <= i < |xs| ==> lo <= xs[i]
    ensures lo as real <= Mean(xs)
  {
    SumIntAtLeast(xs, lo);
    var q := Mean(xs);
    assert q * |xs| as real == SumInt(xs) as real;
  }

  /** A mean is at most any upper bound of its values. */
  lemma MeanAtMost(xs: seq<int>, hi: int)
    requires |xs| > 0
    requires forall i :: 0 <= i < |xs| ==> xs[i] <= hi
    ensures Mean(xs) <= hi as real
  {
    SumIntAtMost(xs, hi);
    var q := Mean(xs);
    assert q * |xs| as real == SumInt(xs) as real;
  }

  lemma MeanRealBounds(xs: seq<real>, lo: real, hi: real)
    requires |xs| > 0
    requires forall i :: 0 <= i < |xs| ==> lo <= xs[i] <= hi
    ensures lo <= MeanReal(xs) <= hi
  {
    SumRealBounds(xs, lo, hi);
    QuotientBounds(SumReal(xs), |xs| as real, lo, hi);
  }

  /** `x` is a whole number of tenths, as every value `toFixed(1)` produces. */
  predicate IsTenths(x: real)
  {
    (10.0 * x).Floor as real == 10.0 * x
  }

  /**
   * `Number.parseFloat(x.toFixed(1))` for a non-negative `x`: the nearest
   * multiple of 0.1, ties upwards.
   */
  function OneDecimal(x: real): (r: real)
    ensures x - 0.05 < r <= x + 0.05
    ensures (10.0 * r).Floor as real == 10.0 * r
  {
    Round(10.0 * x) as real / 10.0
  }

  /** Rounding to one decimal never turns a passing average into a failing one. */
  lemma OneDecimalKeepsPass(x: real)
    requires x >= ApprovalCutoff
    ensures OneDecimal(x) >= ApprovalCutoff
  {
    RoundMonotone(70.0, 10.0 * x);
    RoundInt(70);
  }

  /** Rounding to one decimal stays within integer bounds of the rounded value. */
  lemma OneDecimalWithin(x: real, lo: int, hi: int)
    requires lo as real <= x <= hi as real
    ensures lo as real <= OneDecimal(x) <= hi as real
  {
    RoundMonotone((10 * lo) as real, 10.0 * x);
    RoundMonotone(10.0 * x, (10 * hi) as real);
    RoundInt(10 * lo);
    RoundInt(10 * hi);
  }

  /** A rounded average of at least 7.0 comes from an exact average of at least 6.95. */
  lemma OneDecimalPassMeansNearPass(x: real)
    requires OneDecimal(x) >= ApprovalCutoff
    ensures x >= 6.95
  {
  }

  /** Rounding an already rounded value to one decimal changes nothing. */
  lemma OneDecimalIdempotent(x: real)
    ensures OneDecimal(OneDecimal(x)) == OneDecimal(x)
  {
    var k := Round(10.0 * x);
    assert 10.0 * OneDecimal(x) == k as real;
    RoundInt(k);
  }

  function IsPassing(avg: real): bool
  {
    avg >= ApprovalCutoff
  }

  /**
   * The approval rate of a list of per-student averages: the rounded
   * percentage of averages at or above the cutoff, 0 for an empty list.
   */
  function ApprovalRateOf(avgs: seq<real>): (r: int)
    ensures 0 <= r <= 100
    ensures |avgs| == 0 ==> r == 0
    ensures |avgs| > 0 ==> r == Round(Count(IsPassing, avgs) as real / |avgs| as real * 100.0)
    ensures (forall i :: 0 <= i < |avgs| ==> avgs[i] >= ApprovalCutoff) && |avgs| > 0 ==> r == 100
    ensures (forall i :: 0 <= i < |avgs| ==> avgs[i] < ApprovalCutoff) ==> r == 0
  {
    var passing := Count(IsPassing, avgs);
    assert (forall i :: 0 <= i < |avgs| ==> avgs[i] >= ApprovalCutoff) ==> passing == |avgs| by {
      if forall i :: 0 <= i < |avgs| ==> avgs[i] >= ApprovalCutoff {
        FilterAll(IsPassing, avgs);
      }
    }
    assert (forall i :: 0 <= i < |avgs| ==> avgs[i] < ApprovalCutoff) ==> passing == 0 by {
      if forall i :: 0 <= i < |avgs| ==> avgs[i] < ApprovalCutoff {
        FilterNone(IsPassing, avgs);
      }
    }
    Percent(passing, |avgs|)
  }

  /**
   * Monotonicity of the approval rate: one more passing student never lowers
   * it and one more failing student never raises it.
   */
  lemma ApprovalRateMonotone(avgs: seq<real>, a: real)
    ensures a >= ApprovalCutoff ==> ApprovalRateOf(avgs + [a]) >= ApprovalRateOf(avgs)
    ensures a < ApprovalCutoff ==> ApprovalRateOf(avgs + [a]) <= ApprovalRateOf(avgs)
  {
    CountSnoc(IsPassing, avgs, a);
    var k := Count(IsPassing, avgs);
    if a >= ApprovalCutoff {
      PercentGrowsWithHit(k, |avgs|);
    } else {
      PercentShrinksWithMiss(k, |avgs|);
    }
  }
}
