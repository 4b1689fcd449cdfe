/** The Statistics Engine of `compute_stats_json`: sum, mean, population
    variance, median, minimum and maximum of a non-empty numeric column,
    in exact real arithmetic. */
module Statistics {
  import opened Sorting

  /** `reduce((a, b) => a + b, 0)`. */
  function Sum(s: seq<real>): real
  {
    if s == [] then 0.0 else Sum(s[..|s| - 1]) + s[|s| - 1]
  }

  /** `reduce((a, b) => a + (b - m) ** 2, 0)`. */
  function SquaredDeviations(s: seq<real>, m: real): real
  {
    if s == [] then 0.0 else SquaredDeviations(s[..|s| - 1], m) + (s[|s| - 1] - m) * (s[|s| - 1] - m)
  }

  function Mean(s: seq<real>): (r: real)
    requires |s| > 0
    // the value that, counted once per value, gives the sum
    ensures r * |s| as real == Sum(s)
  {
    Sum(s) / |s| as real
  }

  /** The population variance: divided by the count, not the count less one. */
  function Variance(s: seq<real>): (r: real)
    requires |s| > 0
    // the squared deviations from the mean, divided by the count
    ensures r * |s| as real == SquaredDeviations(s, Mean(s))
    ensures r >= 0.0
  {
    SquaredDeviationsNonNegative(s, Mean(s));
    SquaredDeviations(s, Mean(s)) / |s| as real
  }

  /** `Math.min(...s)`. */
  function Min(s: seq<real>): (r: real)
    requires |s| > 0
    ensures r in s && forall i :: 0 <= i < |s| ==> r <= s[i]
  {
    if |s| == 1 then s[0]
    else
      var m := Min(s[1..]);
      assert forall i :: 1 <= i < |s| ==> s[1..][i - 1] == s[i];
      if s[0] <= m then s[0] else m
  }

  /** `Math.max(...s)`. */
  function Max(s: seq<real>): (r: real)
    requires |s| > 0
    ensures r in s && forall i :: 0 <= i < |s| ==> s[i] <= r
  {
    if |s| == 1 then s[0]
    else
      var m := Max(s[1..]);
      assert forall i :: 1 <= i < |s| ==> s[1..][i - 1] == s[i];
      if s[0] >= m then s[0] else m
  }

  function Identity(x: real): real { x }

  /** `[...vals].sort((a, b) => a - b)`. */
  function Ascending(s: seq<real>): (r: seq<real>)
    ensures SortedBy(r, Identity) && multiset(r) == multiset(s) && |r| == |s|
  {
    SortBy(s, Identity)
  }

  /** `median(sorted)`: 0 for no values, the middle value for an odd count,
      the average of the two middle values for an even count. */
  function Median(sorted: seq<real>): (r: real)
    ensures sorted == [] ==> r == 0.0
    // the average of the two positions equally far from either end: the
    // same position for an odd count, the two middle ones for an even count
    ensures sorted != [] ==> exists i :: (0 <= i < |sorted| && i <= |sorted| - 1 - i <= i + 1
      && r == (sorted[i] + sorted[|sorted| - 1 - i]) / 2.0)
  {
    var n := |sorted|;
    if sorted == [] then 0.0
    else if n % 2 == 0 then
      assert n - 1 - (n / 2 - 1) == n / 2;
      (sorted[n / 2 - 1] + sorted[n / 2]) / 2.0
    else
      assert n - 1 - n / 2 == n / 2;
      assert sorted[n / 2] == (sorted[n / 2] + sorted[n - 1 - n / 2]) / 2.0;
      sorted[n / 2]
  }

  /** On sorted data the median lies between the first and last values. */
  lemma MedianBetween(sorted: seq<real>)
    requires |sorted| > 0 && SortedBy(sorted, Identity)
    ensures sorted[0] <= Median(sorted) <= sorted[|sorted| - 1]
  {
    var n := |sorted|;
    if n % 2 == 0 {
      assert Identity(sorted[0]) <= Identity(sorted[n / 2 - 1]) <= Identity(sorted[n / 2]) <= Identity(sorted[n - 1]);
    } else {
      assert Identity(sorted[0]) <= Identity(sorted[n / 2]) <= Identity(sorted[n - 1]);
    }
  }

  lemma {:induction false} SumBounds(s: seq<real>, lo: real, hi: real)
    requires forall i :: 0 <= i < |s| ==> lo <= s[i] <= hi
    ensures |s| as real * lo <= Sum(s) <= |s| as real * hi
  {
    if s != [] {
      var init := s[..|s| - 1];
      assert forall i :: 0 <= i < |init| ==> init[i] == s[i];
      SumBounds(init, lo, hi);
      var k := |init| as real;
      assert |s| as real * lo == k * lo + lo && |s| as real * hi == k * hi + hi;
    }
  }

  lemma {:induction false} SquaredDeviationsNonNegative(s: seq<real>, m: real)
    ensures SquaredDeviations(s, m) >= 0.0
  {
    if s != [] {
      SquaredDeviationsNonNegative(s[..|s| - 1], m);
      var d := s[|s| - 1] - m;
      if d < 0.0 { assert d * d == (-d) * (-d); }
    }
  }

  /** The figures `compute_stats_json` reports for a non-empty column. The
      source also reports `std`, the square root of `variance`. */
  datatype Summary = Summary(count: nat, mean: real, median: real, variance: real, min: real, max: real)

  function Summarize(vals: seq<real>): (r: Summary)
    requires |vals| > 0
    ensures r.count == |vals|
    ensures r.min in vals && r.max in vals && forall i :: 0 <= i < |vals| ==> r.min <= vals[i] <= r.max
    ensures r.min <= r.mean <= r.max
    ensures r.min <= r.median <= r.max
    ensures r.variance >= 0.0
    // and the figures are the column's mean, median and population variance
    ensures r.mean == Mean(vals) && r.median == Median(Ascending(vals)) && r.variance == Variance(vals)
  {
    SummaryBounds(vals);
    Summary(|vals|, Mean(vals), Median(Ascending(vals)), Variance(vals), Min(vals), Max(vals))
  }

  /** The mean and the median lie between the extremes; the variance is not negative. */
  lemma SummaryBounds(vals: seq<real>)
    requires |vals| > 0
    ensures Min(vals) <= Mean(vals) <= Max(vals)
    ensures Min(vals) <= Median(Ascending(vals)) <= Max(vals)
    ensures Variance(vals) >= 0.0
  {
    MeanBetween(vals, Min(vals), Max(vals));
    MedianOfSortedCopyBetween(vals);
    SquaredDeviationsNonNegative(vals, Mean(vals));
    DivideNonNegative(SquaredDeviations(vals, Mean(vals)), |vals| as real);
  }

  lemma DivideNonNegative(total: real, n: real)
    requires total >= 0.0 && n > 0.0
    ensures total / n >= 0.0
  {
    var q := total / n;
    assert q * n == total;
  }

  /** Values within bounds have their mean within the same bounds. */
  lemma MeanBetween(vals: seq<real>, lo: real, hi: real)
    requires |vals| > 0
    requires forall i :: 0 <= i < |vals| ==> lo <= vals[i] <= hi
    ensures lo <= Mean(vals) <= hi
  {
    SumBounds(vals, lo, hi);
    DivideBetween(Sum(vals), |vals| as real, lo, hi);
  }

  lemma DivideBetween(total: real, n: real, lo: real, hi: real)
    requires n > 0.0 && n * lo <= total <= n * hi
    ensures lo <= total / n <= hi
  {
    var q := total / n;
    assert q * n == total;
  }

  lemma MedianOfSortedCopyBetween(vals: seq<real>)
    requires |vals| > 0
    ensures Min(vals) <= Median(Ascending(vals)) <= Max(vals)
  {
    var sorted := Ascending(vals);
    MedianBetween(sorted);
    assert sorted[0] in multiset(vals);
    assert sorted[|sorted| - 1] in multiset(vals);
  }
}
