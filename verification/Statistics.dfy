/** Order statistics of the performance gate, over the reals: `quantile`, the median and
    the lower confidence bound of a paired bootstrap with a fixed seed. */
module Statistics {
  import opened Ordering

  predicate AtMost(a: real, b: real) { a <= b }

  function Ascending(values: seq<real>): (s: seq<real>)
    ensures |s| == |values|
  {
    SortCounts(values, AtMost, Within(0.0));
    Sort(values, AtMost)
  }

  /** `math.ceil`. */
  function Ceil(x: real): int { -((-x).Floor) }

  lemma {:induction false} CeilBounds(x: real)
    ensures x <= Ceil(x) as real < x + 1.0
  {
  }

  function QuantileIndex(n: nat, fraction: real): nat {
    var i := Ceil(n as real * fraction) - 1;
    if i > 0 then i else 0
  }

  lemma {:induction false} QuantileIndexInRange(n: nat, fraction: real)
    requires n > 0 && fraction <= 1.0
    ensures QuantileIndex(n, fraction) < n
    ensures fraction > 0.0 ==> QuantileIndex(n, fraction) as real < n as real * fraction
    ensures Ceil(n as real * fraction) <= QuantileIndex(n, fraction) + 1
  {
    assert n as real * fraction <= n as real;
    assert fraction > 0.0 ==> n as real * fraction > 0.0;
  }

  function Quantile(values: seq<real>, fraction: real): real
    requires values != [] && fraction <= 1.0
  {
    QuantileIndexInRange(|values|, fraction);
    Ascending(values)[QuantileIndex(|values|, fraction)]
  }

  /** `statistics.median`. */
  function Median(values: seq<real>): real
    requires values != []
  {
    var s, n := Ascending(values), |values|;
    if n % 2 == 1 then s[n / 2] else (s[n / 2 - 1] + s[n / 2]) / 2.0
  }

  // ----- order statistics by counting -----

  function Within(x: real): real -> bool { (y: real) => y <= x }

  function Below(x: real): real -> bool { (y: real) => y < x }

  lemma {:induction false} SortedRank(s: seq<real>, k: nat, x: real)
    requires Sorted(s, AtMost) && k < |s|
    ensures s[k] <= x <==> k < Count(s, Within(x))
    ensures s[k] < x <==> k < Count(s, Below(x))
  {
    CountBounds(s[1..], Within(x));
    CountBounds(s[1..], Below(x));
    if k > 0 {
      SortedRank(s[1..], k - 1, x);
    }
    assert forall i :: 0 <= i < |s| - 1 ==> AtMost(s[0], s[1..][i]);
  }

  /** The k-th smallest value is at most `x` exactly when more than `k` values are. */
  lemma {:induction false} Rank(values: seq<real>, k: nat, x: real)
    requires k < |values|
    ensures Ascending(values)[k] <= x <==> k < Count(values, Within(x))
    ensures Ascending(values)[k] < x <==> k < Count(values, Below(x))
  {
    SortSorted(values, AtMost);
    SortCounts(values, AtMost, Within(x));
    SortCounts(values, AtMost, Below(x));
    SortedRank(Ascending(values), k, x);
  }

  ghost predicate PointwiseAtMost(a: seq<real>, b: seq<real>) {
    |a| == |b| && forall i :: 0 <= i < |a| ==> a[i] <= b[i]
  }

  /** Raising values raises every order statistic. */
  lemma {:induction false} RankMonotone(a: seq<real>, b: seq<real>, k: nat)
    requires PointwiseAtMost(a, b) && k < |a|
    ensures Ascending(a)[k] <= Ascending(b)[k]
  {
    var x := Ascending(b)[k];
    Rank(a, k, x);
    Rank(b, k, x);
    CountMonotone(b, a, Within(x), Within(x));
  }

  lemma {:induction false} RankBounds(values: seq<real>, k: nat, low: real, high: real)
    requires k < |values| && forall i :: 0 <= i < |values| ==> low <= values[i] <= high
    ensures low <= Ascending(values)[k] <= high
  {
    Rank(values, k, high);
    Rank(values, k, low);
    CountBounds(values, Within(high));
    CountBounds(values, Below(low));
  }

  lemma {:induction false} Extremes(values: seq<real>, i: nat)
    requires i < |values|
    ensures Ascending(values)[0] <= values[i] <= Ascending(values)[|values| - 1]
  {
    var low, high := Ascending(values)[0], Ascending(values)[|values| - 1];
    Rank(values, 0, low);
    Rank(values, |values| - 1, high);
    Rank(values, 0, values[i]);
    CountWithout(values, i, Within(values[i]));
    CountWithout(values, i, Within(high));
    CountBounds(values[..i] + values[i + 1..], Within(high));
  }

  lemma {:induction false} RankIsValue(values: seq<real>, k: nat)
    requires k < |values|
    ensures Ascending(values)[k] in values
  {
    var x := Ascending(values)[k];
    Rank(values, k, x);
    if x !in values {
      CountMonotone(values, values, Within(x), Below(x));
      assert false;
    }
  }

  /** The sorted values depend on the multiset of values alone. */
  lemma {:induction false} AscendingOfMultiset(a: seq<real>, b: seq<real>)
    requires multiset(a) == multiset(b)
    ensures Ascending(a) == Ascending(b)
  {
    CountMultiset(a, b, Within(0.0));
    forall k | 0 <= k < |a| ensures Ascending(a)[k] == Ascending(b)[k] {
      var x, y := Ascending(a)[k], Ascending(b)[k];
      Rank(a, k, x);
      Rank(b, k, x);
      Rank(a, k, y);
      Rank(b, k, y);
      CountMultiset(a, b, Within(x));
      CountMultiset(a, b, Within(y));
    }
  }

  lemma {:induction false} MedianOfMultiset(a: seq<real>, b: seq<real>)
    requires a != [] && b != [] && multiset(a) == multiset(b)
    ensures Median(a) == Median(b)
  {
    CountMultiset(a, b, Within(0.0));
    AscendingOfMultiset(a, b);
  }

  // ----- quantile and median -----

  /** A quantile has at least the asked share of the values at or below it, and less than
      that share strictly below it. */
  lemma {:induction false} QuantileMeaning(values: seq<real>, fraction: real)
    requires values != [] && 0.0 < fraction <= 1.0
    ensures var q := Quantile(values, fraction);
      && q in values
      && Count(values, Within(q)) as real >= |values| as real * fraction
      && Count(values, Below(q)) as real < |values| as real * fraction
  {
    var q, k := Quantile(values, fraction), QuantileIndex(|values|, fraction);
    QuantileIndexInRange(|values|, fraction);
    Rank(values, k, q);
    RankIsValue(values, k);
    CeilBounds(|values| as real * fraction);
  }

  lemma {:induction false} QuantileMonotone(a: seq<real>, b: seq<real>, fraction: real)
    requires a != [] && PointwiseAtMost(a, b) && fraction <= 1.0
    ensures Quantile(a, fraction) <= Quantile(b, fraction)
  {
    QuantileIndexInRange(|a|, fraction);
    RankMonotone(a, b, QuantileIndex(|a|, fraction));
  }

  lemma {:induction false} MedianMonotone(a: seq<real>, b: seq<real>)
    requires a != [] && PointwiseAtMost(a, b)
    ensures Median(a) <= Median(b)
  {
    RankMonotone(a, b, |a| / 2);
    if |a| % 2 == 0 {
      RankMonotone(a, b, |a| / 2 - 1);
    }
  }

  function Above(x: real): real -> bool { (y: real) => y > x }

  lemma {:induction false} CountAbove(values: seq<real>, x: real)
    ensures Count(values, Above(x)) == |values| - Count(values, Within(x))
  {
    if values != [] {
      CountAbove(values[1..], x);
    }
  }

  /** At most half of the values lie below the median, and at most half above it. */
  lemma {:induction false} MedianHalves(values: seq<real>)
    requires values != []
    ensures 2 * Count(values, Below(Median(values))) <= |values|
    ensures 2 * Count(values, Above(Median(values))) <= |values|
  {
    var m, k := Median(values), |values| / 2;
    CountAbove(values, m);
    Rank(values, k, m);
    if |values| % 2 == 0 {
      RankOrder(values, k - 1);
      Rank(values, k - 1, m);
    }
  }

  lemma {:induction false} RankOrder(values: seq<real>, k: nat)
    requires k + 1 < |values|
    ensures Ascending(values)[k] <= Ascending(values)[k + 1]
  {
    SortSorted(values, AtMost);
    assert AtMost(Ascending(values)[k], Ascending(values)[k + 1]);
  }

  function Negated(values: seq<real>): (s: seq<real>)
    ensures |s| == |values| && forall i :: 0 <= i < |s| ==> s[i] == -values[i]
  {
    seq(|values|, i requires 0 <= i < |values| => -values[i])
  }

  function Shifted(values: seq<real>, t: real): (s: seq<real>)
    ensures |s| == |values| && forall i :: 0 <= i < |s| ==> s[i] == values[i] + t
  {
    seq(|values|, i requires 0 <= i < |values| => values[i] + t)
  }

  lemma {:induction false} CountNegated(values: seq<real>, x: real)
    ensures Count(Negated(values), Within(x)) == |values| - Count(values, Below(-x))
  {
    if values != [] {
      CountNegated(values[1..], x);
      assert Negated(values)[1..] == Negated(values[1..]);
    }
  }

  lemma {:induction false} CountShifted(values: seq<real>, t: real, x: real)
    ensures Count(Shifted(values, t), Within(x + t)) == Count(values, Within(x))
  {
    if values != [] {
      CountShifted(values[1..], t, x);
      assert Shifted(values, t)[1..] == Shifted(values[1..], t);
    }
  }

  lemma {:induction false} NegatedRank(values: seq<real>, k: nat, x: real)
    requires k < |values|
    ensures Ascending(Negated(values))[k] <= x <==> Ascending(values)[|values| - 1 - k] >= -x
  {
    Rank(Negated(values), k, x);
    CountNegated(values, x);
    Rank(values, |values| - 1 - k, -x);
  }

  lemma {:induction false} RankNegated(values: seq<real>, k: nat)
    requires k < |values|
    ensures Ascending(Negated(values))[k] == -Ascending(values)[|values| - 1 - k]
  {
    NegatedRank(values, k, Ascending(Negated(values))[k]);
    NegatedRank(values, k, -Ascending(values)[|values| - 1 - k]);
  }

  lemma {:induction false} ShiftedRank(values: seq<real>, t: real, k: nat, x: real)
    requires k < |values|
    ensures Ascending(Shifted(values, t))[k] <= x + t <==> Ascending(values)[k] <= x
  {
    Rank(Shifted(values, t), k, x + t);
    CountShifted(values, t, x);
    Rank(values, k, x);
  }

  lemma {:induction false} RankShifted(values: seq<real>, t: real, k: nat)
    requires k < |values|
    ensures Ascending(Shifted(values, t))[k] == Ascending(values)[k] + t
  {
    var a := Ascending(Shifted(values, t))[k];
    ShiftedRank(values, t, k, a - t);
    assert (a - t) + t == a;
    ShiftedRank(values, t, k, Ascending(values)[k]);
  }

  /** Neither end is preferred: the median of the negated values is the negated median. */
  lemma {:induction false} MedianNegated(values: seq<real>)
    requires values != []
    ensures Median(Negated(values)) == -Median(values)
  {
    var k := |values| / 2;
    RankNegated(values, k);
    if |values| % 2 == 0 {
      RankNegated(values, k - 1);
    }
  }

  lemma {:induction false} MedianShifted(values: seq<real>, t: real)
    requires values != []
    ensures Median(Shifted(values, t)) == Median(values) + t
  {
    var k := |values| / 2;
    RankShifted(values, t, k);
    if |values| % 2 == 0 {
      RankShifted(values, t, k - 1);
    }
  }

  lemma {:induction false} MedianBounds(values: seq<real>, low: real, high: real)
    requires values != [] && forall i :: 0 <= i < |values| ==> low <= values[i] <= high
    ensures low <= Median(values) <= high
  {
    RankBounds(values, |values| / 2, low, high);
    if |values| % 2 == 0 {
      RankBounds(values, |values| / 2 - 1, low, high);
    }
  }

  // ----- the bootstrap -----

  const RESAMPLES := 4000

  /** The positions drawn for a sample of each length. The generator is seeded anew with one
      constant, so they depend on the length alone; which they are is left open. */
  type Draws = nat -> seq<seq<nat>>

  ghost predicate ValidDraws(draws: Draws) {
    forall n: nat :: n > 0 ==>
      && |draws(n)| == RESAMPLES
      && forall r :: 0 <= r < RESAMPLES ==> ValidRow(draws(n)[r], n)
  }

  ghost predicate ValidRow(row: seq<nat>, n: nat) {
    |row| == n && forall i :: 0 <= i < n ==> row[i] < n
  }

  function Resample(values: seq<real>, row: seq<nat>): (s: seq<real>)
    requires ValidRow(row, |values|)
    ensures |s| == |row| && forall i :: 0 <= i < |row| ==> s[i] == values[row[i]]
  {
    seq(|row|, i requires 0 <= i < |row| => values[row[i]])
  }

  function ResampledMedians(draws: Draws, values: seq<real>): (medians: seq<real>)
    requires ValidDraws(draws) && values != []
    ensures |medians| == RESAMPLES
    ensures forall r :: 0 <= r < RESAMPLES ==> medians[r] == Median(Resample(values, draws(|values|)[r]))
  {
    var rows := draws(|values|);
    seq(RESAMPLES, r requires 0 <= r < RESAMPLES => Median(Resample(values, rows[r])))
  }

  function ConfidenceLower(draws: Draws, differences: seq<real>): real
    requires ValidDraws(draws) && differences != []
  {
    Quantile(ResampledMedians(draws, differences), 0.05)
  }

  lemma {:induction false} ConfidenceMonotone(draws: Draws, a: seq<real>, b: seq<real>)
    requires ValidDraws(draws) && a != [] && PointwiseAtMost(a, b)
    ensures ConfidenceLower(draws, a) <= ConfidenceLower(draws, b)
  {
    forall r | 0 <= r < RESAMPLES ensures ResampledMedians(draws, a)[r] <= ResampledMedians(draws, b)[r] {
      MedianMonotone(Resample(a, draws(|a|)[r]), Resample(b, draws(|a|)[r]));
    }
    QuantileMonotone(ResampledMedians(draws, a), ResampledMedians(draws, b), 0.05);
  }

  /** The bound lies between the smallest and the largest difference. */
  lemma {:induction false} ConfidenceBounds(draws: Draws, differences: seq<real>, low: real, high: real)
    requires ValidDraws(draws) && differences != []
    requires forall i :: 0 <= i < |differences| ==> low <= differences[i] <= high
    ensures low <= ConfidenceLower(draws, differences) <= high
  {
    forall r | 0 <= r < RESAMPLES ensures low <= ResampledMedians(draws, differences)[r] <= high {
      MedianBounds(Resample(differences, draws(|differences|)[r]), low, high);
    }
    QuantileIndexInRange(RESAMPLES, 0.05);
    RankBounds(ResampledMedians(draws, differences), QuantileIndex(RESAMPLES, 0.05), low, high);
  }

  /** The bound exceeds a threshold exactly when at most 199 of the 4000 resampled medians
      stay within it. */
  lemma {:induction false} ConfidenceExceeds(draws: Draws, differences: seq<real>, threshold: real)
    requires ValidDraws(draws) && differences != []
    ensures ConfidenceLower(draws, differences) > threshold
       <==> Count(ResampledMedians(draws, differences), Within(threshold)) <= 199
  {
    assert QuantileIndex(RESAMPLES, 0.05) == 199;
    Rank(ResampledMedians(draws, differences), 199, threshold);
  }
}
