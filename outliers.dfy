/** Section 2 of the dashboard: months whose total lies more than one sample
    standard deviation above (spike) or below (dip) the mean monthly total. */
module Outliers {
  import opened Wrappers
  import opened Seqs
  import opened Grouping
  import opened Donations
  import opened Monthly

  /** `monthly_df["designated_value"].mean()`. */
  function Mean(monthly: seq<KV<YearMonth>>): real
    requires |monthly| > 0
  {
    Total(monthly) as real / |monthly| as real
  }

  function SquaredDeviations(monthly: seq<KV<YearMonth>>, mu: real): real
  {
    if monthly == [] then 0.0
    else (monthly[0].value as real - mu) * (monthly[0].value as real - mu) + SquaredDeviations(monthly[1..], mu)
  }

  /** The sample variance (`ddof=1`) of the monthly totals. */
  function SampleVariance(monthly: seq<KV<YearMonth>>): real
    requires |monthly| >= 2
  {
    SquaredDeviations(monthly, Mean(monthly)) / (|monthly| - 1) as real
  }

  /** `sd` is what `Series.std()` returns for the totals: NaN (None) for fewer
      than two months, otherwise the non-negative square root of the sample variance. */
  predicate IsSampleStd(monthly: seq<KV<YearMonth>>, sd: Option<real>)
  {
    if |monthly| < 2 then sd == None
    else sd.Some? && sd.value >= 0.0 && sd.value * sd.value == SampleVariance(monthly)
  }

  function Above(limit: real): KV<YearMonth> -> bool
  {
    (g: KV<YearMonth>) => g.value as real > limit
  }

  function Below(limit: real): KV<YearMonth> -> bool
  {
    (g: KV<YearMonth>) => (g.value as real) < limit
  }

  datatype SpikesAndDips = SpikesAndDips(spikes: seq<KV<YearMonth>>, dips: seq<KV<YearMonth>>)

  /** The two masks over the monthly totals. A NaN threshold compares false
      with every total, so with a single month nothing is selected. With no
      month at all `monthly_df["std"].iloc[0]` has no row to read and the
      script stops, so at least one month is required. */
  function FindOutliers(monthly: seq<KV<YearMonth>>, sd: Option<real>): SpikesAndDips
    requires monthly != []
    requires IsSampleStd(monthly, sd)
  {
    match sd
    case None => SpikesAndDips([], [])
    case Some(threshold) =>
      var mu := Mean(monthly);
      SpikesAndDips(Filter(monthly, Above(mu + threshold)), Filter(monthly, Below(mu - threshold)))
  }

  /** A month is a spike exactly when there are at least two months and its total
      is strictly above mean + sd, and a dip exactly when it is strictly below
      mean - sd; both lists keep the months in their series order. */
  lemma OutliersMeaning(monthly: seq<KV<YearMonth>>, sd: Option<real>)
    requires monthly != []
    requires IsSampleStd(monthly, sd)
    ensures forall g :: g in FindOutliers(monthly, sd).spikes <==>
      g in monthly && |monthly| >= 2 && g.value as real > Mean(monthly) + sd.value
    ensures forall g :: g in FindOutliers(monthly, sd).dips <==>
      g in monthly && |monthly| >= 2 && (g.value as real) < Mean(monthly) - sd.value
    ensures IsSubseq(FindOutliers(monthly, sd).spikes, monthly)
    ensures IsSubseq(FindOutliers(monthly, sd).dips, monthly)
  {
    if sd.Some? {
      var hi := Above(Mean(monthly) + sd.value);
      var lo := Below(Mean(monthly) - sd.value);
      FilterIsSubseq(monthly, hi);
      FilterIsSubseq(monthly, lo);
      forall g
        ensures g in Filter(monthly, hi) <==> g in monthly && hi(g)
        ensures g in Filter(monthly, lo) <==> g in monthly && lo(g)
      {
        FilterMember(monthly, hi, g);
        FilterMember(monthly, lo, g);
      }
    } else {
      EmptyIsSubseq(monthly);
    }
  }

  /** No month is both a spike and a dip, since the deviation is never negative. */
  lemma SpikesAndDipsDisjoint(monthly: seq<KV<YearMonth>>, sd: Option<real>)
    requires monthly != []
    requires IsSampleStd(monthly, sd)
    ensures forall g :: !(g in FindOutliers(monthly, sd).spikes && g in FindOutliers(monthly, sd).dips)
  {
    OutliersMeaning(monthly, sd);
  }

  /** When every month has the same total there is neither a spike nor a dip. */
  lemma FlatSeriesHasNoOutliers(monthly: seq<KV<YearMonth>>, sd: Option<real>, c: int)
    requires monthly != []
    requires IsSampleStd(monthly, sd)
    requires forall i :: 0 <= i < |monthly| ==> monthly[i].value == c
    ensures FindOutliers(monthly, sd) == SpikesAndDips([], [])
  {
    if sd.Some? {
      SumOfConstant(monthly, Amount<YearMonth>, c);
      var mu := Mean(monthly);
      assert mu == c as real;
      FilterNone(monthly, Above(mu + sd.value));
      FilterNone(monthly, Below(mu - sd.value));
    }
  }

  lemma {:induction false} TotalAbove(monthly: seq<KV<YearMonth>>, c: real)
    requires forall i :: 0 <= i < |monthly| ==> monthly[i].value as real > c
    ensures monthly != [] ==> Total(monthly) as real > |monthly| as real * c
    ensures Total(monthly) as real >= |monthly| as real * c
  {
    if monthly != [] {
      TotalAbove(monthly[1..], c);
    }
  }

  lemma {:induction false} TotalBelow(monthly: seq<KV<YearMonth>>, c: real)
    requires forall i :: 0 <= i < |monthly| ==> (monthly[i].value as real) < c
    ensures monthly != [] ==> (Total(monthly) as real) < |monthly| as real * c
    ensures Total(monthly) as real <= |monthly| as real * c
  {
    if monthly != [] {
      TotalBelow(monthly[1..], c);
    }
  }

  lemma {:induction false} FilterKeepsAll<T>(s: seq<T>, p: T -> bool)
    requires |Filter(s, p)| == |s|
    ensures forall i :: 0 <= i < |s| ==> p(s[i])
  {
    if s != [] {
      FilterKeepsAll(s[1..], p);
      forall i | 0 <= i < |s| ensures p(s[i]) {
        if i > 0 { assert s[i] == s[1..][i - 1]; }
      }
    }
  }

  lemma MeanTimesCount(monthly: seq<KV<YearMonth>>)
    requires monthly != []
    ensures |monthly| as real * Mean(monthly) == Total(monthly) as real
  {
  }

  lemma ScaledMean(monthly: seq<KV<YearMonth>>, c: real)
    requires monthly != []
    ensures c >= Mean(monthly) ==> |monthly| as real * c >= Total(monthly) as real
    ensures c <= Mean(monthly) ==> |monthly| as real * c <= Total(monthly) as real
  {
    MeanTimesCount(monthly);
    var n := |monthly| as real;
    if c >= Mean(monthly) {
      assert n * c >= n * Mean(monthly);
    }
    if c <= Mean(monthly) {
      assert n * c <= n * Mean(monthly);
    }
  }

  lemma NotAllAbove(monthly: seq<KV<YearMonth>>, c: real)
    requires monthly != []
    requires c >= Mean(monthly)
    ensures |Filter(monthly, Above(c))| < |monthly|
  {
    ScaledMean(monthly, c);
    if |Filter(monthly, Above(c))| == |monthly| {
      FilterKeepsAll(monthly, Above(c));
      TotalAbove(monthly, c);
      assert false;
    }
  }

  lemma NotAllBelow(monthly: seq<KV<YearMonth>>, c: real)
    requires monthly != []
    requires c <= Mean(monthly)
    ensures |Filter(monthly, Below(c))| < |monthly|
  {
    ScaledMean(monthly, c);
    if |Filter(monthly, Below(c))| == |monthly| {
      FilterKeepsAll(monthly, Below(c));
      TotalBelow(monthly, c);
      assert false;
    }
  }

  /** Not every month can be a spike, and not every month a dip: some month is at
      or below the mean, and some month at or above it. */
  lemma OutliersNeverCoverTheSeries(monthly: seq<KV<YearMonth>>, sd: Option<real>)
    requires monthly != []
    requires IsSampleStd(monthly, sd)
    ensures |FindOutliers(monthly, sd).spikes| < |monthly|
    ensures |FindOutliers(monthly, sd).dips| < |monthly|
  {
    if sd.Some? {
      NotAllAbove(monthly, Mean(monthly) + sd.value);
      NotAllBelow(monthly, Mean(monthly) - sd.value);
    }
  }

  /** Over a series in strictly increasing month order, spikes and dips are too. */
  lemma OutliersKeepOrder(monthly: seq<KV<YearMonth>>, sd: Option<real>)
    requires monthly != []
    requires IsSampleStd(monthly, sd)
    requires StrictlySortedBy(monthly, MonthRank)
    ensures StrictlySortedBy(FindOutliers(monthly, sd).spikes, MonthRank)
    ensures StrictlySortedBy(FindOutliers(monthly, sd).dips, MonthRank)
  {
    if sd.Some? {
      FilterKeepsStrictOrder(monthly, Above(Mean(monthly) + sd.value), MonthRank);
      FilterKeepsStrictOrder(monthly, Below(Mean(monthly) - sd.value), MonthRank);
    }
  }

  /** Section 2 as the script runs it: the masks over the month-by-month totals
      of the filtered rows. */
  function MonthlyOutliers(rows: seq<Donation>, sd: Option<real>): SpikesAndDips
    requires MonthlyTotals(rows) != []
    requires IsSampleStd(MonthlyTotals(rows), sd)
  {
    FindOutliers(MonthlyTotals(rows), sd)
  }

  /** Spikes and dips are listed in strictly increasing month order, each one a
      month of the monthly totals with that month's total. */
  lemma MonthlyOutliersInOrder(rows: seq<Donation>, sd: Option<real>)
    requires MonthlyTotals(rows) != []
    requires IsSampleStd(MonthlyTotals(rows), sd)
    ensures StrictlySortedBy(MonthlyOutliers(rows, sd).spikes, MonthRank)
    ensures StrictlySortedBy(MonthlyOutliers(rows, sd).dips, MonthRank)
    ensures IsSubseq(MonthlyOutliers(rows, sd).spikes, MonthlyTotals(rows))
    ensures IsSubseq(MonthlyOutliers(rows, sd).dips, MonthlyTotals(rows))
  {
    MonthlyTotalsOrdered(rows);
    OutliersMeaning(MonthlyTotals(rows), sd);
    OutliersKeepOrder(MonthlyTotals(rows), sd);
  }
}
