/** Section 1 of the dashboard: monthly totals and their year-over-year change. */
module Monthly {
  import opened Wrappers
  import opened Seqs
  import opened Grouping
  import opened Donations

  function MonthRank(g: KV<YearMonth>): int
  {
    Ordinal(g.key)
  }

  /** `df_filtered.groupby("year_month")["designated_value"].sum().sort_index()`. */
  function MonthlyTotals(rows: seq<Donation>): seq<KV<YearMonth>>
  {
    SortBy(GroupBy(rows, MonthKey), MonthRank)
  }

  /** The months come out in strictly increasing calendar order, so no month twice. */
  lemma MonthlyTotalsOrdered(rows: seq<Donation>)
    ensures StrictlySortedBy(MonthlyTotals(rows), MonthRank)
    ensures forall i, j :: 0 <= i < j < |MonthlyTotals(rows)| ==>
      Ordinal(MonthlyTotals(rows)[i].key) < Ordinal(MonthlyTotals(rows)[j].key)
  {
    var g := GroupBy(rows, MonthKey);
    GroupByMeaning(rows, MonthKey);
    forall i, j | 0 <= i < j < |g|
      ensures MonthRank(g[i]) != MonthRank(g[j])
    {
      if MonthRank(g[i]) == MonthRank(g[j]) {
        OrdinalInjective(g[i].key, g[j].key);
      }
    }
    SortStrict(g, MonthRank);
  }

  /** A month appears exactly when some dated row falls in it, and its total is
      the sum of `designated_value` over the rows of that month. */
  lemma MonthlyTotalsContents(rows: seq<Donation>)
    ensures forall ym :: ym in Keys(MonthlyTotals(rows)) <==> Filter(rows, KeyedAs(MonthKey, ym)) != []
    ensures forall i :: 0 <= i < |MonthlyTotals(rows)| ==>
      MonthlyTotals(rows)[i].value == ValueSum(Filter(rows, KeyedAs(MonthKey, MonthlyTotals(rows)[i].key)))
  {
    var g := GroupBy(rows, MonthKey);
    var m := SortBy(g, MonthRank);
    GroupByMeaning(rows, MonthKey);
    forall ym
      ensures ym in Keys(m) <==> Filter(rows, KeyedAs(MonthKey, ym)) != []
    {
      PermutedKeys(m, g, ym);
    }
    forall i | 0 <= i < |m|
      ensures m[i].value == ValueSum(Filter(rows, KeyedAs(MonthKey, m[i].key)))
    {
      var j :| 0 <= j < |g| && g[j] == m[i];
    }
  }

  /** Conservation: the monthly totals add up to the total of the rows that have a date. */
  lemma MonthlyConservation(rows: seq<Donation>)
    ensures Total(MonthlyTotals(rows)) == ValueSum(Filter(rows, Keyed(MonthKey)))
  {
    SumOfSort(GroupBy(rows, MonthKey), MonthRank, Amount<YearMonth>);
    GroupByMeaning(rows, MonthKey);
  }

  /** `pct_change(periods=12)` compares with the entry twelve POSITIONS earlier. */
  const YoYPeriods: nat := 12

  /** Applying a percentage change to the earlier value gives back the later one. */
  lemma PctChangeInverse(earlier: real, later: real)
    requires earlier != 0.0
    ensures earlier * (1.0 + ((later / earlier - 1.0) * 100.0) / 100.0) == later
  {
    assert ((later / earlier - 1.0) * 100.0) / 100.0 == later / earlier - 1.0;
    assert earlier * (later / earlier) == later;
  }

  /** `(total[i] / total[i - 12] - 1) * 100`; None where pandas gives NaN (the
      first twelve positions) and where it would divide by a zero total. */
  function PctChangeAt(m: seq<KV<YearMonth>>, i: nat): (y: Option<real>)
    requires i < |m|
    ensures y.Some? <==> YoYPeriods <= i && m[i - YoYPeriods].value != 0
    ensures y.Some? ==> m[i - YoYPeriods].value as real * (1.0 + y.value / 100.0) == m[i].value as real
  {
    if i < YoYPeriods || m[i - YoYPeriods].value == 0 then None
    else
      PctChangeInverse(m[i - YoYPeriods].value as real, m[i].value as real);
      Some((m[i].value as real / m[i - YoYPeriods].value as real - 1.0) * 100.0)
  }

  /** One row of the `trend` table. */
  datatype TrendRow = TrendRow(yearMonth: YearMonth, total: int, yoyPct: Option<real>)

  /** `pd.DataFrame({"total": monthly, "YoY % change": yoy}).reset_index()` for
      the sorted monthly series. */
  function Trend(monthly: seq<KV<YearMonth>>): (t: seq<TrendRow>)
    ensures |t| == |monthly|
    ensures forall i :: 0 <= i < |t| ==> t[i].yearMonth == monthly[i].key && t[i].total == monthly[i].value
    ensures forall i :: 0 <= i < |t| ==>
      (t[i].yoyPct.Some? <==> YoYPeriods <= i && monthly[i - YoYPeriods].value != 0)
    ensures forall i :: 0 <= i < |t| && t[i].yoyPct.Some? ==>
      monthly[i - YoYPeriods].value as real * (1.0 + t[i].yoyPct.value / 100.0) == monthly[i].value as real
  {
    seq(|monthly|, i requires 0 <= i < |monthly| =>
      TrendRow(monthly[i].key, monthly[i].value, PctChangeAt(monthly, i)))
  }

  /** Along a strictly increasing series of months, `k` positions span at least
      `k` calendar months, and exactly `k` only when no month in between is missing. */
  lemma {:induction false} PositionsSpanMonths(m: seq<KV<YearMonth>>, a: nat, b: nat)
    requires StrictlySortedBy(m, MonthRank)
    requires a <= b < |m|
    ensures Ordinal(m[b].key) - Ordinal(m[a].key) >= b - a
    ensures Ordinal(m[b].key) - Ordinal(m[a].key) == b - a <==>
      forall k :: a < k <= b ==> Ordinal(m[k].key) == Ordinal(m[k - 1].key) + 1
    decreases b - a
  {
    if a < b {
      PositionsSpanMonths(m, a, b - 1);
      assert MonthRank(m[b - 1]) < MonthRank(m[b]);
    }
  }

  /** The entry twelve positions back is the same month of the previous year
      exactly when none of the twelve months in between is missing from the series. */
  lemma YoYComparesSameMonthIff(m: seq<KV<YearMonth>>, i: nat)
    requires StrictlySortedBy(m, MonthRank)
    requires YoYPeriods <= i < |m|
    ensures m[i - YoYPeriods].key == YearMonth(m[i].key.year - 1, m[i].key.month) <==>
      forall k :: i - YoYPeriods < k <= i ==> Ordinal(m[k].key) == Ordinal(m[k - 1].key) + 1
  {
    PositionsSpanMonths(m, i - YoYPeriods, i);
    var lastYear := YearMonth(m[i].key.year - 1, m[i].key.month);
    assert Ordinal(lastYear) == Ordinal(m[i].key) - 12;
    if Ordinal(m[i - YoYPeriods].key) == Ordinal(lastYear) {
      OrdinalInjective(m[i - YoYPeriods].key, lastYear);
    }
  }
}
