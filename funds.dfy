/** Section 3 of the dashboard: fund totals ranked, the five largest and the five smallest. */
module Funds {
  import opened Seqs
  import opened Grouping
  import opened Donations

  /** How many funds each chart shows. */
  const ChartSize: nat := 5

  /** `df_filtered.groupby("desination_name")["designated_value"].sum()`. */
  function FundTotals(rows: seq<Donation>): seq<KV<string>>
  {
    GroupBy(rows, LabelKey(DesinationNameColumn))
  }

  function Largest(g: KV<string>): int
  {
    -g.value
  }

  function Smallest(g: KV<string>): int
  {
    g.value
  }

  /** `fund_totals.sort_values(ascending=False)`; the order among equal totals is
      whichever the sort produces, and nothing below depends on it. */
  function Ranking(rows: seq<Donation>): seq<KV<string>>
  {
    SortBy(FundTotals(rows), Largest)
  }

  /** `Series.head(n)`: the first `n` entries, or all of them when there are fewer. */
  function Head<T>(s: seq<T>, n: nat): seq<T>
  {
    if n <= |s| then s[..n] else s
  }

  /** `Series.tail(n)`: the last `n` entries, or all of them when there are fewer. */
  function Tail<T>(s: seq<T>, n: nat): seq<T>
  {
    if n <= |s| then s[|s| - n..] else s
  }

  /** `sorted_totals.head(5)`. */
  function TopFive(ranking: seq<KV<string>>): seq<KV<string>>
  {
    Head(ranking, ChartSize)
  }

  /** `sorted_totals.tail(5).sort_values(ascending=True)`. */
  function BottomFive(ranking: seq<KV<string>>): seq<KV<string>>
  {
    SortBy(Tail(ranking, ChartSize), Smallest)
  }

  /** The totals never increase along the sequence. */
  predicate LargestFirst(r: seq<KV<string>>)
  {
    forall i, j :: 0 <= i < j < |r| ==> r[i].value >= r[j].value
  }

  function Min(a: nat, b: nat): nat
  {
    if a <= b then a else b
  }

  /** The ranking runs from the largest total to the smallest. */
  lemma RankingOrdered(rows: seq<Donation>)
    ensures LargestFirst(Ranking(rows))
  {
    assert SortedBy(Ranking(rows), Largest);
  }

  /** The ranking lists every fund some row names, exactly once, with the total
      of that fund's rows. */
  lemma RankingContents(rows: seq<Donation>)
    ensures multiset(Ranking(rows)) == multiset(FundTotals(rows))
    ensures DistinctKeys(Ranking(rows))
    ensures forall name :: name in Keys(Ranking(rows)) <==>
      Filter(rows, KeyedAs(LabelKey(DesinationNameColumn), name)) != []
    ensures forall i :: 0 <= i < |Ranking(rows)| ==>
      Ranking(rows)[i].value == ValueSum(Filter(rows, KeyedAs(LabelKey(DesinationNameColumn), Ranking(rows)[i].key)))
  {
    var g := FundTotals(rows);
    var r := Ranking(rows);
    GroupByMeaning(rows, LabelKey(DesinationNameColumn));
    forall name
      ensures name in Keys(r) <==> Filter(rows, KeyedAs(LabelKey(DesinationNameColumn), name)) != []
    {
      PermutedKeys(r, g, name);
    }
    forall i | 0 <= i < |r|
      ensures r[i].value == ValueSum(Filter(rows, KeyedAs(LabelKey(DesinationNameColumn), r[i].key)))
    {
      var j :| 0 <= j < |g| && g[j] == r[i];
    }
    SortedDistinctKeys(g, Largest);
  }

  /** The top five are the first min(5, #funds) entries of the ranking, in
      non-increasing order, and none is smaller than a fund left out. */
  lemma TopFiveMeaning(ranking: seq<KV<string>>)
    requires LargestFirst(ranking)
    ensures |TopFive(ranking)| == Min(ChartSize, |ranking|)
    ensures TopFive(ranking) == ranking[..|TopFive(ranking)|]
    ensures LargestFirst(TopFive(ranking))
    ensures forall i, j :: 0 <= i < |TopFive(ranking)| <= j < |ranking| ==>
      TopFive(ranking)[i].value >= ranking[j].value
  {
  }

  /** The bottom five are the last min(5, #funds) entries of the ranking. */
  lemma BottomFiveContents(ranking: seq<KV<string>>)
    ensures |BottomFive(ranking)| == Min(ChartSize, |ranking|)
    ensures multiset(BottomFive(ranking)) == multiset(ranking[|ranking| - |BottomFive(ranking)|..])
  {
    assert Tail(ranking, ChartSize) == ranking[|ranking| - Min(ChartSize, |ranking|)..];
  }

  /** The bottom five run from the smallest total up, and none is larger than a
      fund the tail left out. */
  lemma BottomFiveOrder(ranking: seq<KV<string>>)
    requires LargestFirst(ranking)
    ensures forall i, j :: 0 <= i < j < |BottomFive(ranking)| ==>
      BottomFive(ranking)[i].value <= BottomFive(ranking)[j].value
    ensures forall i, j :: 0 <= i < |BottomFive(ranking)| && 0 <= j < |ranking| - |BottomFive(ranking)| ==>
      BottomFive(ranking)[i].value <= ranking[j].value
  {
    var k := Min(ChartSize, |ranking|);
    var t := Tail(ranking, ChartSize);
    assert t == ranking[|ranking| - k..];
    var b := BottomFive(ranking);
    assert SortedBy(b, Smallest);
    forall i, j | 0 <= i < |b| && 0 <= j < |ranking| - k
      ensures b[i].value <= ranking[j].value
    {
      assert b[i] in t;
      var m :| 0 <= m < |t| && t[m] == b[i];
      assert t[m] == ranking[|ranking| - k + m];
    }
  }
}
