/** Section 4 of the dashboard: designation rows collapsed to gifts, gift
    statistics per donation type or payment method, and the Subtotal row. */
module Gifts {
  import opened Wrappers
  import opened Seqs
  import opened Grouping
  import opened Donations

  /** The pair `["CONTRIBUTION_ID", column]` a gift is grouped on. */
  datatype GiftKey = GiftKey(contributionId: int, name: string)

  /** The gift key of a row; null when either part is null (groupby drops the row). */
  function GiftKeyOf(c: Column): Donation -> Option<GiftKey>
  {
    (r: Donation) => if r.contributionId.Some? && LabelOf(r, c).Some?
         then Some(GiftKey(r.contributionId.value, LabelOf(r, c).value))
         else None
  }

  /** The label under which a row's value is counted in the statistics: its
      column value, provided it also has a contribution id. */
  function GroupLabel(c: Column): Donation -> Option<string>
  {
    (r: Donation) => if r.contributionId.Some? then LabelOf(r, c) else None
  }

  /** The rows that make up the gifts of the group `name`. */
  function InGroup(c: Column, name: string): Donation -> bool
  {
    KeyedAs(GroupLabel(c), name)
  }

  /** The distinct contribution ids among the rows of a group. */
  function GroupIds(rows: seq<Donation>, c: Column, name: string): set<int>
  {
    set r | r in rows && InGroup(c, name)(r) :: r.contributionId.value
  }

  /** `gift_df`: one entry per distinct (CONTRIBUTION_ID, column) pair, with the
      summed `designated_value` as its `gift_value`. */
  function Gifts(rows: seq<Donation>, c: Column): seq<KV<GiftKey>>
  {
    GroupBy(rows, GiftKeyOf(c))
  }

  /** The gift-level table keyed by label only, ready for the second groupby. */
  function ByLabel(gifts: seq<KV<GiftKey>>): (r: seq<KV<string>>)
    ensures |r| == |gifts|
    ensures forall i :: 0 <= i < |gifts| ==> r[i] == KV(gifts[i].key.name, gifts[i].value)
  {
    if gifts == [] then [] else [KV(gifts[0].key.name, gifts[0].value)] + ByLabel(gifts[1..])
  }

  function LabelIs(name: string): GiftKey -> bool
  {
    (k: GiftKey) => k.name == name
  }

  function GiftHasLabel(name: string): KV<GiftKey> -> bool
  {
    (g: KV<GiftKey>) => g.key.name == name
  }

  /** The gifts of one label. */
  function GiftsOf(gifts: seq<KV<GiftKey>>, name: string): seq<KV<GiftKey>>
  {
    Filter(gifts, GiftHasLabel(name))
  }

  /** The `gift_value` column of some gifts. */
  function GiftValues(gifts: seq<KV<GiftKey>>): (vs: seq<int>)
    ensures |vs| == |gifts|
  {
    if gifts == [] then [] else [gifts[0].value] + GiftValues(gifts[1..])
  }

  /** The contribution ids of some gifts. */
  function GiftIds(gifts: seq<KV<GiftKey>>): (ids: seq<int>)
    ensures |ids| == |gifts|
    ensures forall i :: 0 <= i < |gifts| ==> ids[i] == gifts[i].key.contributionId
  {
    if gifts == [] then [] else [gifts[0].key.contributionId] + GiftIds(gifts[1..])
  }

  /** One line of `cc_stats`. `stdDev` is None where pandas gives NaN. */
  datatype StatsRow = StatsRow(name: string, sum: int, count: int, mean: real, stdDev: Option<real>)

  /** A standard deviation is never negative. */
  ghost predicate NonNegativeStd(sampleStd: seq<int> -> real)
  {
    forall vs :: sampleStd(vs) >= 0.0
  }

  /** `.agg(Sum="sum", Count="count", Mean="mean", StdDev="std")` for one group.
      `sampleStd` stands for the sample standard deviation of a group's gift
      values; the square root itself is not modelled. */
  function StatsOf(gifts: seq<KV<GiftKey>>, group: KV<string>, sampleStd: seq<int> -> real): StatsRow
  {
    var members := GiftsOf(gifts, group.key);
    var n := |members|;
    StatsRow(group.key, group.value, n,
             if n == 0 then 0.0 else group.value as real / n as real,
             if n < 2 then None else Some(sampleStd(GiftValues(members))))
  }

  function StatsRows(gifts: seq<KV<GiftKey>>, groups: seq<KV<string>>, sampleStd: seq<int> -> real): (t: seq<StatsRow>)
    ensures |t| == |groups|
    ensures forall i :: 0 <= i < |groups| ==> t[i] == StatsOf(gifts, groups[i], sampleStd)
  {
    if groups == [] then []
    else [StatsOf(gifts, groups[0], sampleStd)] + StatsRows(gifts, groups[1..], sampleStd)
  }

  function LargestSum(s: StatsRow): int
  {
    -s.sum
  }

  /** `gift_df.groupby(column)["gift_value"].agg(...).sort_values(by="Sum", ascending=False)`. */
  function GroupStats(rows: seq<Donation>, c: Column, sampleStd: seq<int> -> real): seq<StatsRow>
  {
    var gifts := Gifts(rows, c);
    SortBy(StatsRows(gifts, GroupSum(ByLabel(gifts)), sampleStd), LargestSum)
  }

  const SubtotalLabel: string := "Subtotal"

  function SumColumn(s: StatsRow): int
  {
    s.sum
  }

  function CountColumn(s: StatsRow): int
  {
    s.count
  }

  function MeanColumn(s: StatsRow): real
  {
    s.mean
  }

  /** NaN cells are skipped by `DataFrame.sum`. */
  function StdDevColumn(s: StatsRow): real
  {
    if s.stdDev.Some? then s.stdDev.value else 0.0
  }

  /** `cc_stats.sum(numeric_only=True)` as one row named "Subtotal": every
      numeric column summed, NaN deviations skipped, an empty table giving zeros. */
  function Subtotal(stats: seq<StatsRow>): StatsRow
  {
    StatsRow(SubtotalLabel, SumOf(stats, SumColumn), SumOf(stats, CountColumn),
             RealSumOf(stats, MeanColumn), Some(RealSumOf(stats, StdDevColumn)))
  }

  /** `pd.concat([cc_stats, subtotal])`: the table shown for one column. */
  function StatsTable(rows: seq<Donation>, c: Column, sampleStd: seq<int> -> real): seq<StatsRow>
  {
    GroupStats(rows, c, sampleStd) + [Subtotal(GroupStats(rows, c, sampleStd))]
  }

  // ---------------------------------------------------------------------------
  // Gift collapse

  /** Exactly one gift per distinct (contribution id, name) pair some row
      carries, holding the total of that pair's rows; all gifts together hold
      the total of the rows that have both a contribution id and a name. */
  lemma GiftsMeaning(rows: seq<Donation>, c: Column)
    ensures DistinctKeys(Gifts(rows, c))
    ensures forall k :: k in Keys(Gifts(rows, c)) <==> Filter(rows, KeyedAs(GiftKeyOf(c), k)) != []
    ensures forall i :: 0 <= i < |Gifts(rows, c)| ==>
      Gifts(rows, c)[i].value == ValueSum(Filter(rows, KeyedAs(GiftKeyOf(c), Gifts(rows, c)[i].key)))
    ensures Total(Gifts(rows, c)) == ValueSum(Filter(rows, Keyed(GiftKeyOf(c))))
  {
    GroupByMeaning(rows, GiftKeyOf(c));
  }

  /** A gift split over two fund designations is counted once, with the sum of both. */
  lemma SplitGiftIsOneGift(id: int, name: string, fundA: string, fundB: string, a: int, b: int)
    ensures var rows := [
        Donation(None, Some(name), None, Some(fundA), Some(id), a),
        Donation(None, Some(name), None, Some(fundB), Some(id), b)];
      Gifts(rows, DonationTypeColumn) == [KV(GiftKey(id, name), a + b)]
  {
    var rows := [
        Donation(None, Some(name), None, Some(fundA), Some(id), a),
        Donation(None, Some(name), None, Some(fundB), Some(id), b)];
    var k := GiftKey(id, name);
    assert rows[1..][1..] == [];
    var t := Tagged(rows, GiftKeyOf(DonationTypeColumn));
    assert GiftKeyOf(DonationTypeColumn)(rows[0]) == Some(k);
    assert GiftKeyOf(DonationTypeColumn)(rows[1]) == Some(k);
    assert Tagged(rows[1..][1..], GiftKeyOf(DonationTypeColumn)) == [];
    assert Tagged(rows[1..], GiftKeyOf(DonationTypeColumn)) == [KV(k, b)];
    assert t == [KV(k, a), KV(k, b)];
    assert t[1..] == [KV(k, b)] && t[1..][1..] == [];
    assert GroupSum(t[1..]) == [KV(k, b)];
  }

  // ---------------------------------------------------------------------------
  // Regrouping the gifts by label

  lemma {:induction false} ByLabelTagged(rows: seq<Donation>, c: Column)
    ensures ByLabel(Tagged(rows, GiftKeyOf(c))) == Tagged(rows, GroupLabel(c))
  {
    if rows != [] {
      ByLabelTagged(rows[1..], c);
      var t := Tagged(rows[1..], GiftKeyOf(c));
      if GiftKeyOf(c)(rows[0]).Some? {
        var k := GiftKeyOf(c)(rows[0]).value;
        assert ([KV(k, rows[0].designatedValue)] + t)[1..] == t;
      }
    }
  }

  lemma {:induction false} ByLabelSumWhere(gifts: seq<KV<GiftKey>>, name: string)
    ensures SumFor(ByLabel(gifts), name) == SumWhere(gifts, LabelIs(name))
  {
    if gifts != [] {
      ByLabelSumWhere(gifts[1..], name);
      assert ByLabel(gifts)[1..] == ByLabel(gifts[1..]);
    }
  }

  lemma {:induction false} ByLabelTotal(gifts: seq<KV<GiftKey>>)
    ensures Total(ByLabel(gifts)) == Total(gifts)
  {
    if gifts != [] {
      ByLabelTotal(gifts[1..]);
      assert ByLabel(gifts)[1..] == ByLabel(gifts[1..]);
    }
  }

  lemma ByLabelKeys(gifts: seq<KV<GiftKey>>, name: string)
    ensures name in Keys(ByLabel(gifts)) <==> exists k :: k in Keys(gifts) && k.name == name
  {
    if name in Keys(ByLabel(gifts)) {
      var i :| 0 <= i < |gifts| && Keys(ByLabel(gifts))[i] == name;
      assert Keys(gifts)[i] in Keys(gifts);
    }
    if exists k :: k in Keys(gifts) && k.name == name {
      var k :| k in Keys(gifts) && k.name == name;
      var i :| 0 <= i < |gifts| && Keys(gifts)[i] == k;
      assert Keys(ByLabel(gifts))[i] == name;
    }
  }

  /** Regrouping the gifts by label gives, per label, the total of that group's
      rows, and the labels are exactly those of some row with a contribution id. */
  lemma LabelTotals(rows: seq<Donation>, c: Column, name: string)
    ensures SumFor(ByLabel(Gifts(rows, c)), name) == ValueSum(Filter(rows, InGroup(c, name)))
    ensures name in Keys(ByLabel(Gifts(rows, c))) <==> Filter(rows, InGroup(c, name)) != []
  {
    var t := Tagged(rows, GiftKeyOf(c));
    var gifts := GroupSum(t);
    ByLabelSumWhere(gifts, name);
    GroupSumSumWhere(t, LabelIs(name));
    ByLabelSumWhere(t, name);
    ByLabelTagged(rows, c);
    TaggedSumFor(rows, GroupLabel(c), name);
    ByLabelKeys(gifts, name);
    ByLabelKeys(t, name);
    TaggedKeys(rows, GroupLabel(c), name);
  }

  // ---------------------------------------------------------------------------
  // Counting gifts

  lemma {:induction false} FilterKeepsDistinctKeys(gifts: seq<KV<GiftKey>>, p: KV<GiftKey> -> bool)
    requires DistinctKeys(gifts)
    ensures DistinctKeys(Filter(gifts, p))
  {
    if gifts != [] {
      FilterKeepsDistinctKeys(gifts[1..], p);
      var f := Filter(gifts[1..], p);
      forall j | 0 <= j < |f|
        ensures f[j].key != gifts[0].key
      {
        var m :| 0 <= m < |gifts[1..]| && gifts[1..][m] == f[j];
        assert gifts[m + 1] == f[j];
      }
    }
  }

  /** Every id of a gift of the group occurs on one of the group's rows. */
  lemma GiftIdsInGroup(rows: seq<Donation>, c: Column, name: string, x: int)
    requires x in GiftIds(GiftsOf(Gifts(rows, c), name))
    ensures x in GroupIds(rows, c, name)
  {
    var gifts := Gifts(rows, c);
    var members := GiftsOf(gifts, name);
    var ids := GiftIds(members);
    GiftsMeaning(rows, c);
    var i :| 0 <= i < |ids| && ids[i] == x;
    var g := members[i];
    assert g in gifts && g.key.name == name;
    var j :| 0 <= j < |gifts| && gifts[j] == g;
    assert Keys(gifts)[j] == g.key;
    var f := Filter(rows, KeyedAs(GiftKeyOf(c), g.key));
    assert f[0] in rows && KeyedAs(GiftKeyOf(c), g.key)(f[0]);
    assert InGroup(c, name)(f[0]);
  }

  /** Every id on a row of the group is the id of one of its gifts. */
  lemma GroupIdsInGifts(rows: seq<Donation>, c: Column, name: string, x: int)
    requires x in GroupIds(rows, c, name)
    ensures x in GiftIds(GiftsOf(Gifts(rows, c), name))
  {
    var gifts := Gifts(rows, c);
    var members := GiftsOf(gifts, name);
    var ids := GiftIds(members);
    var r :| r in rows && InGroup(c, name)(r) && r.contributionId.value == x;
    var k := GiftKey(x, name);
    assert KeyedAs(GiftKeyOf(c), k)(r);
    FilterMember(rows, KeyedAs(GiftKeyOf(c), k), r);
    TaggedKeys(rows, GiftKeyOf(c), k);
    assert k in Keys(gifts);
    var j :| 0 <= j < |gifts| && Keys(gifts)[j] == k;
    FilterMember(gifts, GiftHasLabel(name), gifts[j]);
    var i :| 0 <= i < |members| && members[i] == gifts[j];
    assert ids[i] == x;
  }

  /** The set of contribution ids of the gifts of one label is the set of ids among that group's rows. */
  lemma GiftIdsAreGroupIds(rows: seq<Donation>, c: Column, name: string)
    ensures (set x | x in GiftIds(GiftsOf(Gifts(rows, c), name))) == GroupIds(rows, c, name)
  {
    forall x | x in GiftIds(GiftsOf(Gifts(rows, c), name))
      ensures x in GroupIds(rows, c, name)
    {
      GiftIdsInGroup(rows, c, name, x);
    }
    forall x | x in GroupIds(rows, c, name)
      ensures x in GiftIds(GiftsOf(Gifts(rows, c), name))
    {
      GroupIdsInGifts(rows, c, name, x);
    }
  }

  /** A group's Count is the number of distinct contribution ids among its rows. */
  lemma CountIsDistinctIds(rows: seq<Donation>, c: Column, name: string)
    ensures |GiftsOf(Gifts(rows, c), name)| == |GroupIds(rows, c, name)|
  {
    var gifts := Gifts(rows, c);
    var members := GiftsOf(gifts, name);
    var ids := GiftIds(members);
    GiftsMeaning(rows, c);
    FilterKeepsDistinctKeys(gifts, GiftHasLabel(name));
    forall i, j | 0 <= i < j < |ids|
      ensures ids[i] != ids[j]
    {
      assert members[i].key.name == name && members[j].key.name == name;
      assert members[i].key != members[j].key;
    }
    DistinctCardinality(ids);
    GiftIdsAreGroupIds(rows, c, name);
  }

  // ---------------------------------------------------------------------------
  // Statistics per group

  /** What one line of `cc_stats` says about the rows of its group: Sum is
      their total, Count the number of distinct contribution ids among them,
      Mean the total per gift, and StdDev is NaN exactly for a single gift and
      otherwise non-negative. */
  predicate DescribesGroup(rows: seq<Donation>, c: Column, s: StatsRow)
  {
    && Filter(rows, InGroup(c, s.name)) != []
    && s.sum == ValueSum(Filter(rows, InGroup(c, s.name)))
    && s.count == |GroupIds(rows, c, s.name)|
    && s.count >= 1
    && s.mean == s.sum as real / s.count as real
    && (s.stdDev.None? <==> s.count < 2)
    && (s.stdDev.Some? ==> s.stdDev.value >= 0.0)
  }

  lemma StatsRowFacts(rows: seq<Donation>, c: Column, sampleStd: seq<int> -> real, i: nat)
    requires NonNegativeStd(sampleStd)
    requires i < |GroupSum(ByLabel(Gifts(rows, c)))|
    ensures DescribesGroup(rows, c, StatsRows(Gifts(rows, c), GroupSum(ByLabel(Gifts(rows, c))), sampleStd)[i])
  {
    var gifts := Gifts(rows, c);
    var groups := GroupSum(ByLabel(gifts));
    var g := groups[i];
    assert Keys(groups)[i] == g.key;
    GroupSumEntry(ByLabel(gifts), i);
    LabelTotals(rows, c, g.key);
    CountIsDistinctIds(rows, c, g.key);
    var f := Filter(rows, InGroup(c, g.key));
    assert f[0] in rows && InGroup(c, g.key)(f[0]);
    assert f[0].contributionId.value in GroupIds(rows, c, g.key);
  }

  function NameOf(s: StatsRow): string
  {
    s.name
  }

  /** Every line of the per-group table describes its group, one line per
      group, largest Sum first (ties in no promised order). */
  lemma GroupStatsMeaning(rows: seq<Donation>, c: Column, sampleStd: seq<int> -> real)
    requires NonNegativeStd(sampleStd)
    ensures forall i :: 0 <= i < |GroupStats(rows, c, sampleStd)| ==>
      DescribesGroup(rows, c, GroupStats(rows, c, sampleStd)[i])
    ensures DistinctBy(GroupStats(rows, c, sampleStd), NameOf)
    ensures forall i, j :: 0 <= i < j < |GroupStats(rows, c, sampleStd)| ==>
      GroupStats(rows, c, sampleStd)[i].sum >= GroupStats(rows, c, sampleStd)[j].sum
  {
    var gifts := Gifts(rows, c);
    var groups := GroupSum(ByLabel(gifts));
    var u := StatsRows(gifts, groups, sampleStd);
    var t := GroupStats(rows, c, sampleStd);
    forall i | 0 <= i < |t|
      ensures DescribesGroup(rows, c, t[i])
    {
      var j :| 0 <= j < |u| && u[j] == t[i];
      StatsRowFacts(rows, c, sampleStd, j);
    }
    assert DistinctBy(u, NameOf);
    SortDistinctBy(u, LargestSum, NameOf);
    assert SortedBy(t, LargestSum);
  }

  lemma GroupStatsNameFromRows(rows: seq<Donation>, c: Column, sampleStd: seq<int> -> real, name: string)
    requires Filter(rows, InGroup(c, name)) != []
    ensures exists i :: 0 <= i < |GroupStats(rows, c, sampleStd)| && GroupStats(rows, c, sampleStd)[i].name == name
  {
    var gifts := Gifts(rows, c);
    var groups := GroupSum(ByLabel(gifts));
    var u := StatsRows(gifts, groups, sampleStd);
    var t := GroupStats(rows, c, sampleStd);
    LabelTotals(rows, c, name);
    assert name in Keys(groups);
    var j :| 0 <= j < |groups| && Keys(groups)[j] == name;
    assert u[j] in multiset(t);
    var i :| 0 <= i < |t| && t[i] == u[j];
    assert t[i].name == name;
  }

  /** A line exists for a label exactly when some row has that label and a contribution id. */
  lemma GroupStatsNames(rows: seq<Donation>, c: Column, sampleStd: seq<int> -> real, name: string)
    requires NonNegativeStd(sampleStd)
    ensures (exists i :: 0 <= i < |GroupStats(rows, c, sampleStd)| && GroupStats(rows, c, sampleStd)[i].name == name)
      <==> Filter(rows, InGroup(c, name)) != []
  {
    var t := GroupStats(rows, c, sampleStd);
    if exists i :: 0 <= i < |t| && t[i].name == name {
      var i :| 0 <= i < |t| && t[i].name == name;
      GroupStatsMeaning(rows, c, sampleStd);
      assert DescribesGroup(rows, c, t[i]);
    }
    if Filter(rows, InGroup(c, name)) != [] {
      GroupStatsNameFromRows(rows, c, sampleStd, name);
    }
  }

  // ---------------------------------------------------------------------------
  // The Subtotal row

  /** The number of gifts carrying each of `names`, added up. */
  function GiftsAcross(gifts: seq<KV<GiftKey>>, names: seq<string>): nat
  {
    if names == [] then 0 else |GiftsOf(gifts, names[0])| + GiftsAcross(gifts, names[1..])
  }

  function Occurrences(names: seq<string>, n: string): nat
  {
    if names == [] then 0 else (if names[0] == n then 1 else 0) + Occurrences(names[1..], n)
  }

  lemma {:induction false} GiftsAcrossNone(names: seq<string>)
    ensures GiftsAcross([], names) == 0
  {
    if names != [] {
      GiftsAcrossNone(names[1..]);
    }
  }

  lemma {:induction false} GiftsAcrossStep(gifts: seq<KV<GiftKey>>, names: seq<string>)
    requires gifts != []
    ensures GiftsAcross(gifts, names) == GiftsAcross(gifts[1..], names) + Occurrences(names, gifts[0].key.name)
  {
    if names != [] {
      GiftsAcrossStep(gifts, names[1..]);
    }
  }

  lemma {:induction false} OccursNot(names: seq<string>, n: string)
    requires n !in names
    ensures Occurrences(names, n) == 0
  {
    if names != [] {
      OccursNot(names[1..], n);
    }
  }

  lemma {:induction false} OccursOnce(names: seq<string>, n: string)
    requires Distinct(names) && n in names
    ensures Occurrences(names, n) == 1
  {
    if names[0] == n {
      assert forall k :: 0 <= k < |names[1..]| ==> names[1..][k] == names[k + 1];
      OccursNot(names[1..], n);
    } else {
      OccursOnce(names[1..], n);
    }
  }

  /** Counting the gifts label by label over distinct labels that cover every gift counts each gift once. */
  lemma {:induction false} GiftsPartition(gifts: seq<KV<GiftKey>>, names: seq<string>)
    requires Distinct(names)
    requires forall i :: 0 <= i < |gifts| ==> gifts[i].key.name in names
    ensures GiftsAcross(gifts, names) == |gifts|
  {
    if gifts == [] {
      GiftsAcrossNone(names);
    } else {
      GiftsAcrossStep(gifts, names);
      GiftsPartition(gifts[1..], names);
      OccursOnce(names, gifts[0].key.name);
    }
  }

  lemma {:induction false} StatsRowsSums(gifts: seq<KV<GiftKey>>, groups: seq<KV<string>>, sampleStd: seq<int> -> real)
    ensures SumOf(StatsRows(gifts, groups, sampleStd), SumColumn) == Total(groups)
    ensures SumOf(StatsRows(gifts, groups, sampleStd), CountColumn) == GiftsAcross(gifts, Keys(groups))
  {
    if groups != [] {
      StatsRowsSums(gifts, groups[1..], sampleStd);
      assert StatsRows(gifts, groups, sampleStd)[1..] == StatsRows(gifts, groups[1..], sampleStd);
      assert Keys(groups)[1..] == Keys(groups[1..]);
    }
  }

  /** The Subtotal row comes last, after the per-group lines; its Sum is the
      value of every row with a contribution id and a label, and its Count the
      number of gifts. */
  lemma SubtotalMeaning(rows: seq<Donation>, c: Column, sampleStd: seq<int> -> real)
    ensures |StatsTable(rows, c, sampleStd)| == |GroupStats(rows, c, sampleStd)| + 1
    ensures StatsTable(rows, c, sampleStd)[..|GroupStats(rows, c, sampleStd)|] == GroupStats(rows, c, sampleStd)
    ensures StatsTable(rows, c, sampleStd)[|GroupStats(rows, c, sampleStd)|].name == SubtotalLabel
    ensures StatsTable(rows, c, sampleStd)[|GroupStats(rows, c, sampleStd)|].sum
      == ValueSum(Filter(rows, Keyed(GiftKeyOf(c))))
    ensures StatsTable(rows, c, sampleStd)[|GroupStats(rows, c, sampleStd)|].count == |Gifts(rows, c)|
  {
    var gifts := Gifts(rows, c);
    var groups := GroupSum(ByLabel(gifts));
    var u := StatsRows(gifts, groups, sampleStd);
    SumOfSort(u, LargestSum, SumColumn);
    SumOfSort(u, LargestSum, CountColumn);
    StatsRowsSums(gifts, groups, sampleStd);
    ByLabelTotal(gifts);
    GiftsMeaning(rows, c);
    forall i | 0 <= i < |Keys(groups)|
      ensures forall j :: i < j < |Keys(groups)| ==> Keys(groups)[i] != Keys(groups)[j]
    {
    }
    forall i | 0 <= i < |gifts|
      ensures gifts[i].key.name in Keys(groups)
    {
      assert Keys(ByLabel(gifts))[i] == gifts[i].key.name;
    }
    GiftsPartition(gifts, Keys(groups));
  }

  /** The Subtotal's Mean and StdDev are plain column sums, as `DataFrame.sum`
      gives them: the per-group Means added up, and the defined deviations
      added up, whatever order the groups are listed in. */
  lemma SubtotalMeanAndStdDev(rows: seq<Donation>, c: Column, sampleStd: seq<int> -> real)
    ensures var gifts := Gifts(rows, c);
      var lines := StatsRows(gifts, GroupSum(ByLabel(gifts)), sampleStd);
      && Subtotal(GroupStats(rows, c, sampleStd)).mean == RealSumOf(lines, MeanColumn)
      && Subtotal(GroupStats(rows, c, sampleStd)).stdDev == Some(RealSumOf(lines, StdDevColumn))
  {
    var gifts := Gifts(rows, c);
    var lines := StatsRows(gifts, GroupSum(ByLabel(gifts)), sampleStd);
    RealSumOfSort(lines, LargestSum, MeanColumn);
    RealSumOfSort(lines, LargestSum, StdDevColumn);
  }
}
