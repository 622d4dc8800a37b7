/** One row of the donations table after loading and date preparation, and
    `df.groupby(column)["designated_value"].sum()` over such rows. */
module Donations {
  import opened Wrappers
  import opened Seqs
  import opened Grouping

  type Month = m: int | 1 <= m <= 12 witness 1

  /** The `year_month` period of a row: the first of its month. */
  datatype YearMonth = YearMonth(year: int, month: Month)

  /** The month's position on the calendar; consecutive months have consecutive ordinals. */
  function Ordinal(ym: YearMonth): int
  {
    ym.year * 12 + (ym.month - 1)
  }

  lemma OrdinalInjective(a: YearMonth, b: YearMonth)
    requires Ordinal(a) == Ordinal(b)
    ensures a == b
  {
  }

  /** A designation row. `yearMonth` is None when `created_at` was coerced to NaT;
      the label columns and `CONTRIBUTION_ID` are None when the cell is empty.
      `designatedValue` is an amount in cents. The fund column keeps the
      spelling `desination_name` that the loader gives it. */
  datatype Donation = Donation(
    yearMonth: Option<YearMonth>,
    donationType: Option<string>,
    ccType: Option<string>,
    desinationName: Option<string>,
    contributionId: Option<int>,
    designatedValue: int)

  /** The text columns the dashboard filters and groups on. */
  datatype Column = DonationTypeColumn | CcTypeColumn | DesinationNameColumn

  function LabelOf(r: Donation, c: Column): Option<string>
  {
    match c
    case DonationTypeColumn => r.donationType
    case CcTypeColumn => r.ccType
    case DesinationNameColumn => r.desinationName
  }

  function DesignatedValue(r: Donation): int
  {
    r.designatedValue
  }

  /** `rows["designated_value"].sum()`. */
  function ValueSum(rows: seq<Donation>): int
  {
    SumOf(rows, DesignatedValue)
  }

  function MonthKey(r: Donation): Option<YearMonth>
  {
    r.yearMonth
  }

  function LabelKey(c: Column): Donation -> Option<string>
  {
    r => LabelOf(r, c)
  }

  /** Rows whose grouping key is `k`. */
  function KeyedAs<K(==)>(key: Donation -> Option<K>, k: K): Donation -> bool
  {
    r => key(r) == Some(k)
  }

  /** Rows whose grouping key is not null. */
  function Keyed<K>(key: Donation -> Option<K>): Donation -> bool
  {
    r => key(r).Some?
  }

  /** Rows whose grouping key is not null and satisfies `p`. */
  function KeyedWhere<K>(key: Donation -> Option<K>, p: K -> bool): Donation -> bool
  {
    r => key(r).Some? && p(key(r).value)
  }

  /** The key/value column a groupby sums: the rows with a null key are dropped
      (pandas' `dropna=True`), the others become (key, designated value). */
  function Tagged<K>(rows: seq<Donation>, key: Donation -> Option<K>): (kvs: seq<KV<K>>)
    ensures |kvs| <= |rows|
  {
    if rows == [] then []
    else match key(rows[0])
      case Some(k) => [KV(k, rows[0].designatedValue)] + Tagged(rows[1..], key)
      case None => Tagged(rows[1..], key)
  }

  /** `rows.groupby(key)["designated_value"].sum()`. */
  function GroupBy<K(==,!new)>(rows: seq<Donation>, key: Donation -> Option<K>): seq<KV<K>>
  {
    GroupSum(Tagged(rows, key))
  }

  lemma {:induction false} TaggedSumFor<K>(rows: seq<Donation>, key: Donation -> Option<K>, k: K)
    ensures SumFor(Tagged(rows, key), k) == ValueSum(Filter(rows, KeyedAs(key, k)))
  {
    if rows != [] {
      TaggedSumFor(rows[1..], key, k);
      var f := Filter(rows[1..], KeyedAs(key, k));
      if KeyedAs(key, k)(rows[0]) {
        assert ([rows[0]] + f)[1..] == f;
      }
      match key(rows[0])
      case Some(k0) =>
        assert ([KV(k0, rows[0].designatedValue)] + Tagged(rows[1..], key))[1..] == Tagged(rows[1..], key);
      case None =>
    }
  }

  lemma {:induction false} TaggedSumWhere<K>(rows: seq<Donation>, key: Donation -> Option<K>, p: K -> bool)
    ensures SumWhere(Tagged(rows, key), p) == ValueSum(Filter(rows, KeyedWhere(key, p)))
  {
    if rows != [] {
      TaggedSumWhere(rows[1..], key, p);
      var f := Filter(rows[1..], KeyedWhere(key, p));
      if KeyedWhere(key, p)(rows[0]) {
        assert ([rows[0]] + f)[1..] == f;
      }
      match key(rows[0])
      case Some(k0) =>
        assert ([KV(k0, rows[0].designatedValue)] + Tagged(rows[1..], key))[1..] == Tagged(rows[1..], key);
      case None =>
    }
  }

  lemma {:induction false} TaggedTotal<K>(rows: seq<Donation>, key: Donation -> Option<K>)
    ensures Total(Tagged(rows, key)) == ValueSum(Filter(rows, Keyed(key)))
  {
    if rows != [] {
      TaggedTotal(rows[1..], key);
      var f := Filter(rows[1..], Keyed(key));
      if Keyed(key)(rows[0]) {
        assert ([rows[0]] + f)[1..] == f;
      }
      match key(rows[0])
      case Some(k0) =>
        assert ([KV(k0, rows[0].designatedValue)] + Tagged(rows[1..], key))[1..] == Tagged(rows[1..], key);
      case None =>
    }
  }

  lemma {:induction false} TaggedKeys<K>(rows: seq<Donation>, key: Donation -> Option<K>, k: K)
    ensures k in Keys(Tagged(rows, key)) <==> Filter(rows, KeyedAs(key, k)) != []
  {
    if rows != [] {
      TaggedKeys(rows[1..], key, k);
      match key(rows[0])
      case Some(k0) =>
        assert Keys([KV(k0, rows[0].designatedValue)] + Tagged(rows[1..], key))
          == [k0] + Keys(Tagged(rows[1..], key));
      case None =>
    }
  }

  /** What a groupby-sum over donation rows holds: one entry per key that some
      row carries, each with the total of exactly those rows, and all entries
      together with the total of the rows whose key is not null. */
  lemma GroupByMeaning<K(!new)>(rows: seq<Donation>, key: Donation -> Option<K>)
    ensures DistinctKeys(GroupBy(rows, key))
    ensures forall k :: k in Keys(GroupBy(rows, key)) <==> Filter(rows, KeyedAs(key, k)) != []
    ensures forall i :: 0 <= i < |GroupBy(rows, key)| ==>
      GroupBy(rows, key)[i].value == ValueSum(Filter(rows, KeyedAs(key, GroupBy(rows, key)[i].key)))
    ensures Total(GroupBy(rows, key)) == ValueSum(Filter(rows, Keyed(key)))
  {
    var g := GroupBy(rows, key);
    forall k
      ensures k in Keys(g) <==> Filter(rows, KeyedAs(key, k)) != []
    {
      TaggedKeys(rows, key, k);
    }
    forall i | 0 <= i < |g|
      ensures g[i].value == ValueSum(Filter(rows, KeyedAs(key, g[i].key)))
    {
      GroupSumEntry(Tagged(rows, key), i);
      TaggedSumFor(rows, key, g[i].key);
    }
    TaggedTotal(rows, key);
  }
}
