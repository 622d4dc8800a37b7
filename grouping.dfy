/** `Series.groupby(...).sum()`: a keyed column collapsed to one total per key. */
module Grouping {
  import opened Seqs

  /** One row of a keyed numeric column: a key and an amount in cents. */
  datatype KV<K> = KV(key: K, value: int)

  function Amount<K>(kv: KV<K>): int
  {
    kv.value
  }

  /** The column sum of the amounts. */
  function Total<K>(kvs: seq<KV<K>>): int
  {
    SumOf(kvs, Amount<K>)
  }

  /** The keys in row order. */
  function Keys<K>(kvs: seq<KV<K>>): (ks: seq<K>)
    ensures |ks| == |kvs|
    ensures forall i :: 0 <= i < |kvs| ==> ks[i] == kvs[i].key
  {
    if kvs == [] then [] else [kvs[0].key] + Keys(kvs[1..])
  }

  /** No key occurs on two rows. */
  predicate DistinctKeys<K(==)>(kvs: seq<KV<K>>)
  {
    forall i, j :: 0 <= i < j < |kvs| ==> kvs[i].key != kvs[j].key
  }

  /** The sum of the amounts of the rows whose key satisfies `p`. */
  function SumWhere<K>(kvs: seq<KV<K>>, p: K -> bool): int
  {
    if kvs == [] then 0
    else (if p(kvs[0].key) then kvs[0].value else 0) + SumWhere(kvs[1..], p)
  }

  /** The sum of the amounts of the rows with key `k`. */
  function SumFor<K(==)>(kvs: seq<KV<K>>, k: K): int
  {
    if kvs == [] then 0
    else (if kvs[0].key == k then kvs[0].value else 0) + SumFor(kvs[1..], k)
  }

  /** Adds one row to a table of running totals: into the entry with its key, or as a new entry. */
  function Accumulate<K(==,!new)>(acc: seq<KV<K>>, x: KV<K>): (r: seq<KV<K>>)
    ensures forall k :: k in Keys(r) <==> k in Keys(acc) || k == x.key
    ensures DistinctKeys(acc) ==> DistinctKeys(r)
  {
    if acc == [] then [x]
    else if acc[0].key == x.key then
      assert Keys(acc) == [acc[0].key] + Keys(acc[1..]);
      assert Keys([KV(x.key, acc[0].value + x.value)] + acc[1..]) == [x.key] + Keys(acc[1..]);
      [KV(x.key, acc[0].value + x.value)] + acc[1..]
    else
      var t := Accumulate(acc[1..], x);
      assert Keys(acc) == [acc[0].key] + Keys(acc[1..]);
      assert Keys([acc[0]] + t) == [acc[0].key] + Keys(t);
      assert DistinctKeys(acc) ==> acc[0].key !in Keys(acc[1..]);
      assert forall j :: 0 <= j < |t| ==> t[j].key in Keys(t);
      [acc[0]] + t
  }

  lemma {:induction false} AccumulateSumFor<K(!new)>(acc: seq<KV<K>>, x: KV<K>)
    ensures forall k :: SumFor(Accumulate(acc, x), k) == SumFor(acc, k) + (if k == x.key then x.value else 0)
    ensures Total(Accumulate(acc, x)) == Total(acc) + x.value
  {
    if acc != [] {
      if acc[0].key == x.key {
        assert ([KV(x.key, acc[0].value + x.value)] + acc[1..])[1..] == acc[1..];
      } else {
        AccumulateSumFor(acc[1..], x);
        assert ([acc[0]] + Accumulate(acc[1..], x))[1..] == Accumulate(acc[1..], x);
      }
    }
  }

  /** One entry per distinct key, holding the sum of that key's amounts. */
  function GroupSum<K(==,!new)>(kvs: seq<KV<K>>): (r: seq<KV<K>>)
    ensures DistinctKeys(r)
    ensures forall k :: k in Keys(r) <==> k in Keys(kvs)
    ensures forall k :: SumFor(r, k) == SumFor(kvs, k)
    ensures Total(r) == Total(kvs)
  {
    if kvs == [] then []
    else
      assert Keys(kvs) == [kvs[0].key] + Keys(kvs[1..]);
      AccumulateSumFor(GroupSum(kvs[1..]), kvs[0]);
      Accumulate(GroupSum(kvs[1..]), kvs[0])
  }

  lemma {:induction false} AccumulateSumWhere<K(!new)>(acc: seq<KV<K>>, x: KV<K>, p: K -> bool)
    ensures SumWhere(Accumulate(acc, x), p) == SumWhere(acc, p) + (if p(x.key) then x.value else 0)
  {
    if acc != [] && acc[0].key != x.key {
      AccumulateSumWhere(acc[1..], x, p);
      assert ([acc[0]] + Accumulate(acc[1..], x))[1..] == Accumulate(acc[1..], x);
    }
  }

  /** Grouping by a finer key and then summing over any set of keys gives the same sum
      as summing the ungrouped rows: regrouping on a coarser key loses nothing. */
  lemma {:induction false} GroupSumSumWhere<K(!new)>(kvs: seq<KV<K>>, p: K -> bool)
    ensures SumWhere(GroupSum(kvs), p) == SumWhere(kvs, p)
  {
    if kvs != [] {
      GroupSumSumWhere(kvs[1..], p);
      AccumulateSumWhere(GroupSum(kvs[1..]), kvs[0], p);
    }
  }

  /** In a table with distinct keys the amount on a row is the sum for its key. */
  lemma {:induction false} DistinctEntry<K>(kvs: seq<KV<K>>, i: nat)
    requires DistinctKeys(kvs) && i < |kvs|
    ensures kvs[i].value == SumFor(kvs, kvs[i].key)
  {
    if i == 0 {
      assert kvs[i].key !in Keys(kvs[1..]);
      SumForAbsent(kvs[1..], kvs[i].key);
    } else {
      DistinctEntry(kvs[1..], i - 1);
    }
  }

  lemma {:induction false} SumForAbsent<K>(kvs: seq<KV<K>>, k: K)
    requires k !in Keys(kvs)
    ensures SumFor(kvs, k) == 0
  {
    if kvs != [] {
      assert Keys(kvs) == [kvs[0].key] + Keys(kvs[1..]);
      SumForAbsent(kvs[1..], k);
    }
  }

  /** Each entry of a grouped sum carries the sum of the input amounts for its key. */
  lemma GroupSumEntry<K(!new)>(kvs: seq<KV<K>>, i: nat)
    requires i < |GroupSum(kvs)|
    ensures GroupSum(kvs)[i].value == SumFor(kvs, GroupSum(kvs)[i].key)
  {
    DistinctEntry(GroupSum(kvs), i);
  }

  /** Reordering the entries of a table does not change its key set. */
  lemma PermutedKeys<K>(a: seq<KV<K>>, b: seq<KV<K>>, k: K)
    requires multiset(a) == multiset(b)
    ensures k in Keys(a) <==> k in Keys(b)
  {
    if k in Keys(a) {
      var i :| 0 <= i < |a| && Keys(a)[i] == k;
      assert a[i] in multiset(b);
      var j :| 0 <= j < |b| && b[j] == a[i];
      assert Keys(b)[j] == k;
    }
    if k in Keys(b) {
      var j :| 0 <= j < |b| && Keys(b)[j] == k;
      assert b[j] in multiset(a);
      var i :| 0 <= i < |a| && a[i] == b[j];
      assert Keys(a)[i] == k;
    }
  }

  function KeyOf<K>(kv: KV<K>): K
  {
    kv.key
  }

  /** Reordering a table with distinct keys by any rank leaves its keys distinct. */
  lemma SortedDistinctKeys<K>(kvs: seq<KV<K>>, rank: KV<K> -> int)
    requires DistinctKeys(kvs)
    ensures DistinctKeys(SortBy(kvs, rank))
  {
    SortDistinctBy(kvs, rank, KeyOf<K>);
  }
}
