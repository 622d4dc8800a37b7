/** Section 5 of the dashboard: the positive contributions split into the
    small and the large histogram. */
module Distribution {
  import opened Seqs
  import opened Donations

  /** The split point between the two histograms: 1000 dollars, in cents. */
  const LowCeiling: int := 1000 * 100

  function Positive(): Donation -> bool
  {
    (r: Donation) => r.designatedValue > 0
  }

  function AtMost(limit: int): Donation -> bool
  {
    (r: Donation) => r.designatedValue <= limit
  }

  function Over(limit: int): Donation -> bool
  {
    (r: Donation) => r.designatedValue > limit
  }

  /** `value_data`: zero and negative values dropped. */
  function ValueData(rows: seq<Donation>): seq<Donation>
  {
    Filter(rows, Positive())
  }

  /** `low`: the positive values of at most 1000 dollars. */
  function Low(rows: seq<Donation>): seq<Donation>
  {
    Filter(ValueData(rows), AtMost(LowCeiling))
  }

  /** `high`: the values above 1000 dollars. */
  function High(rows: seq<Donation>): seq<Donation>
  {
    Filter(ValueData(rows), Over(LowCeiling))
  }

  /** Which rows land in which bucket. */
  lemma BucketMembership(rows: seq<Donation>, r: Donation)
    ensures r in Low(rows) <==> r in rows && 0 < r.designatedValue <= LowCeiling
    ensures r in High(rows) <==> r in rows && r.designatedValue > LowCeiling
  {
    FilterMember(rows, Positive(), r);
    FilterMember(ValueData(rows), AtMost(LowCeiling), r);
    FilterMember(ValueData(rows), Over(LowCeiling), r);
  }

  /** A row of the input is in exactly one bucket when its value is positive and in none otherwise. */
  lemma ExactlyOneBucket(rows: seq<Donation>, r: Donation)
    requires r in rows
    ensures (r in Low(rows) || r in High(rows)) <==> r.designatedValue > 0
    ensures !(r in Low(rows) && r in High(rows))
  {
    BucketMembership(rows, r);
  }

  /** Counted with multiplicity, the two buckets hold every positive row as
      often as the input does, and no other row. */
  lemma BucketsPartition(rows: seq<Donation>)
    ensures forall r :: (multiset(Low(rows))[r] + multiset(High(rows))[r]
      == if r.designatedValue > 0 then multiset(rows)[r] else 0)
    ensures |Low(rows)| + |High(rows)| == |ValueData(rows)|
  {
    FilterSplit(ValueData(rows), AtMost(LowCeiling), Over(LowCeiling));
    forall r
      ensures multiset(Low(rows))[r] + multiset(High(rows))[r]
        == if r.designatedValue > 0 then multiset(rows)[r] else 0
    {
      FilterCount(rows, Positive(), r);
    }
  }

  /** Each bucket keeps the rows in their input order. */
  lemma BucketsKeepOrder(rows: seq<Donation>)
    ensures IsSubseq(Low(rows), rows)
    ensures IsSubseq(High(rows), rows)
  {
    FilterFuse(rows, Positive(), AtMost(LowCeiling));
    FilterIsSubseq(rows, Both(Positive(), AtMost(LowCeiling)));
    FilterFuse(rows, Positive(), Over(LowCeiling));
    FilterIsSubseq(rows, Both(Positive(), Over(LowCeiling)));
  }
}
