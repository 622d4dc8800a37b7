/** Generic sequence operations that stand in for the pandas primitives the
    dashboard chains together: boolean masks, column sums and sort_values. */
module Seqs {

  /** The sum of `f` over the elements of `s` (a column `.sum()`). */
  function SumOf<T>(s: seq<T>, f: T -> int): int
  {
    if s == [] then 0 else f(s[0]) + SumOf(s[1..], f)
  }

  /** The same sum for a real-valued column. */
  function RealSumOf<T>(s: seq<T>, f: T -> real): real
  {
    if s == [] then 0.0 else f(s[0]) + RealSumOf(s[1..], f)
  }

  lemma {:induction false} SumOfConstant<T>(s: seq<T>, f: T -> int, c: int)
    requires forall i :: 0 <= i < |s| ==> f(s[i]) == c
    ensures SumOf(s, f) == |s| * c
  {
    if s != [] {
      SumOfConstant(s[1..], f, c);
    }
  }

  /** Both predicates at once: the mask `m1 & m2`. */
  function Both<T>(p: T -> bool, q: T -> bool): T -> bool
  {
    x => p(x) && q(x)
  }

  /** The elements of `s` that satisfy `p`, in their original order
      (indexing a frame with a boolean mask). */
  function Filter<T(==)>(s: seq<T>, p: T -> bool): (r: seq<T>)
    ensures |r| <= |s|
    ensures forall i :: 0 <= i < |r| ==> r[i] in s && p(r[i])
    ensures forall i :: 0 <= i < |s| && p(s[i]) ==> s[i] in r
  {
    if s == [] then []
    else if p(s[0]) then [s[0]] + Filter(s[1..], p)
    else Filter(s[1..], p)
  }

  /** A mask keeps a strictly increasing sequence strictly increasing. */
  lemma {:induction false} FilterKeepsStrictOrder<T>(s: seq<T>, p: T -> bool, rank: T -> int)
    requires StrictlySortedBy(s, rank)
    ensures StrictlySortedBy(Filter(s, p), rank)
  {
    if s != [] {
      FilterKeepsStrictOrder(s[1..], p, rank);
      var t := Filter(s[1..], p);
      forall k | 0 <= k < |t|
        ensures rank(s[0]) < rank(t[k])
      {
        var j :| 0 <= j < |s[1..]| && s[1..][j] == t[k];
        assert s[j + 1] == t[k];
      }
    }
  }

  /** `a` is `b` with some elements deleted, the others kept in order. */
  predicate IsSubseq<T(==)>(a: seq<T>, b: seq<T>)
    decreases |b|
  {
    if b == [] then a == []
    else (a != [] && a[0] == b[0] && IsSubseq(a[1..], b[1..])) || IsSubseq(a, b[1..])
  }

  lemma {:induction false} FilterIsSubseq<T>(s: seq<T>, p: T -> bool)
    ensures IsSubseq(Filter(s, p), s)
  {
    if s != [] {
      FilterIsSubseq(s[1..], p);
      if p(s[0]) {
        assert Filter(s, p)[1..] == Filter(s[1..], p);
      }
    }
  }

  /** A mask keeps every copy of a selected element and no copy of another. */
  lemma {:induction false} FilterCount<T>(s: seq<T>, p: T -> bool, x: T)
    ensures multiset(Filter(s, p))[x] == if p(x) then multiset(s)[x] else 0
  {
    if s != [] {
      FilterCount(s[1..], p, x);
      assert s == [s[0]] + s[1..];
    }
  }

  lemma FilterMember<T>(s: seq<T>, p: T -> bool, x: T)
    ensures x in Filter(s, p) <==> x in s && p(x)
  {
    FilterCount(s, p, x);
    assert x in s <==> x in multiset(s);
    assert x in Filter(s, p) <==> x in multiset(Filter(s, p));
  }

  lemma {:induction false} EmptyIsSubseq<T>(s: seq<T>)
    ensures IsSubseq([], s)
  {
    if s != [] {
      EmptyIsSubseq(s[1..]);
    }
  }

  lemma {:induction false} FilterAll<T>(s: seq<T>, p: T -> bool)
    requires forall x :: x in s ==> p(x)
    ensures Filter(s, p) == s
  {
    if s != [] {
      FilterAll(s[1..], p);
      assert s == [s[0]] + s[1..];
    }
  }

  lemma {:induction false} FilterNone<T>(s: seq<T>, p: T -> bool)
    requires forall x :: x in s ==> !p(x)
    ensures Filter(s, p) == []
  {
    if s != [] {
      FilterNone(s[1..], p);
    }
  }

  /** Masking twice in succession is masking once with the conjunction. */
  lemma {:induction false} FilterFuse<T>(s: seq<T>, p: T -> bool, q: T -> bool)
    ensures Filter(Filter(s, p), q) == Filter(s, Both(p, q))
  {
    if s != [] {
      FilterFuse(s[1..], p, q);
      if p(s[0]) {
        assert Filter(s, p)[1..] == Filter(s[1..], p);
      }
    }
  }

  lemma FilterIdempotent<T>(s: seq<T>, p: T -> bool)
    ensures Filter(Filter(s, p), p) == Filter(s, p)
  {
    FilterAll(Filter(s, p), p);
  }

  /** Two complementary masks split `s` into two parts that together hold every element. */
  lemma {:induction false} FilterSplit<T>(s: seq<T>, p: T -> bool, q: T -> bool)
    requires forall x :: x in s ==> (p(x) <==> !q(x))
    ensures multiset(Filter(s, p)) + multiset(Filter(s, q)) == multiset(s)
    ensures |Filter(s, p)| + |Filter(s, q)| == |s|
  {
    if s != [] {
      FilterSplit(s[1..], p, q);
      assert s == [s[0]] + s[1..];
    }
  }

  /** `rank` is non-decreasing along `s`. */
  predicate SortedBy<T>(s: seq<T>, rank: T -> int)
  {
    forall i, j :: 0 <= i < j < |s| ==> rank(s[i]) <= rank(s[j])
  }

  /** `rank` is strictly increasing along `s`. */
  predicate StrictlySortedBy<T>(s: seq<T>, rank: T -> int)
  {
    forall i, j :: 0 <= i < j < |s| ==> rank(s[i]) < rank(s[j])
  }

  /** No two positions of `s` agree on `f`. */
  predicate DistinctBy<T, U(==)>(s: seq<T>, f: T -> U)
  {
    forall i, j :: 0 <= i < j < |s| ==> f(s[i]) != f(s[j])
  }

  /** Inserts `x` before the first element whose rank is not smaller. */
  function Insert<T(==)>(x: T, s: seq<T>, rank: T -> int): (r: seq<T>)
    ensures |r| == |s| + 1
    ensures multiset(r) == multiset(s) + multiset{x}
    ensures forall i :: 0 <= i < |r| ==> r[i] == x || r[i] in s
  {
    if s == [] || rank(x) <= rank(s[0]) then [x] + s
    else
      assert s == [s[0]] + s[1..];
      [s[0]] + Insert(x, s[1..], rank)
  }

  lemma {:induction false} InsertSorted<T>(x: T, s: seq<T>, rank: T -> int)
    requires SortedBy(s, rank)
    ensures SortedBy(Insert(x, s, rank), rank)
  {
    if s != [] && rank(x) > rank(s[0]) {
      InsertSorted(x, s[1..], rank);
      var t := Insert(x, s[1..], rank);
      forall k | 0 <= k < |t|
        ensures rank(s[0]) <= rank(t[k])
      {
        if t[k] != x {
          var j :| 0 <= j < |s[1..]| && s[1..][j] == t[k];
          assert s[j + 1] == t[k];
        }
      }
    }
  }

  /** Insertion sort on `rank`, ascending (one of the orders a quicksort may return). */
  function SortBy<T(==)>(s: seq<T>, rank: T -> int): (r: seq<T>)
    ensures |r| == |s|
    ensures multiset(r) == multiset(s)
    ensures forall i :: 0 <= i < |r| ==> r[i] in s
    ensures SortedBy(r, rank)
  {
    if s == [] then []
    else
      assert s == [s[0]] + s[1..];
      InsertSorted(s[0], SortBy(s[1..], rank), rank);
      Insert(s[0], SortBy(s[1..], rank), rank)
  }

  lemma {:induction false} InsertStrict<T>(x: T, s: seq<T>, rank: T -> int)
    requires StrictlySortedBy(s, rank)
    requires forall y :: y in s ==> rank(y) != rank(x)
    ensures StrictlySortedBy(Insert(x, s, rank), rank)
  {
    if s != [] && rank(x) > rank(s[0]) {
      InsertStrict(x, s[1..], rank);
      var t := Insert(x, s[1..], rank);
      assert forall k :: 0 <= k < |t| ==> t[k] in t;
    }
  }

  /** Sorting a sequence whose ranks are pairwise different leaves them strictly increasing. */
  lemma {:induction false} SortStrict<T>(s: seq<T>, rank: T -> int)
    requires DistinctBy(s, rank)
    ensures StrictlySortedBy(SortBy(s, rank), rank)
  {
    if s != [] {
      SortStrict(s[1..], rank);
      forall y | y in SortBy(s[1..], rank)
        ensures rank(y) != rank(s[0])
      {
        var k :| 1 <= k < |s| && s[k] == y;
      }
      InsertStrict(s[0], SortBy(s[1..], rank), rank);
    }
  }

  lemma {:induction false} InsertDistinctBy<T, U>(x: T, s: seq<T>, rank: T -> int, f: T -> U)
    requires DistinctBy(s, f)
    requires forall i :: 0 <= i < |s| ==> f(s[i]) != f(x)
    ensures DistinctBy(Insert(x, s, rank), f)
  {
    if s != [] && rank(x) > rank(s[0]) {
      InsertDistinctBy(x, s[1..], rank, f);
      var t := Insert(x, s[1..], rank);
      forall k | 0 <= k < |t|
        ensures f(s[0]) != f(t[k])
      {
        if t[k] != x {
          var j :| 0 <= j < |s[1..]| && s[1..][j] == t[k];
          assert s[j + 1] == t[k];
        }
      }
    }
  }

  /** Sorting keeps a sequence free of repeated `f`-values. */
  lemma {:induction false} SortDistinctBy<T, U>(s: seq<T>, rank: T -> int, f: T -> U)
    requires DistinctBy(s, f)
    ensures DistinctBy(SortBy(s, rank), f)
  {
    if s != [] {
      SortDistinctBy(s[1..], rank, f);
      var t := SortBy(s[1..], rank);
      forall i | 0 <= i < |t|
        ensures f(t[i]) != f(s[0])
      {
        var k :| 0 <= k < |s[1..]| && s[1..][k] == t[i];
        assert s[k + 1] == t[i];
      }
      InsertDistinctBy(s[0], t, rank, f);
    }
  }

  lemma {:induction false} SumOfInsert<T>(x: T, s: seq<T>, rank: T -> int, f: T -> int)
    ensures SumOf(Insert(x, s, rank), f) == f(x) + SumOf(s, f)
  {
    if s != [] && rank(x) > rank(s[0]) {
      SumOfInsert(x, s[1..], rank, f);
      assert ([s[0]] + Insert(x, s[1..], rank))[1..] == Insert(x, s[1..], rank);
    } else {
      assert ([x] + s)[1..] == s;
    }
  }

  /** Sorting does not change a column sum. */
  lemma {:induction false} SumOfSort<T>(s: seq<T>, rank: T -> int, f: T -> int)
    ensures SumOf(SortBy(s, rank), f) == SumOf(s, f)
  {
    if s != [] {
      SumOfSort(s[1..], rank, f);
      SumOfInsert(s[0], SortBy(s[1..], rank), rank, f);
    }
  }

  lemma {:induction false} RealSumOfInsert<T>(x: T, s: seq<T>, rank: T -> int, f: T -> real)
    ensures RealSumOf(Insert(x, s, rank), f) == f(x) + RealSumOf(s, f)
  {
    if s != [] && rank(x) > rank(s[0]) {
      RealSumOfInsert(x, s[1..], rank, f);
      assert ([s[0]] + Insert(x, s[1..], rank))[1..] == Insert(x, s[1..], rank);
    } else {
      assert ([x] + s)[1..] == s;
    }
  }

  lemma {:induction false} RealSumOfSort<T>(s: seq<T>, rank: T -> int, f: T -> real)
    ensures RealSumOf(SortBy(s, rank), f) == RealSumOf(s, f)
  {
    if s != [] {
      RealSumOfSort(s[1..], rank, f);
      RealSumOfInsert(s[0], SortBy(s[1..], rank), rank, f);
    }
  }

  /** No element occurs twice. */
  predicate Distinct<T(==)>(s: seq<T>)
  {
    forall i, j :: 0 <= i < j < |s| ==> s[i] != s[j]
  }

  /** A sequence without repetitions has as many elements as its set. */
  lemma {:induction false} DistinctCardinality<T>(s: seq<T>)
    requires Distinct(s)
    ensures |set x | x in s| == |s|
  {
    if s != [] {
      DistinctCardinality(s[1..]);
      assert (set x | x in s) == (set x | x in s[1..]) + {s[0]};
      assert s[0] !in (set x | x in s[1..]);
    }
  }
}
