/**
 * `median`: the column is sorted, its effective size s (entries other than the
 * sentinel) is counted, and one pass over every position adds each entry into two
 * accumulators weighted by secret indicators, so that no entry is ever selected by a
 * secret index.  The sort itself is an external oblivious sorting network; here it is
 * a plain insertion sort whose only promise is "sorted permutation".
 */
module Median {
  import opened Sentinel

  predicate IsSorted(s: seq<real>)
  {
    forall i, j :: 0 <= i < j < |s| ==> s[i] <= s[j]
  }

  /** x placed before the first entry of s that is not below it. */
  function Insert(x: real, s: seq<real>): (r: seq<real>)
    ensures |r| == |s| + 1
  {
    if s == [] then [x]
    else if x <= s[0] then [x] + s
    else [s[0]] + Insert(x, s[1..])
  }

  /** Inserting into a sorted sequence keeps it sorted and adds exactly x. */
  lemma {:induction false} InsertSorted(x: real, s: seq<real>)
    requires IsSorted(s)
    ensures IsSorted(Insert(x, s))
    ensures multiset(Insert(x, s)) == multiset(s) + multiset{x}
  {
    if s == [] {
    } else if x <= s[0] {
      PrependSorted(x, s);
    } else {
      SortedTail(s);
      InsertSorted(x, s[1..]);
      var rest := Insert(x, s[1..]);
      HeadBelowInsert(s, x, rest);
      PrependSorted(s[0], rest);
    }
  }

  /** A value no larger than every entry of a sorted sequence can go in front of it. */
  lemma {:induction false} PrependSorted(y: real, t: seq<real>)
    requires IsSorted(t) && forall k :: 0 <= k < |t| ==> y <= t[k]
    ensures IsSorted([y] + t)
  {
  }

  /** Inserting a larger value into the tail keeps the head below every entry. */
  lemma {:induction false} HeadBelowInsert(s: seq<real>, x: real, rest: seq<real>)
    requires IsSorted(s) && s != [] && s[0] < x
    requires multiset(rest) == multiset(s[1..]) + multiset{x}
    ensures forall k :: 0 <= k < |rest| ==> s[0] <= rest[k]
    ensures multiset([s[0]] + rest) == multiset(s) + multiset{x}
  {
    assert s == [s[0]] + s[1..];
    forall k | 0 <= k < |rest|
      ensures s[0] <= rest[k]
    {
      assert rest[k] in multiset(rest);
      if rest[k] != x {
        assert rest[k] in multiset(s[1..]);
      }
    }
  }

  /** The sorting network, abstracted as insertion sort. */
  function Sort(s: seq<real>): (r: seq<real>)
    ensures |r| == |s|
  {
    if s == [] then [] else Insert(s[0], Sort(s[1..]))
  }

  /** The sort yields an ascending permutation of the column. */
  lemma {:induction false} SortSorts(s: seq<real>)
    ensures IsSorted(Sort(s))
    ensures multiset(Sort(s)) == multiset(s)
  {
    if s != [] {
      SortSorts(s[1..]);
      InsertSorted(s[0], Sort(s[1..]));
      assert s == [s[0]] + s[1..];
    }
  }

  lemma {:induction false} SortedHeadIsLeast(s: seq<real>, x: real)
    requires IsSorted(s) && x in multiset(s)
    ensures s[0] <= x
  {
    var i :| 0 <= i < |s| && s[i] == x;
  }

  lemma {:induction false} SortedTail(s: seq<real>)
    requires IsSorted(s) && s != []
    ensures IsSorted(s[1..])
    ensures multiset(s[1..]) == multiset(s) - multiset{s[0]}
  {
    assert s == [s[0]] + s[1..];
  }

  /** A sorted permutation is unique, so any sort the circuit uses gives this result. */
  lemma {:induction false} SortedUnique(a: seq<real>, b: seq<real>)
    requires IsSorted(a) && IsSorted(b) && multiset(a) == multiset(b)
    ensures a == b
    decreases |a|
  {
    assert |a| == |multiset(a)| == |multiset(b)| == |b|;
    if a != [] {
      assert a[0] == b[0] by {
        assert a[0] in multiset(a) && b[0] in multiset(b);
        SortedHeadIsLeast(a, b[0]);
        SortedHeadIsLeast(b, a[0]);
      }
      assert a[1..] == b[1..] by {
        SortedTail(a);
        SortedTail(b);
        SortedUnique(a[1..], b[1..]);
      }
      assert a == [a[0]] + a[1..] && b == [b[0]] + b[1..];
    }
  }

  /** The value the indicator sums pick out of a sorted column whose first s entries
      are the genuine ones: the middle entry for odd s, the average of the two middle
      entries for even s >= 2.  With s = 0 the even accumulator still picks up half of
      the first entry. */
  function MedianOfSorted(sorted: seq<real>, s: nat): real
    requires s <= |sorted|
  {
    if s % 2 == 1 then sorted[(s - 1) / 2]
    else if s >= 2 then (sorted[s / 2 - 1] + sorted[s / 2]) / 2.0
    else if sorted != [] then sorted[0] / 2.0
    else 0.0
  }

  /** statistics.median on a plain list; it refuses an empty list. */
  function PlainMedian(xs: seq<real>): Option<real>
  {
    if xs == [] then None else Some(MedianOfSorted(Sort(xs), |xs|))
  }

  /** A secret comparison used as a 0/1 factor. */
  function Indicator(b: bool): real
  {
    if b then 1.0 else 0.0
  }

  /** The accumulation loop of `median`: at every position i, median_odd gains
      [size == 2i + size%2] * x and median_even gains half of that plus
      [size - 2 == 2i + size%2] * x / 2, so only the middle positions contribute. */
  method MiddleSums(sorted: seq<real>, size: nat) returns (medianOdd: real, medianEven: real)
    ensures medianOdd == if size / 2 < |sorted| then sorted[size / 2] else 0.0
    ensures medianEven == (if size / 2 < |sorted| then sorted[size / 2] / 2.0 else 0.0)
                        + (if 1 <= size / 2 <= |sorted| then sorted[size / 2 - 1] / 2.0 else 0.0)
  {
    var parity := size % 2;
    ghost var half := size / 2;
    assert size == 2 * half + parity;
    medianOdd, medianEven := 0.0, 0.0;
    for i := 0 to |sorted|
      invariant medianOdd == if half < i then sorted[half] else 0.0
      invariant medianEven == (if half < i then sorted[half] / 2.0 else 0.0)
                            + (if 1 <= half <= i then sorted[half - 1] / 2.0 else 0.0)
    {
      var atUpper := Indicator(size == 2 * i + parity);
      var atLower := Indicator(size - 2 == 2 * i + parity);
      assert atUpper == if i == half then 1.0 else 0.0;
      assert atLower == if i == half - 1 then 1.0 else 0.0;
      medianOdd := medianOdd + Mul(atUpper, sorted[i]);
      medianEven := medianEven + Mul(atUpper, sorted[i]) / 2.0 + Mul(atLower, sorted[i]) / 2.0;
    }
  }

  /** `median`: sort, count, accumulate the middle entries, then select by the parity
      of the count. */
  method Median(data: seq<real>) returns (r: real)
    ensures r == MedianOfSorted(Sort(data), Count(data))
  {
    var sorted := Sort(data);
    var size := Count(sorted);
    var medianOdd, medianEven := MiddleSums(sorted, size);
    var parity := size % 2;
    r := Mul(parity as real, medianOdd) + Mul(1.0 - parity as real, medianEven);
    MedianSelected(data, size, medianOdd, medianEven);
  }

  /** Sorting keeps the effective size, so the selection picks the median of the
      sorted column's genuine prefix. */
  lemma {:induction false} MedianSelected(data: seq<real>, size: nat, medianOdd: real, medianEven: real)
    requires size == Count(Sort(data))
    requires var sorted := Sort(data);
             medianOdd == (if size / 2 < |sorted| then sorted[size / 2] else 0.0)
             && medianEven == (if size / 2 < |sorted| then sorted[size / 2] / 2.0 else 0.0)
                              + (if 1 <= size / 2 <= |sorted| then sorted[size / 2 - 1] / 2.0 else 0.0)
    ensures Mul((size % 2) as real, medianOdd) + Mul(1.0 - (size % 2) as real, medianEven)
         == MedianOfSorted(Sort(data), Count(data))
  {
    SortSorts(data);
    CountOfPermutation(data, Sort(data));
    SelectByParity(Sort(data), size, medianOdd, medianEven);
  }

  /** The final selection (size%2) * median_odd + (1 - size%2) * median_even is the
      median of the sorted column's first `size` entries. */
  lemma {:induction false} SelectByParity(sorted: seq<real>, size: nat, medianOdd: real, medianEven: real)
    requires size <= |sorted|
    requires medianOdd == if size / 2 < |sorted| then sorted[size / 2] else 0.0
    requires medianEven == (if size / 2 < |sorted| then sorted[size / 2] / 2.0 else 0.0)
                         + (if 1 <= size / 2 <= |sorted| then sorted[size / 2 - 1] / 2.0 else 0.0)
    ensures Mul((size % 2) as real, medianOdd) + Mul(1.0 - (size % 2) as real, medianEven)
         == MedianOfSorted(sorted, size)
  {
    var half := size / 2;
    assert size == 2 * half + size % 2;
    if size % 2 == 1 {
      assert (size - 1) / 2 == half;
      assert Mul(1.0, medianOdd) == medianOdd && Mul(0.0, medianEven) == 0.0;
    } else {
      assert Mul(0.0, medianOdd) == 0.0 && Mul(1.0, medianEven) == medianEven;
    }
  }

  /** The sentinel sorts last when every genuine entry is below it. */
  predicate BelowSentinel(data: seq<real>)
  {
    forall i :: 0 <= i < |data| && data[i] != SENTINEL ==> data[i] < SENTINEL
  }

  function Sentinels(k: nat): (r: seq<real>)
    ensures |r| == k
    ensures forall i :: 0 <= i < k ==> r[i] == SENTINEL
  {
    if k == 0 then [] else Sentinels(k - 1) + [SENTINEL]
  }

  lemma {:induction false} SentinelsMultiset(k: nat)
    ensures multiset(Sentinels(k)) == multiset{}[SENTINEL := k]
  {
    if k > 0 {
      SentinelsMultiset(k - 1);
    }
  }

  /** Every entry is below the sentinel. */
  predicate AllBelowSentinel(s: seq<real>)
  {
    forall i :: 0 <= i < |s| ==> s[i] < SENTINEL
  }

  lemma {:induction false} PermutationBelowSentinel(a: seq<real>, b: seq<real>)
    requires AllBelowSentinel(a) && multiset(a) == multiset(b)
    ensures AllBelowSentinel(b)
  {
    forall i | 0 <= i < |b|
      ensures b[i] < SENTINEL
    {
      assert b[i] in multiset(a);
      var j :| 0 <= j < |a| && a[j] == b[i];
    }
  }

  lemma {:induction false} SortedThenSentinels(u: seq<real>, k: nat)
    requires IsSorted(u) && AllBelowSentinel(u)
    ensures IsSorted(u + Sentinels(k))
  {
    var t := u + Sentinels(k);
    forall i, j | 0 <= i < j < |t|
      ensures t[i] <= t[j]
    {
      if j < |u| {
        assert t[i] == u[i] && t[j] == u[j];
      } else if i < |u| {
        assert t[i] == u[i];
      }
    }
  }

  /** The genuine entries and the sentinels make up the column. */
  lemma {:induction false} GenuineAndSentinels(data: seq<real>)
    ensures multiset(Genuine(data)) + multiset(Sentinels(|data| - Count(data))) == multiset(data)
  {
    CountComplement(data);
    GenuineEntries(data);
    SentinelsMultiset(|data| - Count(data));
  }

  lemma {:induction false} GenuineBelowSentinel(data: seq<real>)
    requires BelowSentinel(data)
    ensures AllBelowSentinel(Genuine(data))
  {
    var g := Genuine(data);
    GenuineEntries(data);
    forall i | 0 <= i < |g|
      ensures g[i] < SENTINEL
    {
      assert g[i] in multiset(g);
      assert g[i] in multiset(data);
      var j :| 0 <= j < |data| && data[j] == g[i];
    }
  }

  /** Sorting a column whose genuine entries are below the sentinel gives the sorted
      genuine entries followed by the sentinels. */
  lemma {:induction false} SortPutsSentinelsLast(data: seq<real>)
    requires BelowSentinel(data)
    ensures Count(data) == |Genuine(data)|
    ensures Sort(data) == Sort(Genuine(data)) + Sentinels(|data| - Count(data))
  {
    GenuineBelowSentinel(data);
    GenuineAndSentinels(data);
    SortOfGenuineAndSentinels(data, Genuine(data), |data| - Count(data));
  }

  lemma {:induction false} SortOfGenuineAndSentinels(data: seq<real>, g: seq<real>, k: nat)
    requires AllBelowSentinel(g) && multiset(g) + multiset(Sentinels(k)) == multiset(data)
    ensures Sort(data) == Sort(g) + Sentinels(k)
  {
    SortSorts(g);
    SortOfSortedSplit(data, g, Sort(g), k);
  }

  /** A sorted sequence of values below the sentinel, followed by k sentinels, is the
      sort of any column holding the same entries. */
  lemma {:induction false} SortOfSortedSplit(data: seq<real>, g: seq<real>, u: seq<real>, k: nat)
    requires IsSorted(u) && multiset(u) == multiset(g) && AllBelowSentinel(g)
    requires multiset(g) + multiset(Sentinels(k)) == multiset(data)
    ensures Sort(data) == u + Sentinels(k)
  {
    PermutationBelowSentinel(g, u);
    SortedThenSentinels(u, k);
    assert multiset(u + Sentinels(k)) == multiset(u) + multiset(Sentinels(k));
    SortIsTheSortedPermutation(data, u + Sentinels(k));
  }

  /** The sort's result is the one sorted permutation of its input. */
  lemma {:induction false} SortIsTheSortedPermutation(s: seq<real>, t: seq<real>)
    requires IsSorted(t) && multiset(t) == multiset(s)
    ensures Sort(s) == t
  {
    SortSorts(s);
    SortedUnique(Sort(s), t);
  }

  /** Entries after the first s do not affect the median of the first s. */
  lemma {:induction false} MedianOfPrefix(b: seq<real>, c: seq<real>)
    requires b != []
    ensures MedianOfSorted(b + c, |b|) == MedianOfSorted(b, |b|)
  {
    var s := |b|;
    assert forall i :: 0 <= i < s ==> (b + c)[i] == b[i];
  }

  /** With genuine entries below the sentinel and at least one of them, the circuit's
      median is statistics.median of the sentinel-filtered column. */
  lemma {:induction false} MedianMatchesPlain(data: seq<real>)
    requires BelowSentinel(data) && Count(data) >= 1
    ensures Some(MedianOfSorted(Sort(data), Count(data))) == PlainMedian(Genuine(data))
  {
    SortPutsSentinelsLast(data);
    MedianOfPrefix(Sort(Genuine(data)), Sentinels(|data| - Count(data)));
  }

  /** The even-size example of the test suite: whichever sorted permutation the
      network produces for [170, 160, 152, 180], the median is 165. */
  lemma {:induction false} MedianExample(sorted: seq<real>)
    requires IsSorted(sorted) && multiset(sorted) == multiset([170.0, 160.0, 152.0, 180.0])
    ensures MedianOfSorted(sorted, Count([170.0, 160.0, 152.0, 180.0])) == 165.0
  {
    SortedExample(sorted);
    CountExample();
  }

  lemma {:induction false} SortedExample(sorted: seq<real>)
    requires IsSorted(sorted) && multiset(sorted) == multiset([170.0, 160.0, 152.0, 180.0])
    ensures sorted == [152.0, 160.0, 170.0, 180.0]
  {
    var expected := [152.0, 160.0, 170.0, 180.0];
    assert multiset(expected) == multiset([170.0, 160.0, 152.0, 180.0]);
    SortedUnique(sorted, expected);
  }

  lemma {:induction false} CountExample()
    ensures Count([170.0, 160.0, 152.0, 180.0]) == 4
  {
    var data := [170.0, 160.0, 152.0, 180.0];
    assert Init(data) == [170.0, 160.0, 152.0];
    assert Init(Init(data)) == [170.0, 160.0];
    assert Init(Init(Init(data))) == [170.0];
    assert Init(Init(Init(Init(data)))) == [];
  }
}
