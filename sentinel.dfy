/**
 * The sentinel convention shared by every statistic: a column is a fixed-length
 * sequence in which the reserved value MAGIC_NUMBER marks "no data here".  The
 * sentinel-aware sum and count select each entry with `if_else(x != MAGIC_NUMBER, …)`
 * instead of skipping it; `Genuine` is the column a plain (non-secure) statistic
 * would see, and the lemmas below relate the two.
 */
module Sentinel {

  /** The reserved value that marks a missing or unmatched entry. */
  const MAGIC_NUMBER: int := 999

  /** The sentinel in the fixed-point (here: real) domain of the averaging functions. */
  const SENTINEL: real := MAGIC_NUMBER as real

  /** A result that may be undefined: None stands for a division by a secret zero,
      which the arithmetic substrate does not refuse but answers with an unspecified value. */
  datatype Option<T> = None | Some(value: T)

  /** Division as the substrate performs it: a zero divisor gives an unspecified value. */
  function Divide(a: real, b: real): Option<real>
  {
    if b == 0.0 then None else Some(a / b)
  }

  /** x * y, named so that products of secret values stay visible in proofs. */
  function Mul(x: real, y: real): real
  {
    x * y
  }

  function Last(s: seq<real>): real
    requires s != []
  {
    s[|s| - 1]
  }

  function Init(s: seq<real>): seq<real>
    requires s != []
  {
    s[..|s| - 1]
  }

  /** Σ if_else(x != MAGIC_NUMBER, x, 0) over the column: the plain sum of the
      genuine entries. */
  function Total(data: seq<real>): (t: real)
    ensures t == Sum(Genuine(data))
  {
    if data == [] then 0.0
    else if Last(data) != SENTINEL then
      InitOfAppend(Genuine(Init(data)), Last(data));
      Total(Init(data)) + Last(data)
    else Total(Init(data)) + 0.0
  }

  /** Σ if_else(x != MAGIC_NUMBER, 1, 0) over the column: the effective size, which is
      the number of genuine entries. */
  function Count(data: seq<real>): (c: nat)
    ensures c == |Genuine(data)|
    ensures c <= |data|
  {
    if data == [] then 0
    else Count(Init(data)) + (if Last(data) != SENTINEL then 1 else 0)
  }

  /** The column with its sentinel entries removed, order kept. */
  function Genuine(data: seq<real>): (g: seq<real>)
    ensures |g| <= |data|
  {
    if data == [] then []
    else if Last(data) != SENTINEL then Genuine(Init(data)) + [Last(data)] else Genuine(Init(data))
  }

  /** The genuine entries are the column's entries other than the sentinel, each as
      often as it occurs in the column. */
  lemma {:induction false} GenuineEntries(data: seq<real>)
    ensures SENTINEL !in Genuine(data)
    ensures multiset(Genuine(data)) == multiset(data)[SENTINEL := 0]
  {
    if data != [] {
      GenuineEntries(Init(data));
      InitAndLast(data);
    }
  }

  /** Plain sum of a sequence, with no sentinel handling. */
  function Sum(xs: seq<real>): real
  {
    if xs == [] then 0.0 else Sum(Init(xs)) + Last(xs)
  }

  predicate NoSentinel(data: seq<real>)
  {
    forall i :: 0 <= i < |data| ==> data[i] != SENTINEL
  }

  lemma {:induction false} InitAndLast(s: seq<real>)
    requires s != []
    ensures s == Init(s) + [Last(s)]
  {
  }

  lemma {:induction false} InitOfAppend(a: seq<real>, x: real)
    ensures Init(a + [x]) == a && Last(a + [x]) == x
  {
  }

  lemma {:induction false} GenuineAppend(a: seq<real>, b: seq<real>)
    ensures Genuine(a + b) == Genuine(a) + Genuine(b)
    decreases |b|
  {
    if b == [] {
      assert a + b == a;
    } else {
      assert a + b == (a + Init(b)) + [Last(b)];
      InitOfAppend(a + Init(b), Last(b));
      GenuineAppend(a, Init(b));
    }
  }

  /** Entries that are not the sentinel are kept unchanged. */
  lemma {:induction false} GenuineOfClean(data: seq<real>)
    requires NoSentinel(data)
    ensures Genuine(data) == data
  {
    if data != [] {
      GenuineOfClean(Init(data));
      assert data == Init(data) + [Last(data)];
    }
  }

  /** Inserting a sentinel anywhere leaves the genuine entries, and hence every
      statistic defined on them, unchanged. */
  lemma {:induction false} SentinelInsertion(a: seq<real>, b: seq<real>)
    ensures Genuine(a + [SENTINEL] + b) == Genuine(a + b)
    ensures Total(a + [SENTINEL] + b) == Total(a + b)
    ensures Count(a + [SENTINEL] + b) == Count(a + b)
  {
    GenuineAppend(a + [SENTINEL], b);
    GenuineAppend(a, [SENTINEL]);
    assert Genuine([SENTINEL]) == [] by {
      assert Init([SENTINEL]) == [];
    }
    GenuineAppend(a, b);
  }

  /** The effective size is the length minus the number of sentinel entries. */
  lemma {:induction false} CountComplement(data: seq<real>)
    ensures Count(data) + multiset(data)[SENTINEL] == |data|
  {
    if data != [] {
      CountComplement(Init(data));
      assert data == Init(data) + [Last(data)];
    }
  }

  /** The effective size depends only on the multiset of entries, so sorting keeps it. */
  lemma {:induction false} CountOfPermutation(a: seq<real>, b: seq<real>)
    requires multiset(a) == multiset(b)
    ensures Count(a) == Count(b)
  {
    CountComplement(a);
    CountComplement(b);
    assert |a| == |multiset(a)| == |multiset(b)| == |b|;
  }
}
