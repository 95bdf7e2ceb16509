/**
 * The earlier revision of the library (the top-level mpcstats_lib.py): a `mean` over
 * secret integers and a `join` whose sentinel pass starts at column |data2| instead of
 * |data1|.  Both revisions share the copy and match passes of module Join.
 */
module LegacyLib {
  import opened Sentinel
  import Averages
  import opened Join

  // ---------------------------------------------------------------------------
  // mean over secret integers
  // ---------------------------------------------------------------------------

  /** Σ if_else(i != MAGIC_NUMBER, i, 0) over an integer column: exactly the
      sentinel-aware total of the same column read as reals. */
  function IntTotal(data: seq<int>): (t: int)
    ensures t as real == Total(AsReals(data))
  {
    if data == [] then 0
    else
      var init := data[..|data| - 1];
      assert Init(AsReals(data)) == AsReals(init);
      IntTotal(init) + (if data[|data| - 1] != MAGIC_NUMBER then data[|data| - 1] else 0)
  }

  /** Σ if_else(i != MAGIC_NUMBER, 1, 0) over an integer column: the effective size of
      the same column read as reals. */
  function IntCount(data: seq<int>): (c: nat)
    ensures c == Count(AsReals(data))
  {
    if data == [] then 0
    else
      var init := data[..|data| - 1];
      assert Init(AsReals(data)) == AsReals(init);
      IntCount(init) + (if data[|data| - 1] != MAGIC_NUMBER then 1 else 0)
  }

  /** `mean`: total / count; the quotient of two secret integers is a fixed-point value.
      It is undefined exactly when every entry is the sentinel. */
  function LegacyMean(data: seq<int>): (m: Option<real>)
    ensures m.None? <==> forall i :: 0 <= i < |data| ==> data[i] == MAGIC_NUMBER
  {
    Averages.CountZeroIsAllSentinel(AsReals(data));
    Divide(IntTotal(data) as real, IntCount(data) as real)
  }

  /** The integer column as a column of the averaging functions. */
  function AsReals(data: seq<int>): (r: seq<real>)
    ensures |r| == |data|
    ensures forall i :: 0 <= i < |data| ==> r[i] == data[i] as real
  {
    seq(|data|, i requires 0 <= i < |data| => data[i] as real)
  }

  /** Both revisions compute the same mean: the sentinel-filtered sum over the
      sentinel-filtered count, undefined when every entry is the sentinel. */
  lemma {:induction false} LegacyMeanAgrees(data: seq<int>)
    ensures LegacyMean(data) == Averages.Mean(AsReals(data))
  {
  }

  /** A sentinel inserted anywhere changes neither the total nor the count. */
  lemma {:induction false} LegacyMeanIgnoresSentinels(a: seq<int>, b: seq<int>)
    ensures LegacyMean(a + [MAGIC_NUMBER] + b) == LegacyMean(a + b)
  {
    LegacyMeanAgrees(a + [MAGIC_NUMBER] + b);
    LegacyMeanAgrees(a + b);
    AsRealsInsertion(a, b);
    Averages.MeanIgnoresSentinels(AsReals(a), AsReals(b));
  }

  lemma {:induction false} AsRealsInsertion(a: seq<int>, b: seq<int>)
    ensures AsReals(a + [MAGIC_NUMBER] + b) == AsReals(a) + [SENTINEL] + AsReals(b)
    ensures AsReals(a + b) == AsReals(a) + AsReals(b)
  {
  }

  // ---------------------------------------------------------------------------
  // join with the shifted sentinel pass
  // ---------------------------------------------------------------------------

  /** The outcome of compiling the earlier `join`: a matrix, or an index error when the
      sentinel pass addresses a column past the last one. */
  datatype JoinOutcome = Built(matrix: array2<int>) | ColumnOutOfRange(column: nat)

  /** The contents of a freshly allocated matrix, which the program never initialises. */
  ghost function Snapshot(m: array2<int>): (s: seq<seq<int>>)
    reads m
    ensures |s| == m.Length0 && IsMatrix(s, m.Length1)
  {
    seq(m.Length0, c requires 0 <= c < m.Length0 reads m =>
      seq(m.Length1, r requires 0 <= r < m.Length1 reads m => m[c, r]))
  }

  /** Cell (c, r) of the earlier `join` (in range: |data2| <= |data1|): columns
      |data2|..2|data2|-1 start at the sentinel, the other left columns at data1, the
      other appended columns at whatever the allocation held; the appended columns are
      then overwritten by the matching right rows. */
  function LegacyCell(data1: seq<seq<int>>, data2: seq<seq<int>>, key1: nat, key2: nat,
                      alloc: seq<seq<int>>, c: nat, r: nat): int
    requires JoinArgs(data1, data2, key1, key2)
    requires |alloc| == |data1| + |data2| && IsMatrix(alloc, |data1[0]|)
    requires c < |data1| + |data2| && r < |data1[0]|
  {
    var start :=
      if |data2| <= c < 2 * |data2| then MAGIC_NUMBER
      else if c < |data1| then data1[c][r]
      else alloc[c][r];
    if c < |data1| then start
    else Overwritten(start, data1[key1][r], data2[key2], data2[c - |data1|], |data2[0]|)
  }

  /** The earlier `join`: copy, sentinel pass at columns |data2| + i, match. */
  method LegacyJoin(data1: seq<seq<int>>, data2: seq<seq<int>>, key1: nat, key2: nat)
    returns (outcome: JoinOutcome, ghost alloc: seq<seq<int>>)
    requires JoinArgs(data1, data2, key1, key2)
    ensures outcome.ColumnOutOfRange? <==> |data2| > |data1| && |data1[0]| > 0
    ensures outcome.ColumnOutOfRange? ==> outcome.column == |data1| + |data2|
    ensures |alloc| == |data1| + |data2| && IsMatrix(alloc, |data1[0]|)
    ensures outcome.Built? ==>
              fresh(outcome.matrix)
              && outcome.matrix.Length0 == |data1| + |data2| && outcome.matrix.Length1 == |data1[0]|
              && forall c, r :: 0 <= c < outcome.matrix.Length0 && 0 <= r < outcome.matrix.Length1 ==>
                   outcome.matrix[c, r] == LegacyCell(data1, data2, key1, key2, alloc, c, r)
  {
    var numColumns1, numRows1 := |data1|, |data1[0]|;
    var numColumns2 := |data2|;
    var newData := new int[numColumns1 + numColumns2, numRows1];
    alloc := Snapshot(newData);
    CopyLeft(newData, data1);
    if numRows1 > 0 {
      if numColumns2 > numColumns1 {
        // At i == numColumns1 the sentinel pass addresses column numColumns2 + numColumns1.
        return ColumnOutOfRange(numColumns1 + numColumns2), alloc;
      }
      FillSentinel(newData, numColumns2, numColumns2);
    }
    MatchRows(newData, numColumns1, data1, key1, data2, key2);
    outcome := Built(newData);
  }

  // ---------------------------------------------------------------------------
  // When the two revisions agree
  // ---------------------------------------------------------------------------

  /** With as many right columns as left columns the sentinel pass covers exactly the
      appended block, and the earlier `join` builds the same matrix as the later one,
      whatever the allocation held. */
  lemma {:induction false} LegacyJoinAgreesWhenSquare(data1: seq<seq<int>>, data2: seq<seq<int>>, key1: nat, key2: nat,
                                   alloc: seq<seq<int>>, c: nat, r: nat)
    requires JoinArgs(data1, data2, key1, key2) && |data1| == |data2|
    requires |alloc| == |data1| + |data2| && IsMatrix(alloc, |data1[0]|)
    requires c < |data1| + |data2| && r < |data1[0]|
    ensures LegacyCell(data1, data2, key1, key2, alloc, c, r) == JoinedCell(data1, data2, key1, key2, c, r)
  {
  }

  /** With fewer right columns than left columns, left column |data2| is overwritten by
      the sentinel, where the later revision keeps data1's column. */
  lemma {:induction false} LegacyJoinOverwritesLeftColumn(data1: seq<seq<int>>, data2: seq<seq<int>>, key1: nat, key2: nat,
                                       alloc: seq<seq<int>>, r: nat)
    requires JoinArgs(data1, data2, key1, key2) && |data2| < |data1|
    requires |alloc| == |data1| + |data2| && IsMatrix(alloc, |data1[0]|)
    requires r < |data1[0]|
    ensures LegacyCell(data1, data2, key1, key2, alloc, |data2|, r) == MAGIC_NUMBER
    ensures JoinedCell(data1, data2, key1, key2, |data2|, r) == data1[|data2|][r]
  {
  }

  /** Case 5 of the test suite (one right column): the earlier revision puts the
      sentinel in cell [1][0], where 152 is expected, and leaves the unmatched cell
      [2][1] at whatever the allocation held instead of the sentinel. */
  lemma {:induction false} LegacyJoinCounterexample(alloc: seq<seq<int>>)
    requires |alloc| == 3 && IsMatrix(alloc, 4)
    ensures var data1 := [[0, 1, 2, 3], [152, 160, 170, 180]];
            var data2 := [[9, 11, 0, 2]];
            JoinArgs(data1, data2, 0, 0)
            && LegacyCell(data1, data2, 0, 0, alloc, 1, 0) == MAGIC_NUMBER
            && JoinedCell(data1, data2, 0, 0, 1, 0) == 152
            && LegacyCell(data1, data2, 0, 0, alloc, 2, 1) == alloc[2][1]
            && JoinedCell(data1, data2, 0, 0, 2, 1) == MAGIC_NUMBER
  {
    var data1 := [[0, 1, 2, 3], [152, 160, 170, 180]];
    var data2 := [[9, 11, 0, 2]];
    assert JoinArgs(data1, data2, 0, 0);
    OverwrittenWithoutMatch(alloc[2][1], 1, data2[0], data2[0], 4);
    JoinWithoutMatch(data1, data2, 0, 0, 0, 1);
  }
}
