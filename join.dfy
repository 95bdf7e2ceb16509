/**
 * `join`: an equi-join of two matrices on one key column each, computed without
 * data-dependent control flow.  A matrix is stored column by column (matrix[c][r] is
 * row r of column c).  The result has the left matrix's columns followed by the right
 * matrix's columns and one row per left row; every appended cell starts as the
 * sentinel and, for each right row in order, is overwritten by that row's entry when
 * the keys match, so the last matching right row wins.
 */
module Join {
  import opened Sentinel

  /** Every column has `rows` entries. */
  predicate IsMatrix(m: seq<seq<int>>, rows: nat)
  {
    forall c :: 0 <= c < |m| ==> |m[c]| == rows
  }

  /** Well-formed arguments: two matrices and a key column in each. */
  predicate JoinArgs(data1: seq<seq<int>>, data2: seq<seq<int>>, key1: nat, key2: nat)
  {
    key1 < |data1| && key2 < |data2| && IsMatrix(data1, |data1[0]|) && IsMatrix(data2, |data2[0]|)
  }

  /** init, then for each right row j < count in order: values[j] if keys[j] == key,
      else unchanged. */
  function Overwritten(init: int, key: int, keys: seq<int>, values: seq<int>, count: nat): int
    requires count <= |keys| && count <= |values|
  {
    if count == 0 then init
    else if keys[count - 1] == key then values[count - 1]
    else Overwritten(init, key, keys, values, count - 1)
  }

  /** The last matching right row wins. */
  lemma {:induction false} OverwrittenByLastMatch(init: int, key: int, keys: seq<int>, values: seq<int>, count: nat, j: nat)
    requires count <= |keys| && count <= |values|
    requires j < count && keys[j] == key
    requires forall t :: j < t < count ==> keys[t] != key
    ensures Overwritten(init, key, keys, values, count) == values[j]
  {
    if j < count - 1 {
      OverwrittenByLastMatch(init, key, keys, values, count - 1, j);
    }
  }

  /** Without a matching right row the cell keeps its initial value. */
  lemma {:induction false} OverwrittenWithoutMatch(init: int, key: int, keys: seq<int>, values: seq<int>, count: nat)
    requires count <= |keys| && count <= |values|
    requires forall t :: 0 <= t < count ==> keys[t] != key
    ensures Overwritten(init, key, keys, values, count) == init
  {
    if count > 0 {
      OverwrittenWithoutMatch(init, key, keys, values, count - 1);
    }
  }

  /** Cell (c, r) of the join: the left matrix's entry for c < |data1|, else the
      appended column c - |data1| started at the sentinel and overwritten by the
      matching right rows. */
  function JoinedCell(data1: seq<seq<int>>, data2: seq<seq<int>>, key1: nat, key2: nat, c: nat, r: nat): int
    requires JoinArgs(data1, data2, key1, key2)
    requires c < |data1| + |data2| && r < |data1[0]|
  {
    if c < |data1| then data1[c][r]
    else Overwritten(MAGIC_NUMBER, data1[key1][r], data2[key2], data2[c - |data1|], |data2[0]|)
  }

  // ---------------------------------------------------------------------------
  // The three passes, shared with the earlier revision of the library
  // ---------------------------------------------------------------------------

  /** First pass: the left matrix is copied into the first |data1| columns. */
  method CopyLeft(m: array2<int>, data1: seq<seq<int>>)
    requires |data1| <= m.Length0 && IsMatrix(data1, m.Length1)
    modifies m
    ensures forall c, r :: 0 <= c < m.Length0 && 0 <= r < m.Length1 ==>
              m[c, r] == if c < |data1| then data1[c][r] else old(m[c, r])
  {
    for i := 0 to |data1|
      invariant forall c, r :: 0 <= c < m.Length0 && 0 <= r < m.Length1 ==>
                  m[c, r] == if c < i then data1[c][r] else old(m[c, r])
    {
      for j := 0 to m.Length1
        invariant forall c, r :: 0 <= c < m.Length0 && 0 <= r < m.Length1 ==>
                    m[c, r] == if c < i || (c == i && r < j) then data1[c][r] else old(m[c, r])
      {
        m[i, j] := data1[i][j];
      }
    }
  }

  /** Second pass: columns from..from+count-1 are set to the sentinel. */
  method FillSentinel(m: array2<int>, from: nat, count: nat)
    requires from + count <= m.Length0
    modifies m
    ensures forall c, r :: 0 <= c < m.Length0 && 0 <= r < m.Length1 ==>
              m[c, r] == if from <= c < from + count then MAGIC_NUMBER else old(m[c, r])
  {
    for i := 0 to count
      invariant forall c, r :: 0 <= c < m.Length0 && 0 <= r < m.Length1 ==>
                  m[c, r] == if from <= c < from + i then MAGIC_NUMBER else old(m[c, r])
    {
      for j := 0 to m.Length1
        invariant forall c, r :: 0 <= c < m.Length0 && 0 <= r < m.Length1 ==>
                    m[c, r] == if from <= c < from + i || (c == from + i && r < j) then MAGIC_NUMBER else old(m[c, r])
      {
        m[from + i, j] := MAGIC_NUMBER;
      }
    }
  }

  /** The innermost loop: row `row` of the appended columns takes right row j when
      `isMatch` holds and keeps its value otherwise. */
  method OverwriteRow(m: array2<int>, from: nat, row: nat, data2: seq<seq<int>>, j: nat, isMatch: bool)
    requires from + |data2| == m.Length0 && row < m.Length1
    requires forall k :: 0 <= k < |data2| ==> j < |data2[k]|
    modifies m
    ensures forall c, r :: 0 <= c < m.Length0 && 0 <= r < m.Length1 ==>
              m[c, r] == if r == row && from <= c && isMatch then data2[c - from][j] else old(m[c, r])
  {
    for k := 0 to |data2|
      invariant forall c, r :: 0 <= c < m.Length0 && 0 <= r < m.Length1 ==>
                  m[c, r] == if r == row && from <= c < from + k && isMatch then data2[c - from][j] else old(m[c, r])
    {
      m[from + k, row] := if isMatch then data2[k][j] else m[from + k, row];
    }
  }

  /** For one left row: every right row in order, overwriting on a key match. */
  method MatchRow(m: array2<int>, from: nat, row: nat, key: int, data2: seq<seq<int>>, key2: nat)
    requires from + |data2| == m.Length0 && row < m.Length1
    requires key2 < |data2| && IsMatrix(data2, |data2[0]|)
    modifies m
    ensures forall c, r :: 0 <= c < m.Length0 && 0 <= r < m.Length1 ==>
              m[c, r] == if r == row && from <= c
                         then Overwritten(old(m[c, r]), key, data2[key2], data2[c - from], |data2[0]|)
                         else old(m[c, r])
  {
    for j := 0 to |data2[0]|
      invariant forall c, r :: 0 <= c < m.Length0 && 0 <= r < m.Length1 ==>
                  m[c, r] == if r == row && from <= c
                             then Overwritten(old(m[c, r]), key, data2[key2], data2[c - from], j)
                             else old(m[c, r])
    {
      OverwriteRow(m, from, row, data2, j, key == data2[key2][j]);
    }
  }

  /** Third pass: every left row against every right row. */
  method MatchRows(m: array2<int>, from: nat, data1: seq<seq<int>>, key1: nat, data2: seq<seq<int>>, key2: nat)
    requires from + |data2| == m.Length0
    requires key1 < |data1| && IsMatrix(data1, m.Length1)
    requires key2 < |data2| && IsMatrix(data2, |data2[0]|)
    modifies m
    ensures forall c, r :: 0 <= c < m.Length0 && 0 <= r < m.Length1 ==>
              m[c, r] == if from <= c
                         then Overwritten(old(m[c, r]), data1[key1][r], data2[key2], data2[c - from], |data2[0]|)
                         else old(m[c, r])
  {
    for i := 0 to m.Length1
      invariant forall c, r :: 0 <= c < m.Length0 && 0 <= r < m.Length1 ==>
                  m[c, r] == if from <= c && r < i
                             then Overwritten(old(m[c, r]), data1[key1][r], data2[key2], data2[c - from], |data2[0]|)
                             else old(m[c, r])
    {
      MatchRow(m, from, i, data1[key1][i], data2, key2);
    }
  }

  /** `join`: allocate (|data1| + |data2|) x rows1, copy the left matrix, set the
      appended columns to the sentinel, then match every pair of rows. */
  method Join(data1: seq<seq<int>>, data2: seq<seq<int>>, key1: nat, key2: nat) returns (newData: array2<int>)
    requires JoinArgs(data1, data2, key1, key2)
    ensures fresh(newData)
    ensures newData.Length0 == |data1| + |data2| && newData.Length1 == |data1[0]|
    ensures forall c, r :: 0 <= c < newData.Length0 && 0 <= r < newData.Length1 ==>
              newData[c, r] == JoinedCell(data1, data2, key1, key2, c, r)
  {
    var numColumns1, numRows1 := |data1|, |data1[0]|;
    var numColumns2 := |data2|;
    newData := new int[numColumns1 + numColumns2, numRows1];
    CopyLeft(newData, data1);
    FillSentinel(newData, numColumns1, numColumns2);
    MatchRows(newData, numColumns1, data1, key1, data2, key2);
  }

  // ---------------------------------------------------------------------------
  // What the join means
  // ---------------------------------------------------------------------------

  /** An appended cell holds the entry of the last right row whose key matches. */
  lemma {:induction false} JoinTakesLastMatch(data1: seq<seq<int>>, data2: seq<seq<int>>, key1: nat, key2: nat, k: nat, r: nat, j: nat)
    requires JoinArgs(data1, data2, key1, key2)
    requires k < |data2| && r < |data1[0]| && j < |data2[0]|
    requires data2[key2][j] == data1[key1][r]
    requires forall t :: j < t < |data2[0]| ==> data2[key2][t] != data1[key1][r]
    ensures JoinedCell(data1, data2, key1, key2, |data1| + k, r) == data2[k][j]
  {
    OverwrittenByLastMatch(MAGIC_NUMBER, data1[key1][r], data2[key2], data2[k], |data2[0]|, j);
  }

  /** An appended cell with no matching right row stays the sentinel. */
  lemma {:induction false} JoinWithoutMatch(data1: seq<seq<int>>, data2: seq<seq<int>>, key1: nat, key2: nat, k: nat, r: nat)
    requires JoinArgs(data1, data2, key1, key2)
    requires k < |data2| && r < |data1[0]|
    requires forall t :: 0 <= t < |data2[0]| ==> data2[key2][t] != data1[key1][r]
    ensures JoinedCell(data1, data2, key1, key2, |data1| + k, r) == MAGIC_NUMBER
  {
    OverwrittenWithoutMatch(MAGIC_NUMBER, data1[key1][r], data2[key2], data2[k], |data2[0]|);
  }

  /** The first example of the test suite: keys 0 and 3 of the left matrix match
      right rows 1 and 0; rows with keys 1 and 2 get the sentinel. */
  lemma JoinExample()
    ensures var data1 := [[0, 1, 2, 3], [152, 160, 170, 180]];
            var data2 := [[3, 0, 4], [50, 60, 70]];
            var expected := [[0, 1, 2, 3], [152, 160, 170, 180],
                             [0, MAGIC_NUMBER, MAGIC_NUMBER, 3], [60, MAGIC_NUMBER, MAGIC_NUMBER, 50]];
            JoinArgs(data1, data2, 0, 0) &&
            forall c, r :: 0 <= c < 4 && 0 <= r < 4 ==> JoinedCell(data1, data2, 0, 0, c, r) == expected[c][r]
  {
    var data1 := [[0, 1, 2, 3], [152, 160, 170, 180]];
    var data2 := [[3, 0, 4], [50, 60, 70]];
    assert JoinArgs(data1, data2, 0, 0);
    forall k, r | 0 <= k < 2 && 0 <= r < 4
      ensures JoinedCell(data1, data2, 0, 0, 2 + k, r)
           == [[0, MAGIC_NUMBER, MAGIC_NUMBER, 3], [60, MAGIC_NUMBER, MAGIC_NUMBER, 50]][k][r]
    {
      if r == 0 {
        JoinTakesLastMatch(data1, data2, 0, 0, k, r, 1);
      } else if r == 3 {
        JoinTakesLastMatch(data1, data2, 0, 0, k, r, 0);
      } else {
        JoinWithoutMatch(data1, data2, 0, 0, k, r);
      }
    }
  }
}
