/**
 * `where`: keep the entries whose (secret) filter bit is set and put the sentinel
 * everywhere else, so that the result has the column's length and the statistics
 * that skip the sentinel see only the selected entries.
 */
module Where {
  import opened Sentinel

  /** The selected column: entry i is kept when filter[i] holds, else replaced by the sentinel. */
  function Selected(filter: seq<bool>, data: seq<int>): (r: seq<int>)
    requires |filter| >= |data|
    ensures |r| == |data|
  {
    seq(|data|, i requires 0 <= i < |data| => if filter[i] then data[i] else MAGIC_NUMBER)
  }

  /** `where`: fills a fresh array of the column's length, position by position. */
  method Where(filter: seq<bool>, data: seq<int>) returns (res: array<int>)
    requires |filter| >= |data|
    ensures fresh(res)
    ensures res[..] == Selected(filter, data)
  {
    var n := |data|;
    res := new int[n];
    for i := 0 to n
      invariant res[..i] == Selected(filter, data)[..i]
    {
      res[i] := if filter[i] then data[i] else MAGIC_NUMBER;
    }
  }

  /** Entry by entry: a kept entry is the input entry, a dropped one is the sentinel. */
  lemma {:induction false} SelectedAt(filter: seq<bool>, data: seq<int>, i: nat)
    requires |filter| >= |data| && i < |data|
    ensures filter[i] ==> Selected(filter, data)[i] == data[i]
    ensures !filter[i] ==> Selected(filter, data)[i] == MAGIC_NUMBER
  {
  }

  /** Filtering twice with the same filter changes nothing the second time. */
  lemma {:induction false} SelectedIdempotent(filter: seq<bool>, data: seq<int>)
    requires |filter| >= |data|
    ensures Selected(filter, Selected(filter, data)) == Selected(filter, data)
  {
    var once := Selected(filter, data);
    forall i | 0 <= i < |data|
      ensures Selected(filter, once)[i] == once[i]
    {
      SelectedAt(filter, once, i);
      SelectedAt(filter, data, i);
    }
  }

  /** The pointwise conjunction of two filters. */
  function Both(f: seq<bool>, g: seq<bool>): (r: seq<bool>)
    requires |f| == |g|
    ensures |r| == |f|
    ensures forall i :: 0 <= i < |f| ==> (r[i] <==> f[i] && g[i])
  {
    seq(|f|, i requires 0 <= i < |f| => f[i] && g[i])
  }

  /** Two successive filters act as their conjunction. */
  lemma {:induction false} SelectedCompose(f: seq<bool>, g: seq<bool>, data: seq<int>)
    requires |f| == |g| >= |data|
    ensures Selected(f, Selected(g, data)) == Selected(Both(f, g), data)
  {
    var inner := Selected(g, data);
    forall i | 0 <= i < |data|
      ensures Selected(f, inner)[i] == Selected(Both(f, g), data)[i]
    {
      SelectedAt(f, inner, i);
      SelectedAt(g, data, i);
      SelectedAt(Both(f, g), data, i);
    }
  }

  /** The filter "x < 0" on [-123, 0, 20, 40] keeps only -123. */
  lemma WhereExample()
    ensures Selected([true, false, false, false], [-123, 0, 20, 40]) == [-123, MAGIC_NUMBER, MAGIC_NUMBER, MAGIC_NUMBER]
  {
    var r := Selected([true, false, false, false], [-123, 0, 20, 40]);
    assert r[0] == -123 && r[1] == MAGIC_NUMBER && r[2] == MAGIC_NUMBER && r[3] == MAGIC_NUMBER;
  }
}
