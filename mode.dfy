/**
 * `mode`: a frequency table (zero for a sentinel entry), a forward pass that keeps the
 * highest frequency seen, and a backward pass that keeps overwriting the answer with
 * every entry of that frequency, so the first such entry is the one left at the end.
 */
module Mode {
  import opened Sentinel

  /** Σ if_else(x == v, 1, 0) over the column. */
  function Occurrences(data: seq<int>, v: int): (c: nat)
    ensures c == multiset(data)[v]
  {
    if data == [] then 0
    else
      assert data == data[..|data| - 1] + [data[|data| - 1]];
      Occurrences(data[..|data| - 1], v) + (if data[|data| - 1] == v then 1 else 0)
  }

  /** freqs[i]: zero for a sentinel entry, else how often data[i] occurs in the column. */
  function Freq(data: seq<int>, i: nat): nat
    requires i < |data|
  {
    if data[i] == MAGIC_NUMBER then 0 else Occurrences(data, data[i])
  }

  /** The frequency table `freqs`, one entry per position. */
  function Freqs(data: seq<int>): (fs: seq<nat>)
    ensures |fs| == |data|
    ensures forall i :: 0 <= i < |data| ==> fs[i] == Freq(data, i)
    ensures forall i :: 0 <= i < |data| ==> fs[i] == if data[i] == MAGIC_NUMBER then 0 else multiset(data)[data[i]]
  {
    seq(|data|, i requires 0 <= i < |data| => Freq(data, i))
  }

  /** The largest entry of fs, starting from 0. */
  function MaxOf(fs: seq<nat>): (m: nat)
    ensures forall i :: 0 <= i < |fs| ==> fs[i] <= m
    ensures m == 0 || exists i :: 0 <= i < |fs| && fs[i] == m
  {
    if fs == [] then 0
    else
      var m := MaxOf(fs[..|fs| - 1]);
      assert forall i :: 0 <= i < |fs| - 1 ==> fs[..|fs| - 1][i] == fs[i];
      if fs[|fs| - 1] > m then fs[|fs| - 1] else m
  }

  /** The smallest position k >= i with fs[k] == f, or |fs| when there is none. */
  function FirstFrom(fs: seq<nat>, f: nat, i: nat): (k: nat)
    requires i <= |fs|
    ensures i <= k <= |fs|
    ensures k < |fs| ==> fs[k] == f
    ensures forall j :: i <= j < k ==> fs[j] != f
    decreases |fs| - i
  {
    if i == |fs| then |fs|
    else if fs[i] == f then i
    else FirstFrom(fs, f, i + 1)
  }

  /** What the circuit returns: the entry at the first position of highest frequency
      (a sentinel column has every frequency at 0, so that is its first entry), and 0
      for an empty column. */
  function ModeOf(data: seq<int>): int
  {
    var fs := Freqs(data);
    var k := FirstFrom(fs, MaxOf(fs), 0);
    if k < |data| then data[k] else 0
  }

  /** `mode`: the three passes over the data. */
  method Mode(data: seq<int>) returns (highest: int)
    ensures highest == ModeOf(data)
  {
    var n := |data|;
    var freqs := new nat[n];
    for i := 0 to n
      invariant freqs[..i] == Freqs(data)[..i]
    {
      freqs[i] := if data[i] == MAGIC_NUMBER then 0 else Occurrences(data, data[i]);
    }
    assert freqs[..] == Freqs(data) by {
      assert freqs[..n] == freqs[..];
      assert Freqs(data)[..n] == Freqs(data);
    }
    var highestFreq := HighestFrequency(freqs);
    highest := LastMatchBackward(freqs, data, highestFreq);
  }

  /** The forward pass: highest_freq = max(0, freqs[0], ..., freqs[n-1]). */
  method HighestFrequency(freqs: array<nat>) returns (highestFreq: nat)
    ensures highestFreq == MaxOf(freqs[..])
  {
    highestFreq := 0;
    for i := 0 to freqs.Length
      invariant highestFreq == MaxOf(freqs[..i])
    {
      assert freqs[..i + 1][..i] == freqs[..i];
      if freqs[i] > highestFreq {
        highestFreq := freqs[i];
      }
    }
    assert freqs[..freqs.Length] == freqs[..];
  }

  /** The backward pass: from the last position down to the first, every position of
      the highest frequency overwrites the answer, so the first one is kept. */
  method LastMatchBackward(freqs: array<nat>, data: seq<int>, highestFreq: nat) returns (highest: int)
    requires freqs.Length == |data|
    ensures var k := FirstFrom(freqs[..], highestFreq, 0);
            highest == if k < |data| then data[k] else 0
  {
    highest := 0;
    var i := freqs.Length;
    while i > 0
      invariant 0 <= i <= freqs.Length
      invariant var k := FirstFrom(freqs[..], highestFreq, i);
                highest == if k < |data| then data[k] else 0
    {
      i := i - 1;
      if freqs[i] == highestFreq {
        highest := data[i];
      }
    }
  }

  // ---------------------------------------------------------------------------
  // What the mode means
  // ---------------------------------------------------------------------------

  /** Frequencies never exceed the column's length, and a genuine entry has frequency at least 1. */
  lemma {:induction false} FreqOfGenuine(data: seq<int>, i: nat)
    requires i < |data| && data[i] != MAGIC_NUMBER
    ensures Freq(data, i) >= 1
  {
    assert data[i] in multiset(data);
  }

  /** With at least one genuine entry the mode is a genuine entry of the column that
      occurs at least as often as any other genuine entry. */
  lemma {:induction false} ModeIsMostFrequent(data: seq<int>, j: nat)
    requires j < |data| && data[j] != MAGIC_NUMBER
    ensures ModeOf(data) != MAGIC_NUMBER && ModeOf(data) in data
    ensures multiset(data)[data[j]] <= multiset(data)[ModeOf(data)]
  {
    var fs := Freqs(data);
    var m := MaxOf(fs);
    FreqOfGenuine(data, j);
    assert fs[j] >= 1;
    var k := FirstFrom(fs, m, 0);
    assert k < |data|;
    assert data[k] != MAGIC_NUMBER;
  }

  /** Ties go to the value that occurs first: every genuine entry before the mode's
      first occurrence is strictly less frequent. */
  lemma {:induction false} ModeFirstOccurrenceWins(data: seq<int>, j: nat)
    requires j < |data| && data[j] != MAGIC_NUMBER
    ensures forall i :: 0 <= i < |data| && data[i] != MAGIC_NUMBER && multiset(data)[data[i]] == multiset(data)[ModeOf(data)]
              ==> exists p :: 0 <= p <= i && data[p] == ModeOf(data)
  {
    var fs := Freqs(data);
    var m := MaxOf(fs);
    var k := FirstFrom(fs, m, 0);
    ModeIsMostFrequent(data, j);
    assert k < |data|;
    forall i | 0 <= i < |data| && data[i] != MAGIC_NUMBER && multiset(data)[data[i]] == multiset(data)[ModeOf(data)]
      ensures exists p :: 0 <= p <= i && data[p] == ModeOf(data)
    {
      assert fs[i] == m;
      assert k <= i;
    }
  }

  /** A column holding only sentinels (and at least one entry) yields its first entry. */
  lemma {:induction false} ModeOfSentinels(data: seq<int>)
    requires data != [] && forall i :: 0 <= i < |data| ==> data[i] == MAGIC_NUMBER
    ensures ModeOf(data) == MAGIC_NUMBER
  {
    var fs := Freqs(data);
    assert fs[0] == 0;
    assert MaxOf(fs) == 0;
  }

  /** The mode of [1, 2, 2, 3, 3, 5] is 2: 2 and 3 tie and 2 comes first. */
  lemma {:induction false} ModeExample()
    ensures ModeOf([1, 2, 2, 3, 3, 5]) == 2
  {
    var fs := [1, 2, 2, 2, 2, 1];
    FreqsExample();
    assert MaxOf(fs) == 2;
    assert FirstFrom(fs, 2, 0) == 1;
  }

  lemma {:induction false} FreqsExample()
    ensures Freqs([1, 2, 2, 3, 3, 5]) == [1, 2, 2, 2, 2, 1]
  {
    var data := [1, 2, 2, 3, 3, 5];
    assert multiset(data)[1] == 1 && multiset(data)[2] == 2 && multiset(data)[3] == 2 && multiset(data)[5] == 1;
  }
}
