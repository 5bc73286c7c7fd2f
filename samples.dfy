/** `_convert_to_dataframe`: gauge readings and the time-ordered series built
    from a raw batch. Timestamps are epoch milliseconds; the fixed UTC+7 zone
    only affects rendering, so an instant is its millisecond count. */
module Samples {

  /** One gauge reading: epoch milliseconds and water level in metres. */
  datatype Sample = Sample(timestamp: int, level: real)

  predicate SortedByTime(s: seq<Sample>) {
    forall i, j :: 0 <= i < j < |s| ==> s[i].timestamp <= s[j].timestamp
  }

  /** No two readings of the series share a timestamp. */
  predicate DistinctTimes(s: seq<Sample>) {
    forall i, j :: 0 <= i < j < |s| ==> s[i].timestamp != s[j].timestamp
  }

  /** The water-level column of a series. */
  function Levels(s: seq<Sample>): (v: seq<real>)
    ensures |v| == |s|
    ensures forall i :: 0 <= i < |s| ==> v[i] == s[i].level
  {
    seq(|s|, i requires 0 <= i < |s| => s[i].level)
  }

  /** The timestamp column of a series. */
  function Times(s: seq<Sample>): (t: seq<int>)
    ensures |t| == |s|
    ensures forall i :: 0 <= i < |s| ==> t[i] == s[i].timestamp
  {
    seq(|s|, i requires 0 <= i < |s| => s[i].timestamp)
  }

  /** Inserts one reading into a time-ordered series. */
  function Insert(x: Sample, s: seq<Sample>): (r: seq<Sample>)
    requires SortedByTime(s)
    ensures SortedByTime(r)
    ensures multiset(r) == multiset(s) + multiset{x}
    ensures r[0] == x || (s != [] && r[0] == s[0])
  {
    if s == [] || x.timestamp <= s[0].timestamp then
      SortedCons(x, s);
      [x] + s
    else
      var tail := Insert(x, s[1..]);
      assert s == [s[0]] + s[1..];
      assert s[0].timestamp <= tail[0].timestamp;
      SortedCons(s[0], tail);
      [s[0]] + tail
  }

  /** A reading no later than the head of an ordered series extends it. */
  lemma SortedCons(h: Sample, t: seq<Sample>)
    requires SortedByTime(t) && (t != [] ==> h.timestamp <= t[0].timestamp)
    ensures SortedByTime([h] + t)
  {
    var r := [h] + t;
    forall i, j | 0 <= i < j < |r|
      ensures r[i].timestamp <= r[j].timestamp
    {
      if i == 0 {
        assert r[j] == t[j - 1];
        assert t[0].timestamp <= t[j - 1].timestamp;
      } else {
        assert r[i] == t[i - 1] && r[j] == t[j - 1];
      }
    }
  }

  /** Orders a raw batch ascending by timestamp. The sort used by the source
      is not stable, so readings that share a timestamp may come out in any
      order: the contract only promises an ordered permutation. */
  function SortByTime(s: seq<Sample>): (r: seq<Sample>)
    ensures SortedByTime(r)
    ensures multiset(r) == multiset(s)
    ensures |r| == |s|
  {
    if s == [] then []
    else
      assert s == [s[0]] + s[1..];
      Insert(s[0], SortByTime(s[1..]))
  }

  /** Two ordered series holding the same readings start with the same
      reading when the first has distinct timestamps. */
  lemma SortedPermutationHeads(a: seq<Sample>, b: seq<Sample>)
    requires SortedByTime(a) && SortedByTime(b) && DistinctTimes(a)
    requires multiset(a) == multiset(b) && |a| > 0
    ensures |b| > 0 && a[0] == b[0]
  {
    assert a[0] in multiset(b);
    var j :| 0 <= j < |b| && b[j] == a[0];
    assert b[0] in multiset(a);
    var k :| 0 <= k < |a| && a[k] == b[0];
    assert b[0].timestamp <= b[j].timestamp;
    assert a[0].timestamp <= a[k].timestamp;
  }

  /** With distinct timestamps, the ordered permutation of a batch is unique:
      any two ordered series holding the same readings are equal. */
  lemma {:induction false} SortedPermutationUnique(a: seq<Sample>, b: seq<Sample>)
    requires SortedByTime(a) && SortedByTime(b) && DistinctTimes(a)
    requires multiset(a) == multiset(b)
    ensures a == b
    decreases |a|
  {
    assert |a| == |multiset(a)| == |multiset(b)| == |b|;
    if |a| > 0 {
      SortedPermutationHeads(a, b);
      SameHeadSameTail(a, b);
      SortedPermutationUnique(a[1..], b[1..]);
    }
  }

  lemma SameHeadSameTail(a: seq<Sample>, b: seq<Sample>)
    requires |a| > 0 && |b| > 0 && a[0] == b[0] && multiset(a) == multiset(b)
    ensures multiset(a[1..]) == multiset(b[1..])
  {
    assert a == [a[0]] + a[1..];
    assert b == [b[0]] + b[1..];
    assert multiset(a) == multiset{a[0]} + multiset(a[1..]);
    assert multiset(b) == multiset{b[0]} + multiset(b[1..]);
    assert multiset(a[1..]) == multiset(a) - multiset{a[0]};
    assert multiset(b[1..]) == multiset(b) - multiset{b[0]};
  }

  /** Sorting a series that is already ordered, with distinct timestamps,
      returns it unchanged. */
  lemma SortOfSortedIsIdentity(s: seq<Sample>)
    requires SortedByTime(s) && DistinctTimes(s)
    ensures SortByTime(s) == s
  {
    SortedPermutationUnique(s, SortByTime(s));
  }

  /** Every reading of a batch appears in its ordered series, and the reverse. */
  lemma SortKeepsReadings(s: seq<Sample>)
    ensures forall x :: x in SortByTime(s) <==> x in s
  {
    var r := SortByTime(s);
    assert forall x :: x in r <==> x in multiset(r);
    assert forall x :: x in s <==> x in multiset(s);
  }

  /** The last reading of the ordered series is the latest reading of the
      batch: it belongs to the batch and no reading is later. */
  lemma LastIsLatest(s: seq<Sample>)
    requires s != []
    ensures var r := SortByTime(s);
      |r| == |s| && r[|r| - 1] in s &&
      forall x :: x in s ==> x.timestamp <= r[|r| - 1].timestamp
  {
    var r := SortByTime(s);
    SortKeepsReadings(s);
    assert r[|r| - 1] in r;
    forall x | x in s
      ensures x.timestamp <= r[|r| - 1].timestamp
    {
      assert x in r;
      var i :| 0 <= i < |r| && r[i] == x;
    }
  }
}
