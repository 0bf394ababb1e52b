/**
 * The download-latency forecast of internal/pkg/reproxy/forecast.go: a ring buffer of samples, a sorted copy
 * of its live part taken from time to time, and percentiles read from that copy.
 */
module Forecast {
  predicate Sorted(s: seq<int>) {
    forall i, j :: 0 <= i < j < |s| ==> s[i] <= s[j]
  }

  function Inserted(s: seq<int>, v: int): seq<int> {
    if s == [] || s[|s| - 1] <= v then s + [v] else Inserted(s[..|s| - 1], v) + [s[|s| - 1]]
  }

  /** sort.Ints: the same elements in ascending order. */
  function SortInts(s: seq<int>): seq<int> {
    if s == [] then [] else Inserted(SortInts(s[..|s| - 1]), s[|s| - 1])
  }

  lemma {:induction false} InsertedIsSorted(s: seq<int>, v: int)
    requires Sorted(s)
    ensures Sorted(Inserted(s, v))
    ensures forall x :: x in Inserted(s, v) ==> x in s || x == v
  {
    if s != [] && s[|s| - 1] > v {
      var last := |s| - 1;
      assert s == s[..last] + [s[last]];
      InsertedIsSorted(s[..last], v);
      var rest := Inserted(s[..last], v);
      forall i | 0 <= i < |rest| ensures rest[i] <= s[last] {
        assert rest[i] in rest;
      }
    }
  }

  lemma {:induction false} InsertedIsPermutation(s: seq<int>, v: int)
    ensures multiset(Inserted(s, v)) == multiset(s) + multiset{v} && |Inserted(s, v)| == |s| + 1
  {
    if s != [] && s[|s| - 1] > v {
      var last := |s| - 1;
      assert s == s[..last] + [s[last]];
      InsertedIsPermutation(s[..last], v);
    }
  }

  lemma {:induction false} SortIntsSorts(s: seq<int>)
    ensures Sorted(SortInts(s)) && multiset(SortInts(s)) == multiset(s) && |SortInts(s)| == |s|
  {
    if s != [] {
      var last := |s| - 1;
      assert s == s[..last] + [s[last]];
      SortIntsSorts(s[..last]);
      InsertedIsSorted(SortInts(s[..last]), s[last]);
      InsertedIsPermutation(SortInts(s[..last]), s[last]);
    }
  }

  /** The latest `n` samples, or all of them if there are fewer. */
  function Latest(samples: seq<int>, n: nat): seq<int> {
    if |samples| <= n then samples else samples[|samples| - n..]
  }

  /** The ring with its head holds the latest samples: from its start until it is full, rotated to the head after. */
  ghost predicate Holds(ring: seq<int>, head: nat, samples: seq<int>) {
    && head < |ring|
    && (|samples| < |ring| ==> head == |samples| && ring[..head] == samples)
    && (|samples| >= |ring| ==> ring[head..] + ring[..head] == samples[|samples| - |ring|..])
  }

  lemma HeldAreLatest(ring: seq<int>, head: nat, samples: seq<int>)
    requires Holds(ring, head, samples)
    ensures |Latest(samples, |ring|)| <= |ring|
    ensures multiset(ring[..|Latest(samples, |ring|)|]) == multiset(Latest(samples, |ring|))
  {
    if |samples| >= |ring| {
      assert ring == ring[..head] + ring[head..];
      assert ring[..|ring|] == ring;
      assert samples[|samples| - |ring|..] == Latest(samples, |ring|);
    }
  }

  function Next(head: nat, capacity: nat): nat
    requires head < capacity
  {
    (head + 1) % capacity
  }

  lemma NextHead(head: nat, capacity: nat)
    requires head < capacity
    ensures Next(head, capacity) == if head + 1 == capacity then 0 else head + 1
  {
  }

  lemma HoldsAfterFilling(ring: seq<int>, head: nat, samples: seq<int>, v: int)
    requires Holds(ring, head, samples) && |samples| < |ring|
    ensures Holds(ring[head := v], if head + 1 == |ring| then 0 else head + 1, samples + [v])
  {
    var next := ring[head := v];
    assert next[..head + 1] == samples + [v];
    if head + 1 == |ring| {
      assert next[0..] + next[..0] == samples + [v] == (samples + [v])[0..];
    }
  }

  lemma HoldsAfterRotating(ring: seq<int>, head: nat, samples: seq<int>, v: int)
    requires Holds(ring, head, samples) && |samples| >= |ring|
    ensures Holds(ring[head := v], if head + 1 == |ring| then 0 else head + 1, samples + [v])
  {
    var next := ring[head := v];
    var kept := samples[|samples| - |ring|..];
    var after := if head + 1 == |ring| then 0 else head + 1;
    assert kept[1..] == ring[head + 1..] + ring[..head];
    assert (samples + [v])[|samples| + 1 - |ring|..] == kept[1..] + [v];
    assert next[head + 1..] == ring[head + 1..] && next[..head + 1] == ring[..head] + [v];
    assert next[after..] + next[..after] == kept[1..] + [v];
  }

  lemma HoldsAfter(ring: seq<int>, head: nat, samples: seq<int>, v: int)
    requires Holds(ring, head, samples)
    ensures Holds(ring[head := v], Next(head, |ring|), samples + [v])
  {
    NextHead(head, |ring|);
    if |samples| < |ring| {
      HoldsAfterFilling(ring, head, samples, v);
    } else {
      HoldsAfterRotating(ring, head, samples, v);
    }
  }

  datatype Outcome = Value(v: int) | Error | IndexOutOfRange

  class Dataset {
    const dataPoints: array<int>
    const minSizeForStats: int
    var head: nat
    var currSize: nat
    var sortedData: seq<int>
    /** Every sample ever inserted, in order. */
    ghost var samples: seq<int>

    ghost predicate Valid()
      reads this, dataPoints
    {
      && Holds(dataPoints[..], head, samples)
      && currSize == |Latest(samples, dataPoints.Length)|
      && Sorted(sortedData)
    }

    constructor (capacity: nat, minSizeForStats: int)
      requires capacity > 0
      ensures Valid() && samples == [] && sortedData == []
      ensures fresh(dataPoints) && dataPoints.Length == capacity && this.minSizeForStats == minSizeForStats
    {
      dataPoints := new int[capacity](_ => 0);
      this.minSizeForStats := minSizeForStats;
      head, currSize, sortedData := 0, 0, [];
      samples := [];
    }

    /** The live part of the ring holds exactly the latest samples, in some order. */
    lemma LiveIsLatest()
      requires Valid()
      ensures currSize <= dataPoints.Length
      ensures multiset(dataPoints[..currSize]) == multiset(Latest(samples, dataPoints.Length))
    {
      HeldAreLatest(dataPoints[..], head, samples);
      assert dataPoints[..currSize] == dataPoints[..][..currSize];
    }

    method Insert(v: int)
      requires Valid()
      modifies this, dataPoints
      ensures Valid() && samples == old(samples) + [v] && sortedData == old(sortedData)
    {
      ghost var ring := dataPoints[..];
      HoldsAfter(ring, head, samples, v);
      dataPoints[head] := v;
      assert dataPoints[..] == ring[head := v];
      samples := samples + [v];
      head := Next(head, dataPoints.Length);
      currSize := currSize + 1;
      if currSize > dataPoints.Length {
        currSize := dataPoints.Length;
      }
    }

    /** Takes a sorted copy of the live part, unless there are too few samples yet. */
    method Sort()
      requires Valid()
      modifies this`sortedData
      ensures Valid()
      ensures currSize < minSizeForStats ==> sortedData == old(sortedData)
      ensures currSize >= minSizeForStats ==> multiset(sortedData) == multiset(Latest(samples, dataPoints.Length))
    {
      if currSize < minSizeForStats {
        return;
      }
      LiveIsLatest();
      SortIntsSorts(dataPoints[..currSize]);
      sortedData := SortInts(dataPoints[..currSize]);
    }

    method Percentile(p: int) returns (r: Outcome)
      requires Valid()
      ensures r == PercentileOf(sortedData, p)
    {
      if p < 0 || p > 100 {
        return Error;
      }
      if |sortedData| == 0 {
        return Error;
      }
      IndexInRange(|sortedData|, p);
      var index := |sortedData| * p / 100;
      if index >= |sortedData| {
        return IndexOutOfRange;
      }
      return Value(sortedData[index]);
    }
  }

  function PercentileOf(sortedData: seq<int>, p: int): Outcome {
    if p < 0 || p > 100 || sortedData == [] then Error
    else if p == 100 then IndexOutOfRange
    else
      IndexInRange(|sortedData|, p);
      Value(sortedData[|sortedData| * p / 100])
  }

  lemma IndexInRange(k: int, p: int)
    requires 0 < k && 0 <= p <= 100
    ensures 0 <= k * p / 100
    ensures k * p / 100 < k <==> p < 100
  {
    assert k * p <= k * 100;
    if p < 100 {
      assert k * p <= k * 99;
    }
  }

  // ---------------------------------------------------------------------------------------------
  // What a percentile means
  // ---------------------------------------------------------------------------------------------

  function CountBelow(s: seq<int>, v: int): nat {
    if s == [] then 0 else CountBelow(s[..|s| - 1], v) + (if s[|s| - 1] < v then 1 else 0)
  }

  lemma {:induction false} CountRemoved(s: seq<int>, i: nat, v: int)
    requires i < |s|
    ensures CountBelow(s, v) == CountBelow(s[..i] + s[i + 1..], v) + (if s[i] < v then 1 else 0)
  {
    var last := |s| - 1;
    if i == last {
      assert s[..i] + s[i + 1..] == s[..last];
    } else {
      CountRemoved(s[..last], i, v);
      assert (s[..i] + s[i + 1..])[..last - 1] == s[..last][..i] + s[..last][i + 1..];
    }
  }

  /** Counting does not depend on the order. */
  lemma {:induction false} CountPermutation(s: seq<int>, t: seq<int>, v: int)
    requires multiset(s) == multiset(t)
    ensures CountBelow(s, v) == CountBelow(t, v)
  {
    if s == [] {
      assert |multiset(t)| == 0;
    } else {
      var last := |s| - 1;
      assert s[last] in multiset(t);
      var i :| 0 <= i < |t| && t[i] == s[last];
      CountRemoved(t, i, v);
      assert s == s[..last] + [s[last]];
      RemoveAt(t, i);
      CountPermutation(s[..last], t[..i] + t[i + 1..], v);
    }
  }

  lemma RemoveAt(s: seq<int>, i: nat)
    requires i < |s|
    ensures multiset(s[..i] + s[i + 1..]) == multiset(s) - multiset{s[i]}
  {
    assert s == s[..i] + [s[i]] + s[i + 1..];
  }

  /** In sorted data fewer than `v` means a prefix. */
  lemma {:induction false} CountInSorted(s: seq<int>, i: nat)
    requires Sorted(s) && i < |s|
    ensures CountBelow(s, s[i]) <= i < CountBelow(s, s[i] + 1)
  {
    var last := |s| - 1;
    if i < last {
      CountInSorted(s[..last], i);
    } else {
      CountAtMostLength(s[..last], s[i]);
      CountAll(s[..last], s[i] + 1);
    }
  }

  lemma {:induction false} CountAtMostLength(s: seq<int>, v: int)
    ensures CountBelow(s, v) <= |s|
  {
    if s != [] {
      CountAtMostLength(s[..|s| - 1], v);
    }
  }

  lemma {:induction false} CountAll(s: seq<int>, v: int)
    requires forall i :: 0 <= i < |s| ==> s[i] < v
    ensures CountBelow(s, v) == |s|
  {
    if s != [] {
      CountAll(s[..|s| - 1], v);
    }
  }

  /**
   * The p-th percentile of k samples is their order statistic of index floor(kp/100): at most that many of the
   * samples are smaller, and more than that many are no larger.
   */
  lemma PercentileIsOrderStatistic(sortedData: seq<int>, samples: seq<int>, p: int)
    requires Sorted(sortedData) && multiset(sortedData) == multiset(samples) && samples != [] && 0 <= p < 100
    ensures PercentileOf(sortedData, p).Value?
    ensures var v := PercentileOf(sortedData, p).v;
      && v in samples
      && CountBelow(samples, v) <= |samples| * p / 100 < CountBelow(samples, v + 1)
  {
    assert |multiset(samples)| == |multiset(sortedData)|;
    var k := |sortedData|;
    IndexInRange(k, p);
    var v := PercentileOf(sortedData, p).v;
    CountInSorted(sortedData, k * p / 100);
    CountPermutation(sortedData, samples, v);
    CountPermutation(sortedData, samples, v + 1);
    assert v in multiset(samples);
  }

  lemma PercentileIsMonotone(sortedData: seq<int>, p: int, q: int)
    requires Sorted(sortedData) && sortedData != [] && 0 <= p <= q < 100
    ensures PercentileOf(sortedData, p).v <= PercentileOf(sortedData, q).v
  {
    var k := |sortedData|;
    IndexInRange(k, p);
    IndexInRange(k, q);
    assert k * p <= k * q;
  }

  /**
   * There is an error exactly for arguments outside of 0 to 100 and without data, and of the others the index is
   * past the end exactly for the hundredth percentile.
   */
  lemma OutOfRangeExactly(sortedData: seq<int>, p: int)
    ensures PercentileOf(sortedData, p).Error? <==> p < 0 || p > 100 || sortedData == []
    ensures PercentileOf(sortedData, p).IndexOutOfRange? <==> p == 100 && sortedData != []
    ensures 0 <= p <= 100 && sortedData != [] ==> (|sortedData| * p / 100 >= |sortedData| <==> p == 100)
  {
    if 0 <= p <= 100 && sortedData != [] {
      IndexInRange(|sortedData|, p);
    }
  }
}
