/**
 * Lane assignment in cmd/rpl2trace/rpl2trace.go: each log record is drawn in the first lane whose latest record
 * ended before it starts, or in a new lane. Times are nanoseconds.
 */
module TraceLanes {
  import opened Lists

  datatype Interval = Interval(from: int, to: int)

  /** For each lane: when its latest record ends (`running`), and which record that is (`latest`). */
  datatype Lanes = Lanes(pids: seq<nat>, running: seq<int>, latest: seq<nat>)

  /** The first lane that is free before `from`, or the number of lanes. */
  function FirstFree(running: seq<int>, from: int): (i: nat)
    ensures i <= |running|
    ensures i < |running| ==> running[i] < from
    ensures forall j :: 0 <= j < i ==> running[j] >= from
  {
    if running == [] then 0
    else
      var last := |running| - 1;
      var i := FirstFree(running[..last], from);
      if i < last then i else if running[last] < from then last else last + 1
  }

  /** Record k goes into the first lane that is free, or into a new one. */
  function Place(l: Lanes, k: nat, r: Interval): Lanes
    requires |l.running| == |l.latest|
  {
    var i := FirstFree(l.running, r.from);
    if i < |l.running| then Lanes(l.pids + [i + 1], l.running[i := r.to], l.latest[i := k])
    else Lanes(l.pids + [i + 1], l.running + [r.to], l.latest + [k])
  }

  /** The assignment after the first n records. */
  function FirstFit(records: seq<Interval>, n: nat): (l: Lanes)
    requires n <= |records|
    ensures |l.pids| == n && |l.running| == |l.latest|
  {
    if n == 0 then Lanes([], [], []) else Place(FirstFit(records, n - 1), n - 1, records[n - 1])
  }

  /** The inner loop of convertLogRecords and the new lane after it. */
  method Claim(before: seq<int>, r: Interval) returns (running: seq<int>, pid: nat)
    ensures pid == FirstFree(before, r.from) + 1
    ensures running == if pid <= |before| then before[pid - 1 := r.to] else before + [r.to]
  {
    running := before;
    for i := 0 to |running|
      invariant running == before
      invariant forall j :: 0 <= j < i ==> running[j] >= r.from
    {
      if running[i] < r.from {
        running := running[i := r.to];
        return running, i + 1;
      }
    }
    running := running + [r.to];
    pid := |running|;
  }

  lemma PlaceNext(records: seq<Interval>, k: nat)
    requires k < |records|
    ensures FirstFit(records, k + 1) == Place(FirstFit(records, k), k, records[k])
  {
  }

  /** The loop of convertLogRecords; the events of record k carry process id pids[k]. */
  method AssignPids(records: seq<Interval>) returns (pids: seq<nat>, lanes: nat)
    ensures pids == FirstFit(records, |records|).pids && lanes == |FirstFit(records, |records|).running|
  {
    var running: seq<int> := [];
    pids := [];
    ghost var l := FirstFit(records, 0);
    for k := 0 to |records|
      invariant l == FirstFit(records, k) && pids == l.pids && running == l.running
    {
      PlaceNext(records, k);
      l := Place(l, k, records[k]);
      var pid: nat;
      running, pid := Claim(running, records[k]);
      pids := pids + [pid];
    }
    lanes := |running|;
  }

  predicate Ordered(records: seq<Interval>) {
    forall k :: 0 <= k < |records| ==> records[k].from <= records[k].to
  }

  /** A record may be empty, as long as it does not end before the instant in front of its start. */
  predicate Forward(r: Interval) {
    r.from <= r.to + 1
  }

  predicate AllForward(records: seq<Interval>) {
    forall k :: 0 <= k < |records| ==> Forward(records[k])
  }

  predicate InStartOrder(records: seq<Interval>) {
    forall j, k :: 0 <= j < k < |records| ==> records[j].from <= records[k].from
  }

  /** Record k has a lane, which does not end before it. */
  predicate RecordOk(records: seq<Interval>, l: Lanes, k: nat)
    requires k < |records| && k < |l.pids|
  {
    1 <= l.pids[k] <= |l.running| && records[k].to <= l.running[l.pids[k] - 1]
  }

  /** Lane i ends with its latest record. */
  predicate LaneOk(records: seq<Interval>, l: Lanes, i: nat)
    requires i < |l.running| == |l.latest| && |l.pids| <= |records|
  {
    l.latest[i] < |l.pids| && l.pids[l.latest[i]] == i + 1 && l.running[i] == records[l.latest[i]].to
  }

  predicate Consistent(records: seq<Interval>, n: nat, l: Lanes)
    requires n <= |records|
  {
    && |l.pids| == n && |l.running| == |l.latest|
    && (forall k :: 0 <= k < n ==> RecordOk(records, l, k))
    && (forall i :: 0 <= i < |l.running| ==> LaneOk(records, l, i))
  }

  lemma PlaceConsistent(records: seq<Interval>, n: nat, l: Lanes)
    requires AllForward(records) && n < |records| && Consistent(records, n, l)
    ensures Consistent(records, n + 1, Place(l, n, records[n]))
  {
    var next := Place(l, n, records[n]);
    forall k | 0 <= k < n + 1 ensures RecordOk(records, next, k) {
      assert k < n ==> RecordOk(records, l, k);
    }
    forall i | 0 <= i < |next.running| ensures LaneOk(records, next, i) {
      assert i < |l.running| ==> LaneOk(records, l, i);
    }
  }

  lemma {:induction false} FirstFitConsistent(records: seq<Interval>, n: nat)
    requires AllForward(records) && n <= |records|
    ensures Consistent(records, n, FirstFit(records, n))
  {
    if n > 0 {
      FirstFitConsistent(records, n - 1);
      PlaceConsistent(records, n - 1, FirstFit(records, n - 1));
    }
  }

  /** Records drawn in the same lane do not overlap: the earlier one in the log ends before the later one starts. */
  lemma {:induction false} LanesAreDisjoint(records: seq<Interval>, n: nat, j: nat, k: nat)
    requires AllForward(records) && j < k < n <= |records|
    requires FirstFit(records, n).pids[j] == FirstFit(records, n).pids[k]
    ensures records[j].to < records[k].from
  {
    if k < n - 1 {
      LanesAreDisjoint(records, n - 1, j, k);
    } else {
      FirstFitConsistent(records, n - 1);
      assert RecordOk(records, FirstFit(records, n - 1), j);
    }
  }

  predicate Contains(r: Interval, t: int) {
    r.from <= t <= r.to
  }

  /** Which of the first n records are running at one point in time. */
  function RunningAt(records: seq<Interval>, n: nat, t: int): set<nat>
    requires n <= |records|
  {
    set k: nat | k < n && Contains(records[k], t)
  }

  /** Any drawing: process ids between 1 and `lanes`, with disjoint records in each lane. */
  predicate Drawing(records: seq<Interval>, pids: seq<nat>, lanes: nat) {
    && |pids| == |records|
    && (forall k :: 0 <= k < |pids| ==> 1 <= pids[k] <= lanes)
    && (forall j, k :: 0 <= j < k < |pids| && pids[j] == pids[k] ==>
          records[j].to < records[k].from || records[k].to < records[j].from)
  }

  /** Records that run at the same time need different lanes. */
  lemma {:induction false} OverlapNeedsLanes(records: seq<Interval>, pids: seq<nat>, lanes: nat, t: int, ks: set<nat>)
    requires Drawing(records, pids, lanes)
    requires forall k :: k in ks ==> k < |records| && Contains(records[k], t)
    ensures |ks| <= |set k | k in ks :: pids[k]|
    decreases |ks|
  {
    if ks != {} {
      var k :| k in ks;
      var rest := ks - {k};
      OverlapNeedsLanes(records, pids, lanes, t, rest);
      assert (set x | x in ks :: pids[x]) == (set x | x in rest :: pids[x]) + {pids[k]};
      assert pids[k] !in (set x | x in rest :: pids[x]);
    }
  }

  lemma {:induction false} NumbersUpTo(s: set<nat>, n: nat)
    requires forall x :: x in s ==> 1 <= x <= n
    ensures |s| <= n
  {
    if n == 0 {
      assert s == {};
    } else {
      NumbersUpTo(s - {n}, n - 1);
    }
  }

  /** No drawing gets by with fewer lanes than there are records running at some point. */
  lemma LanesAtLeastOverlap(records: seq<Interval>, pids: seq<nat>, lanes: nat, t: int)
    requires Drawing(records, pids, lanes)
    ensures |RunningAt(records, |records|, t)| <= lanes
  {
    OverlapNeedsLanes(records, pids, lanes, t, RunningAt(records, |records|, t));
    NumbersUpTo((set k | k in RunningAt(records, |records|, t) :: pids[k]), lanes);
  }

  /** The assignment of first fit is a drawing. */
  predicate FirstFitIsDrawing(records: seq<Interval>) {
    var l := FirstFit(records, |records|);
    Drawing(records, l.pids, |l.running|)
  }

  /** What LanesAreDisjoint and FirstFitConsistent say together. */
  lemma FirstFitDraws(records: seq<Interval>)
    requires AllForward(records)
    ensures FirstFitIsDrawing(records)
  {
    FirstFitConsistent(records, |records|);
    var l := FirstFit(records, |records|);
    var pids := l.pids;
    forall k | 0 <= k < |pids| ensures 1 <= pids[k] <= |l.running| {
      assert RecordOk(records, l, k);
    }
    forall j, k | 0 <= j < k < |pids| && pids[j] == pids[k] ensures records[j].to < records[k].from {
      LanesAreDisjoint(records, |records|, j, k);
    }
  }

  /** Distinct members of a set are no more than its size. */
  lemma {:induction false} DistinctMembers(s: seq<nat>, members: set<nat>)
    requires Unique(s)
    requires forall i :: 0 <= i < |s| ==> s[i] in members
    ensures |s| <= |members|
  {
    if s != [] {
      var last := |s| - 1;
      DistinctMembers(s[..last], members - {s[last]});
    }
  }

  lemma {:induction false} Subset(a: set<nat>, b: set<nat>)
    requires a <= b
    ensures |a| <= |b|
  {
    if a != {} {
      var x :| x in a;
      Subset(a - {x}, b - {x});
    }
  }

  /** When a lane is opened, the latest record of every other lane is still running, and so is the new one. */
  lemma NewLaneMeansBusy(records: seq<Interval>, n: nat, l: Lanes)
    requires Ordered(records) && InStartOrder(records) && n < |records| && Consistent(records, n, l)
    requires forall i :: 0 <= i < |l.running| ==> l.running[i] >= records[n].from
    ensures |l.running| + 1 <= |RunningAt(records, n + 1, records[n].from)|
  {
    var busy := l.latest + [n];
    forall i, j | 0 <= i < j < |busy| ensures busy[i] != busy[j] {
      assert LaneOk(records, l, i);
      assert j < |l.latest| ==> LaneOk(records, l, j);
    }
    forall i | 0 <= i < |busy| ensures busy[i] in RunningAt(records, n + 1, records[n].from) {
      if i < |l.latest| {
        assert LaneOk(records, l, i) && Contains(records[l.latest[i]], records[n].from);
      } else {
        assert Contains(records[n], records[n].from);
      }
    }
    DistinctMembers(busy, RunningAt(records, n + 1, records[n].from));
  }

  /** In start order, at some point as many records run as there are lanes. */
  lemma {:induction false} SomePointIsFull(records: seq<Interval>, n: nat) returns (t: int)
    requires Ordered(records) && InStartOrder(records) && n <= |records|
    ensures |FirstFit(records, n).running| <= |RunningAt(records, n, t)|
    decreases n
  {
    if n == 0 {
      t := 0;
    } else {
      var before := FirstFit(records, n - 1);
      FirstFitConsistent(records, n - 1);
      if FirstFree(before.running, records[n - 1].from) < |before.running| {
        t := SomePointIsFull(records, n - 1);
        Subset(RunningAt(records, n - 1, t), RunningAt(records, n, t));
      } else {
        t := records[n - 1].from;
        NewLaneMeansBusy(records, n - 1, before);
      }
    }
  }

  /**
   * In start order first fit is optimal: its lanes are the largest number of records that share a point in
   * time, and no other drawing of the records uses fewer.
   */
  lemma FirstFitIsOptimal(records: seq<Interval>)
    requires Ordered(records) && InStartOrder(records)
    ensures var lanes := |FirstFit(records, |records|).running|;
      && (forall t :: |RunningAt(records, |records|, t)| <= lanes)
      && (exists t :: |RunningAt(records, |records|, t)| == lanes)
      && (forall pids, others: nat :: Drawing(records, pids, others) ==> lanes <= others)
  {
    var n := |records|;
    var lanes := |FirstFit(records, n).running|;
    FirstFitDraws(records);
    forall t ensures |RunningAt(records, n, t)| <= lanes {
      LanesAtLeastOverlap(records, FirstFit(records, n).pids, lanes, t);
    }
    var full := SomePointIsFull(records, n);
    assert |RunningAt(records, n, full)| == lanes;
    forall pids, others: nat | Drawing(records, pids, others) ensures lanes <= others {
      LanesAtLeastOverlap(records, pids, others, full);
    }
  }

  // ---------------------------------------------------------------------------------------------
  // When the lanes are disjoint
  // ---------------------------------------------------------------------------------------------

  /** First fit is sound for any log in which `r` stands among forward records. */
  ghost predicate AlwaysDrawn(r: Interval) {
    forall before, after :: AllForward(before) && AllForward(after) ==> FirstFitIsDrawing(before + [r] + after)
  }

  /** A record that is not forward makes its lane look free too early: between these two, which overlap. */
  lemma BackwardRecordBreaksLane(r: Interval)
    requires !Forward(r)
    ensures var first, last := Interval(r.from - 1, r.from - 1), Interval(r.to + 1, r.from);
      && Forward(first) && Forward(last)
      && FirstFit([first, r, last], 3).pids == [1, 1, 1]
      && first.to >= last.from && last.to >= first.from
  {
    var records := [Interval(r.from - 1, r.from - 1), r, Interval(r.to + 1, r.from)];
    var one := Lanes([1], [r.from - 1], [0]);
    var two := Lanes([1, 1], [r.to], [1]);
    assert FirstFit(records, 1) == one;
    assert Place(one, 1, records[1]) == two;
    assert Place(two, 2, records[2]).pids == [1, 1, 1];
    assert FirstFit(records, 2) == two;
    assert FirstFit(records, 3) == Place(two, 2, records[2]);
  }

  /** A record is drawn soundly in every log of otherwise forward records exactly when it is forward itself. */
  lemma SoundExactly(r: Interval)
    ensures AlwaysDrawn(r) <==> Forward(r)
  {
    if Forward(r) {
      forall before, after | AllForward(before) && AllForward(after)
        ensures FirstFitIsDrawing(before + [r] + after)
      {
        FirstFitDraws(before + [r] + after);
      }
    } else {
      var before, after := [Interval(r.from - 1, r.from - 1)], [Interval(r.to + 1, r.from)];
      BackwardRecordBreaksLane(r);
      var records := before + [r] + after;
      assert records == [Interval(r.from - 1, r.from - 1), r, Interval(r.to + 1, r.from)];
      assert FirstFit(records, |records|).pids[0] == FirstFit(records, |records|).pids[2];
      assert records[0].to >= records[2].from && records[2].to >= records[0].from;
      assert AllForward(before) && AllForward(after);
    }
  }

  // ---------------------------------------------------------------------------------------------
  // When no lane is wasted
  // ---------------------------------------------------------------------------------------------

  /** The log, or its beginning, of records that start and end like this. */
  function Log(starts: seq<int>, ends: seq<int>): (records: seq<Interval>)
    requires |ends| <= |starts|
    ensures |records| == |ends|
  {
    seq(|ends|, i requires 0 <= i < |ends| => Interval(starts[i], ends[i]))
  }

  ghost predicate Minimal(records: seq<Interval>) {
    forall pids, others: nat :: Drawing(records, pids, others) ==> |FirstFit(records, |records|).running| <= others
  }

  /** Whenever the records end, at no point of the log has first fit opened more lanes than it had to. */
  ghost predicate AlwaysMinimal(starts: seq<int>) {
    forall ends :: |ends| <= |starts| && Ordered(Log(starts, ends)) ==> Minimal(Log(starts, ends))
  }

  function Highest(s: seq<int>): (m: int)
    requires s != []
    ensures forall i :: 0 <= i < |s| ==> s[i] <= m
  {
    if |s| == 1 then s[0]
    else
      var m := Highest(s[..|s| - 1]);
      if s[|s| - 1] > m then s[|s| - 1] else m
  }

  /** Records that all end together, after the last of them has started, need a lane each. */
  lemma {:induction false} AllLate(records: seq<Interval>, n: nat, end: int)
    requires n <= |records| && forall i :: 0 <= i < n ==> records[i].from <= end && records[i].to == end
    ensures |FirstFit(records, n).running| == n
    ensures forall i :: 0 <= i < n ==> FirstFit(records, n).running[i] == end
  {
    if n > 0 {
      AllLate(records, n - 1, end);
    }
  }

  /** Two records out of start order: with these ends they never overlap, and yet a lane is opened for the second. */
  lemma OrderMattersForLanes(starts: seq<int>, j: nat, k: nat) returns (ends: seq<int>)
    requires j < k < |starts| && starts[j] > starts[k]
    ensures |ends| <= |starts| && Ordered(Log(starts, ends)) && !Minimal(Log(starts, ends))
  {
    var late := Highest(starts);
    ends := seq(k + 1, i => if i == k then starts[k] else late);
    var records := Log(starts, ends);
    AllLate(records, k, late);
    assert |FirstFit(records, k + 1).running| == k + 1;
    var pids: seq<nat> := seq(k + 1, i requires 0 <= i < k + 1 => if i == k then j + 1 else i + 1);
    assert Drawing(records, pids, k);
  }

  /** No lane is ever wasted, whenever the records end, exactly when they come in start order. */
  lemma MinimalExactly(starts: seq<int>)
    ensures AlwaysMinimal(starts) <==> forall j, k :: 0 <= j < k < |starts| ==> starts[j] <= starts[k]
  {
    if j: nat, k: nat :| j < k < |starts| && starts[j] > starts[k] {
      var ends := OrderMattersForLanes(starts, j, k);
    } else {
      forall ends | |ends| <= |starts| && Ordered(Log(starts, ends))
        ensures Minimal(Log(starts, ends))
      {
        FirstFitIsOptimal(Log(starts, ends));
      }
    }
  }
}
