/**
 * Batched uploads of log records in internal/pkg/bigquery/bigquery.go: greedy size-bounded batching of a stream,
 * one worker per batch with retries, and the two counters the workers share.
 */
module Batching {
  import opened GoInts
  import opened Sums
  import opened Wrappers

  const MAX_UPLOAD_SIZE: int := 8 * 1000 * 1000

  /** A record and the number of bytes it marshals to; None when marshalling fails. */
  datatype Item = Item(record: string, marshalled: Option<nat>)

  function Cap(batchSizeMB: int): int {
    if batchSizeMB * 1000 * 1000 > MAX_UPLOAD_SIZE then MAX_UPLOAD_SIZE else batchSizeMB * 1000 * 1000
  }

  predicate Acceptable(item: Item, cap: int) {
    item.marshalled.Some? && item.marshalled.value <= cap
  }

  /** The records that are uploaded at all, in stream order. */
  function Accepted(items: seq<Item>, cap: int): seq<Item> {
    if items == [] then []
    else
      var last := items[|items| - 1];
      Accepted(items[..|items| - 1], cap) + (if Acceptable(last, cap) then [last] else [])
  }

  /** The accepted records are those that marshal to at most the cap, each as often as it came. */
  lemma {:induction false} AcceptedExactly(items: seq<Item>, cap: int, item: Item)
    ensures multiset(Accepted(items, cap))[item] ==
      if item.marshalled.Some? && item.marshalled.value <= cap then multiset(items)[item] else 0
  {
    if items != [] {
      var last := |items| - 1;
      AcceptedExactly(items[..last], cap, item);
      assert items == items[..last] + [items[last]];
    }
  }

  /** What is accepted of a stream is what is accepted of its parts, in order. */
  lemma {:induction false} AcceptedInOrder(first: seq<Item>, rest: seq<Item>, cap: int)
    ensures Accepted(first + rest, cap) == Accepted(first, cap) + Accepted(rest, cap)
  {
    if rest == [] {
      assert first + rest == first;
    } else {
      var last := |rest| - 1;
      AcceptedInOrder(first, rest[..last], cap);
      assert (first + rest)[..|first + rest| - 1] == first + rest[..last];
    }
  }

  /** The cap is the configured number of megabytes, but at most eight. */
  lemma CapExactly(batchSizeMB: int)
    ensures batchSizeMB <= 8 ==> Cap(batchSizeMB) == batchSizeMB * 1_000_000
    ensures batchSizeMB > 8 ==> Cap(batchSizeMB) == 8_000_000
  {
  }

  function SizeOf(item: Item): int {
    if item.marshalled.Some? then item.marshalled.value else 0
  }

  function Sizes(items: seq<Item>): seq<int> {
    seq(|items|, i requires 0 <= i < |items| => SizeOf(items[i]))
  }

  function Size(items: seq<Item>): int {
    Sum(Sizes(items))
  }

  function Flatten(batches: seq<seq<Item>>): seq<Item> {
    if batches == [] then [] else Flatten(batches[..|batches| - 1]) + batches[|batches| - 1]
  }

  lemma SizeAppend(items: seq<Item>, item: Item)
    ensures Size(items + [item]) == Size(items) + SizeOf(item)
  {
    SumAppend(Sizes(items), SizeOf(item));
    assert Sizes(items + [item]) == Sizes(items) + [SizeOf(item)];
  }

  lemma SizeConcat(a: seq<Item>, b: seq<Item>)
    ensures Size(a + b) == Size(a) + Size(b)
  {
    SumConcat(Sizes(a), Sizes(b));
    assert Sizes(a + b) == Sizes(a) + Sizes(b);
  }

  /** What makes a list of batches greedy: no batch could have taken the first record of the next one. */
  predicate Greedy(batches: seq<seq<Item>>, cap: int) {
    && (forall i :: 0 <= i < |batches| ==> batches[i] != [] && Size(batches[i]) <= cap)
    && (forall i :: 0 < i < |batches| ==> Size(batches[i - 1]) + SizeOf(batches[i][0]) > cap)
  }

  /** Keeping a record that still fits. */
  lemma GreedyGrows(sent: seq<seq<Item>>, buffer: seq<Item>, item: Item, cap: int)
    requires buffer == [] ==> sent == []
    requires buffer != [] ==> Greedy(sent + [buffer], cap)
    requires Size(buffer) + SizeOf(item) <= cap
    ensures Greedy(sent + [buffer + [item]], cap)
  {
    SizeAppend(buffer, item);
    var now := sent + [buffer + [item]];
    forall i | 0 <= i < |now| ensures now[i] != [] && Size(now[i]) <= cap {
      if i < |sent| {
        assert now[i] == (sent + [buffer])[i];
      }
    }
    forall i | 0 < i < |now| ensures Size(now[i - 1]) + SizeOf(now[i][0]) > cap {
      assert now[i - 1] == (sent + [buffer])[i - 1] && now[i][0] == (sent + [buffer])[i][0];
    }
  }

  /** Sending the buffer for a record that no longer fits. */
  lemma GreedyFlushes(sent: seq<seq<Item>>, buffer: seq<Item>, item: Item, cap: int)
    requires Greedy(sent + [buffer], cap)
    requires Size(buffer) + SizeOf(item) > cap && SizeOf(item) <= cap
    ensures Greedy(sent + [buffer] + [[item]], cap)
  {
    SizeAppend([], item);
    assert [] + [item] == [item];
    var before := sent + [buffer];
    var now := before + [[item]];
    forall i | 0 <= i < |now| ensures now[i] != [] && Size(now[i]) <= cap {
      if i < |before| {
        assert now[i] == before[i];
      }
    }
    forall i | 0 < i < |now| ensures Size(now[i - 1]) + SizeOf(now[i][0]) > cap {
      assert now[i - 1] == before[i - 1];
      if i < |before| {
        assert now[i] == before[i];
      }
    }
  }

  lemma FlattenAppend(sent: seq<seq<Item>>, batch: seq<Item>)
    ensures Flatten(sent + [batch]) == Flatten(sent) + batch
  {
    assert (sent + [batch])[..|sent|] == sent;
  }

  /** The state of the loop after a prefix of the stream: what was sent and what is buffered. */
  predicate Buffered(sent: seq<seq<Item>>, buffer: seq<Item>, prefix: seq<Item>, cap: int) {
    && Flatten(sent + [buffer]) == Accepted(prefix, cap)
    && (buffer == [] ==> sent == [])
    && (buffer != [] ==> Greedy(sent + [buffer], cap))
  }

  /** One record more: dropped, added to the buffer, or put into a new buffer after the old one was sent. */
  function Take(sent: seq<seq<Item>>, buffer: seq<Item>, item: Item, cap: int): (seq<seq<Item>>, seq<Item>) {
    if !Acceptable(item, cap) then (sent, buffer)
    else if SizeOf(item) + Size(buffer) > cap then (sent + [buffer], [item])
    else (sent, buffer + [item])
  }

  lemma AcceptedNext(items: seq<Item>, i: nat, cap: int)
    requires i < |items|
    ensures Accepted(items[..i + 1], cap) == Accepted(items[..i], cap) + (if Acceptable(items[i], cap) then [items[i]] else [])
  {
    assert items[..i + 1][..i] == items[..i];
  }

  lemma RecordTaken(sent: seq<seq<Item>>, buffer: seq<Item>, items: seq<Item>, i: nat, cap: int)
    requires i < |items| && Buffered(sent, buffer, items[..i], cap)
    ensures var (sent', buffer') := Take(sent, buffer, items[i], cap);
      Buffered(sent', buffer', items[..i + 1], cap)
  {
    var item := items[i];
    AcceptedNext(items, i, cap);
    FlattenAppend(sent, buffer);
    if Acceptable(item, cap) {
      if SizeOf(item) + Size(buffer) > cap {
        GreedyFlushes(sent, buffer, item, cap);
        FlattenAppend(sent + [buffer], [item]);
      } else {
        GreedyGrows(sent, buffer, item, cap);
        FlattenAppend(sent, buffer + [item]);
      }
    }
  }

  lemma StreamStarts(items: seq<Item>, cap: int)
    ensures Buffered([], [], items[..0], cap) && Size([]) == 0
  {
    FlattenAppend([], []);
  }

  /** Sending the buffer when the stream ends. */
  lemma StreamEnds(sent: seq<seq<Item>>, buffer: seq<Item>, items: seq<Item>, cap: int)
    requires Buffered(sent, buffer, items, cap)
    ensures Flatten(sent + [buffer]) == Accepted(items, cap)
    ensures if Accepted(items, cap) == [] then sent + [buffer] == [[]] else Greedy(sent + [buffer], cap)
  {
    FlattenAppend(sent, buffer);
    if buffer == [] {
      assert sent + [buffer] == [[]];
    }
  }

  /** The body of the loop: the batches sent so far, the buffer and its size after one more record. */
  method TakeRecord(sent: seq<seq<Item>>, buffer: seq<Item>, bufferSize: int, data: Item, batchSizeBytes: int)
      returns (batches: seq<seq<Item>>, taken: seq<Item>, takenSize: int)
    requires bufferSize == Size(buffer)
    ensures (batches, taken) == Take(sent, buffer, data, batchSizeBytes) && takenSize == Size(taken)
  {
    batches, taken, takenSize := sent, buffer, bufferSize;
    if data.marshalled.None? || data.marshalled.value > batchSizeBytes {
      return;
    }
    var size := data.marshalled.value;
    if size + takenSize > batchSizeBytes {
      batches, taken, takenSize := batches + [taken], [], 0;
      assert taken + [data] == [data];
    }
    SizeAppend(taken, data);
    taken := taken + [data];
    takenSize := takenSize + size;
  }

  /**
   * The loop of `batch` over a stream that ends after `items`. Order is kept and nothing is lost; an empty
   * batch is sent only if nothing was accepted.
   */
  method Batch(items: seq<Item>, batchSizeMB: int) returns (batches: seq<seq<Item>>)
    ensures Flatten(batches) == Accepted(items, Cap(batchSizeMB))
    ensures if Accepted(items, Cap(batchSizeMB)) == [] then batches == [[]] else Greedy(batches, Cap(batchSizeMB))
  {
    var batchSizeBytes := batchSizeMB * 1000 * 1000;
    if batchSizeBytes > MAX_UPLOAD_SIZE {
      batchSizeBytes := MAX_UPLOAD_SIZE;
    }
    batches := [];
    var buffer: seq<Item> := [];
    var bufferSize := 0;
    StreamStarts(items, batchSizeBytes);
    for i := 0 to |items|
      invariant Buffered(batches, buffer, items[..i], batchSizeBytes)
      invariant bufferSize == Size(buffer)
    {
      RecordTaken(batches, buffer, items, i, batchSizeBytes);
      batches, buffer, bufferSize := TakeRecord(batches, buffer, bufferSize, items[i], batchSizeBytes);
    }
    assert items[..|items|] == items;
    StreamEnds(batches, buffer, items, batchSizeBytes);
    batches := batches + [buffer];
  }

  // ---------------------------------------------------------------------------------------------
  // How good greedy batching is
  // ---------------------------------------------------------------------------------------------

  lemma {:induction false} SizesNotNegative(items: seq<Item>)
    ensures 0 <= Size(items)
  {
    SumNonNegative(Sizes(items));
  }

  lemma {:induction false} FlattenSplit(first: seq<seq<Item>>, rest: seq<seq<Item>>)
    ensures Flatten(first + rest) == Flatten(first) + Flatten(rest)
  {
    if rest == [] {
      assert first + rest == first;
    } else {
      var last := |rest| - 1;
      FlattenSplit(first, rest[..last]);
      assert (first + rest)[..|first + rest| - 1] == first + rest[..last];
    }
  }

  /** Two neighbouring greedy batches together are over the cap. */
  lemma NeighboursExceedCap(batches: seq<seq<Item>>, cap: int, i: nat)
    requires Greedy(batches, cap) && 0 < i < |batches|
    ensures Size(batches[i - 1]) + Size(batches[i]) > cap
  {
    var b := batches[i];
    assert b == [b[0]] + b[1..];
    SizeConcat([b[0]], b[1..]);
    SizeAppend([], b[0]);
    assert [] + [b[0]] == [b[0]];
    SizesNotNegative(b[1..]);
  }

  lemma OneMore(k: int, unit: int)
    ensures (k + 1) * unit == k * unit + unit
  {
  }

  lemma HalfOfMore(n: nat, unit: int)
    requires n >= 2
    ensures n / 2 * unit == (n - 2) / 2 * unit + unit
  {
    OneMore((n - 2) / 2, unit);
  }

  /** So k greedy batches hold more than k/2 caps. */
  lemma {:induction false} GreedyFillsPairs(batches: seq<seq<Item>>, cap: int)
    requires Greedy(batches, cap)
    ensures |batches| / 2 * (cap + 1) <= Size(Flatten(batches))
  {
    var n := |batches|;
    SizesNotNegative(Flatten(batches));
    if n >= 2 {
      var rest := batches[..n - 2];
      assert rest == batches[..n - 1][..n - 2];
      NeighboursExceedCap(batches, cap, n - 1);
      GreedyFillsPairs(rest, cap);
      SizeConcat(Flatten(rest), batches[n - 2]);
      SizeConcat(Flatten(batches[..n - 1]), batches[n - 1]);
      HalfOfMore(n, cap + 1);
    }
  }

  lemma {:induction false} FitsMultiply(packing: seq<seq<Item>>, cap: int)
    requires forall i :: 0 <= i < |packing| ==> Size(packing[i]) <= cap
    ensures Size(Flatten(packing)) <= |packing| * cap
  {
    if packing != [] {
      var last := |packing| - 1;
      FitsMultiply(packing[..last], cap);
      SizeConcat(Flatten(packing[..last]), packing[last]);
      OneMore(last, cap);
    }
  }

  lemma PairsBelow(k: int, m: int, cap: int)
    requires k * (cap + 1) <= m * cap && 0 <= cap && 1 <= m
    ensures k < m
  {
    assert m * (cap + 1) == m * cap + m;
    if m <= k {
      MultiplyMonotone(m, k, cap + 1);
    }
  }

  lemma MultiplyMonotone(a: int, b: int, c: int)
    requires a <= b && 0 <= c
    ensures a * c <= b * c
  {
  }

  lemma RemoveAt(items: seq<Item>, i: nat)
    requires i < |items|
    ensures Size(items) == Size(items[..i] + items[i + 1..]) + SizeOf(items[i])
    ensures multiset(items) == multiset(items[..i] + items[i + 1..]) + multiset{items[i]}
  {
    var x := items[i];
    assert items == items[..i] + [x] + items[i + 1..];
    SizeAppend(items[..i], x);
    SizeConcat(items[..i] + [x], items[i + 1..]);
    SizeConcat(items[..i], items[i + 1..]);
  }

  /** A total size depends only on which records there are, not on their order. */
  lemma {:induction false} SizeOfPermutation(a: seq<Item>, b: seq<Item>)
    requires multiset(a) == multiset(b)
    ensures Size(a) == Size(b)
  {
    if a == [] {
      assert |multiset(b)| == 0;
    } else {
      var last := |a| - 1;
      assert a[last] in multiset(b);
      var i :| 0 <= i < |b| && b[i] == a[last];
      RemoveAt(a, last);
      RemoveAt(b, i);
      var a', b' := a[..last] + a[last + 1..], b[..i] + b[i + 1..];
      assert multiset(a') == multiset(a) - multiset{a[last]};
      assert multiset(b') == multiset(b) - multiset{a[last]};
      SizeOfPermutation(a', b');
    }
  }

  /**
   * However the accepted records are packed into m batches that fit the cap, in any order and leaving the
   * batches as full as one likes, greedy batching of the stream needs at most 2m - 1.
   */
  lemma GreedyWithinTwiceOptimal(items: seq<Item>, cap: int, batches: seq<seq<Item>>, packing: seq<seq<Item>>)
    requires Flatten(batches) == Accepted(items, cap) && Accepted(items, cap) != [] && Greedy(batches, cap)
    requires multiset(Flatten(packing)) == multiset(Accepted(items, cap))
    requires forall i :: 0 <= i < |packing| ==> Size(packing[i]) <= cap
    ensures |batches| <= 2 * |packing| - 1
  {
    SizeOfPermutation(Flatten(packing), Accepted(items, cap));
    GreedyFillsPairs(batches, cap);
    FitsMultiply(packing, cap);
    SizesNotNegative(batches[0]);
    assert Accepted(items, cap)[0] in multiset(Flatten(packing));
    PairsBelow(|batches| / 2, |packing|, cap);
  }

  // ---------------------------------------------------------------------------------------------
  // Uploading
  // ---------------------------------------------------------------------------------------------

  datatype Attempt = Success | Retryable | Fatal

  /** The first attempt that is not retryable, within the attempts allowed. */
  predicate DecidedAt(attempts: nat -> Attempt, allowed: nat, i: nat) {
    && i < allowed && !attempts(i).Retryable? && forall j :: 0 <= j < i ==> attempts(j).Retryable?
  }

  const RETRIES := 3

  function Allowed(beforeDeadline: nat): nat {
    if beforeDeadline < RETRIES + 1 then beforeDeadline else RETRIES + 1
  }

  /**
   * uploadWithRetry: one attempt and at most three more; `beforeDeadline` is the number of attempts that fit
   * in the minute. The result is that of the first attempt that is not retryable, and failure if there is none.
   */
  method UploadWithRetry(attempts: nat -> Attempt, beforeDeadline: nat) returns (ok: bool, fatal: bool)
    requires beforeDeadline > 0
    ensures ok <==> exists i :: DecidedAt(attempts, Allowed(beforeDeadline), i) && attempts(i).Success?
    ensures fatal <==> exists i :: DecidedAt(attempts, Allowed(beforeDeadline), i) && attempts(i).Fatal?
    ensures attempts(0).Retryable? && attempts(1).Retryable? && attempts(2).Retryable? && beforeDeadline > 3 ==>
      (ok <==> attempts(3).Success?)
    ensures attempts(0).Retryable? && attempts(1).Retryable? && attempts(2).Retryable? && attempts(3).Retryable? ==>
      !ok && !fatal
  {
    ghost var allowed := Allowed(beforeDeadline);
    ok, fatal := false, false;
    var retries := 0;
    while true
      invariant retries < allowed
      invariant forall j :: 0 <= j < retries ==> attempts(j).Retryable?
      decreases allowed - retries
    {
      var r := attempts(retries);
      if !r.Retryable? {
        assert DecidedAt(attempts, allowed, retries);
        return r.Success?, r.Fatal?;
      }
      if retries >= RETRIES || retries + 1 == beforeDeadline {
        return false, false;
      }
      retries := retries + 1;
    }
  }

  /** The records of the batches with the given outcome, among those no longer pending. */
  function Uploaded(batches: seq<seq<Item>>, ok: nat -> bool, outcome: bool, pending: set<nat>): seq<int> {
    seq(|batches|, i requires 0 <= i < |batches| => if i !in pending && ok(i) == outcome then |batches[i]| else 0)
  }

  lemma UploadedGrows(batches: seq<seq<Item>>, ok: nat -> bool, pending: set<nat>, i: nat)
    requires i in pending && i < |batches|
    ensures Sum(Uploaded(batches, ok, ok(i), pending - {i})) == Sum(Uploaded(batches, ok, ok(i), pending)) + |batches[i]|
    ensures Sum(Uploaded(batches, ok, !ok(i), pending - {i})) == Sum(Uploaded(batches, ok, !ok(i), pending))
  {
    SumUpdate(Uploaded(batches, ok, ok(i), pending), i, |batches[i]|);
    assert Uploaded(batches, ok, ok(i), pending - {i}) == Uploaded(batches, ok, ok(i), pending)[i := |batches[i]|];
    assert Uploaded(batches, ok, !ok(i), pending - {i}) == Uploaded(batches, ok, !ok(i), pending);
  }

  lemma {:induction false} UploadedTotal(batches: seq<seq<Item>>, ok: nat -> bool)
    ensures Sum(Uploaded(batches, ok, true, {})) + Sum(Uploaded(batches, ok, false, {})) == |Flatten(batches)|
  {
    if batches != [] {
      var last := |batches| - 1;
      UploadedTotal(batches[..last], ok);
      forall outcome ensures Uploaded(batches, ok, outcome, {})[..last] == Uploaded(batches[..last], ok, outcome, {}) {
      }
    }
  }

  lemma UploadedNothing(batches: seq<seq<Item>>, ok: nat -> bool, outcome: bool, pending: set<nat>)
    requires forall i :: 0 <= i < |batches| ==> i in pending
    ensures Sum(Uploaded(batches, ok, outcome, pending)) == 0
  {
    SumOfZeros(Uploaded(batches, ok, outcome, pending));
  }

  /** The counters while the workers of the batches in `pending` are still at work. */
  predicate Tally(batches: seq<seq<Item>>, ok: nat -> bool, pending: set<nat>, successful: int, failed: int) {
    && successful == Int32(Sum(Uploaded(batches, ok, true, pending)))
    && failed == Int32(Sum(Uploaded(batches, ok, false, pending)))
  }

  lemma WorkerAdds(batches: seq<seq<Item>>, ok: nat -> bool, pending: set<nat>, i: nat, successful: int, failed: int)
    requires Tally(batches, ok, pending, successful, failed) && i in pending && i < |batches|
    ensures ok(i) ==> Tally(batches, ok, pending - {i}, Int32(successful + Int32(|batches[i]|)), failed)
    ensures !ok(i) ==> Tally(batches, ok, pending - {i}, successful, Int32(failed + Int32(|batches[i]|)))
  {
    UploadedGrows(batches, ok, pending, i);
    Int32Add(Sum(Uploaded(batches, ok, ok(i), pending)), |batches[i]|);
  }

  /**
   * `upload` and its workers: they finish in any order, and each adds the size of its batch to one of two
   * int32 counters. Up to wrap-around nothing is counted twice or forgotten.
   */
  method Upload(batches: seq<seq<Item>>, ok: nat -> bool) returns (successful: int, failed: int)
    ensures Tally(batches, ok, {}, successful, failed)
    ensures Int32(successful + failed) == Int32(|Flatten(batches)|)
  {
    successful, failed := 0, 0;
    var pending: set<nat> := {};
    for started := 0 to |batches|
      invariant forall i: nat :: i in pending <==> i < started
    {
      pending := pending + {started};
    }
    UploadedNothing(batches, ok, true, pending);
    UploadedNothing(batches, ok, false, pending);
    while pending != {}
      invariant forall i :: i in pending ==> i < |batches|
      invariant Tally(batches, ok, pending, successful, failed)
      decreases |pending|
    {
      var i: nat :| i in pending;
      WorkerAdds(batches, ok, pending, i, successful, failed);
      if ok(i) {
        successful := Int32(successful + Int32(|batches[i]|));
      } else {
        failed := Int32(failed + Int32(|batches[i]|));
      }
      pending := pending - {i};
    }
    TallyTotals(batches, ok, successful, failed);
  }

  /** The two counters account for every record, exactly so below 2^31 records. */
  lemma TallyTotals(batches: seq<seq<Item>>, ok: nat -> bool, successful: int, failed: int)
    requires Tally(batches, ok, {}, successful, failed)
    ensures Int32(successful + failed) == Int32(|Flatten(batches)|)
    ensures |Flatten(batches)| < TWO_31 ==>
      0 <= successful && 0 <= failed && successful + failed == |Flatten(batches)|
  {
    UploadedTotal(batches, ok);
    var s, f := Sum(Uploaded(batches, ok, true, {})), Sum(Uploaded(batches, ok, false, {}));
    SumNonNegative(Uploaded(batches, ok, true, {}));
    SumNonNegative(Uploaded(batches, ok, false, {}));
    Int32Exact(s, f);
  }

  /** The batches whose upload ended this way. */
  function Chosen(batches: seq<seq<Item>>, ok: nat -> bool, outcome: bool): seq<seq<Item>> {
    if batches == [] then []
    else
      var last := |batches| - 1;
      Chosen(batches[..last], ok, outcome) + if ok(last) == outcome then [batches[last]] else []
  }

  lemma {:induction false} UploadedIsChosen(batches: seq<seq<Item>>, ok: nat -> bool, outcome: bool)
    ensures Sum(Uploaded(batches, ok, outcome, {})) == |Flatten(Chosen(batches, ok, outcome))|
  {
    if batches != [] {
      var last := |batches| - 1;
      UploadedIsChosen(batches[..last], ok, outcome);
      assert Uploaded(batches, ok, outcome, {})[..last] == Uploaded(batches[..last], ok, outcome, {});
      var chosen := Chosen(batches[..last], ok, outcome);
      FlattenAppend(chosen, batches[last]);
      assert chosen + [] == chosen;
    }
  }

  /**
   * LogRecordsToBigQuery: the stream is cut into greedy batches; at the end `successful` is the number of records
   * in the batches whose upload succeeded and `failed` that of the others, together all accepted records.
   */
  method LogRecordsToBigQuery(items: seq<Item>, batchSizeMB: int, ok: nat -> bool)
      returns (successful: int, failed: int, batches: seq<seq<Item>>)
    ensures Flatten(batches) == Accepted(items, Cap(batchSizeMB))
    ensures if Accepted(items, Cap(batchSizeMB)) == [] then batches == [[]] else Greedy(batches, Cap(batchSizeMB))
    ensures successful == Int32(|Flatten(Chosen(batches, ok, true))|)
    ensures failed == Int32(|Flatten(Chosen(batches, ok, false))|)
    ensures |Accepted(items, Cap(batchSizeMB))| < TWO_31 ==>
      && 0 <= successful && 0 <= failed
      && successful + failed == |Accepted(items, Cap(batchSizeMB))|
  {
    batches := Batch(items, batchSizeMB);
    successful, failed := Upload(batches, ok);
    TallyTotals(batches, ok, successful, failed);
    UploadedIsChosen(batches, ok, true);
    UploadedIsChosen(batches, ok, false);
  }
}
