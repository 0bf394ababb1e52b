/**
 * The logger of internal/pkg/logger/logger.go: clients hand start, end and summary events to one event loop over
 * an unbuffered channel while holding a read lock; closing takes the write lock, closes the channel, waits
 * for the loop and aggregates. BigQuery uploading is off.
 */
module LoggerLoop {
  import opened GoInts
  import opened Sums
  import opened Traces
  import opened Wrappers

  datatype CompletionStatus =
    | Unknown | NonZeroExit | CacheHit | Timeout | Interrupted | RemoteFailure | LocalFailure
    | LocalExecution | RemoteExecution | LocalFallback | RacingLocal | RacingRemote

  /** What the event loop maintains. `openRecords` are the records whose open flag is set. */
  datatype Counters = Counters(
    running: int, peak: int, completed: multiset<CompletionStatus>, qpsCount: int, statsRecords: int,
    openRecords: set<nat>)

  const ZERO := Counters(0, 0, multiset{}, 0, 0, {})

  function Started(k: Counters, r: nat): Counters {
    if r in k.openRecords then k
    else k.(running := k.running + 1, peak := Max(k.running + 1, k.peak), openRecords := k.openRecords + {r})
  }

  function Ended(k: Counters, r: nat, status: CompletionStatus): Counters {
    if r !in k.openRecords then k
    else k.(running := k.running - 1, completed := k.completed + multiset{status}, qpsCount := k.qpsCount + 1,
            statsRecords := k.statsRecords + 1, openRecords := k.openRecords - {r})
  }

  class LogRecord {
    const id: nat
    var open: bool
    var completionStatus: CompletionStatus

    constructor (id: nat)
      ensures this.id == id && !open
    {
      this.id := id;
      open, completionStatus := false, Unknown;
    }
  }

  class Logger {
    var runningActions: int
    var peakRunningActions: int
    var completedActions: map<CompletionStatus, nat>
    var qpsCount: int
    var statsRecords: int
    ghost var openRecords: set<nat>
    ghost var completed: multiset<CompletionStatus>

    ghost predicate Valid()
      reads this
    {
      forall status :: completed[status] == if status in completedActions then completedActions[status] else 0
    }

    ghost function Value(): Counters
      reads this
    {
      Counters(runningActions, peakRunningActions, completed, qpsCount, statsRecords, openRecords)
    }

    constructor ()
      ensures Valid() && Value() == ZERO
    {
      runningActions, peakRunningActions, completedActions, qpsCount, statsRecords := 0, 0, map[], 0, 0;
      openRecords, completed := {}, multiset{};
    }

    /** startActionEvent.apply */
    method ApplyStart(lr: LogRecord)
      requires Valid() && (lr.open <==> lr.id in openRecords)
      modifies this, lr`open
      ensures Valid() && Value() == Started(old(Value()), lr.id)
      ensures lr.open <==> lr.id in openRecords
    {
      if lr.open {
        return;
      }
      lr.open := true;
      runningActions := runningActions + 1;
      peakRunningActions := Max(runningActions, peakRunningActions);
      openRecords := openRecords + {lr.id};
    }

    /** endActionEvent.apply */
    method ApplyEnd(lr: LogRecord)
      requires Valid() && (lr.open <==> lr.id in openRecords)
      modifies this, lr`open
      ensures Valid() && Value() == Ended(old(Value()), lr.id, lr.completionStatus)
      ensures lr.open <==> lr.id in openRecords
    {
      if !lr.open {
        return;
      }
      statsRecords := statsRecords + 1;
      lr.open := false;
      var status := lr.completionStatus;
      completedActions := completedActions[status := (if status in completedActions then completedActions[status] else 0) + 1];
      completed := completed + multiset{status};
      runningActions := runningActions - 1;
      qpsCount := qpsCount + 1;
      openRecords := openRecords - {lr.id};
    }
  }

  // ---------------------------------------------------------------------------------------------
  // The concurrent system
  // ---------------------------------------------------------------------------------------------

  datatype Event = StartAction(r: nat) | EndAction(r: nat, status: CompletionStatus) | Summarize

  /**
   * A call of LogActionStart, Log or GetStatusSummary. From ReadLocked-and-open (Sending) or closed (Refused)
   * until it is over it holds the read lock; `accepted` tells whether its event was handed to the loop.
   */
  datatype Client = Calling(e: Event) | Sending(e: Event) | Handed(e: Event) | Refused | Over(accepted: bool)

  datatype Loop = Ready | Applying(e: Event) | Exited

  /** CloseAndAggregate: holding the write lock, past it, past closing the channel, with the aggregate taken. */
  datatype Closer = NotCalled | Locked(wasOpen: bool) | Unlocked(wasOpen: bool) | Waiting | Aggregated(total: Counters)

  /** `accepted` and `applied` list the events handed to the loop and applied by it; `panicked` marks a send on a closed channel. */
  datatype State = State(
    clients: seq<Client>, loop: Loop, closer: Closer, open: bool, chCloses: nat,
    counters: Counters, accepted: seq<Event>, applied: seq<Event>, panicked: bool)

  const INIT := State([], Ready, NotCalled, true, 0, ZERO, [], [], false)

  datatype Step =
    | Call(e: Event) | ReadLock(c: nat) | Deliver(c: nat) | SendOnClosed(c: nat) | ReadUnlock(c: nat)
    | ApplyEvent | LoopExits
    | WriteLock | WriteUnlock | CloseChannel | Aggregate

  predicate Reading(client: Client) {
    client.Sending? || client.Handed? || client.Refused?
  }

  predicate Enabled(s: State, step: Step) {
    match step
    case Call(_) => true
    case ReadLock(c) => c < |s.clients| && s.clients[c].Calling? && !s.closer.Locked?
    case Deliver(c) => c < |s.clients| && s.clients[c].Sending? && s.loop.Ready? && s.chCloses == 0
    case SendOnClosed(c) => c < |s.clients| && s.clients[c].Sending? && s.chCloses > 0
    case ReadUnlock(c) => c < |s.clients| && (s.clients[c].Handed? || s.clients[c].Refused?)
    case ApplyEvent => s.loop.Applying?
    case LoopExits => s.loop.Ready? && s.chCloses > 0
    case WriteLock => s.closer.NotCalled? && forall c :: 0 <= c < |s.clients| ==> !Reading(s.clients[c])
    case WriteUnlock => s.closer.Locked?
    case CloseChannel => s.closer.Unlocked?
    case Aggregate => s.closer.Waiting? && s.loop.Exited?
  }

  function ApplyTo(k: Counters, e: Event): Counters {
    match e
    case StartAction(r) => Started(k, r)
    case EndAction(r, status) => Ended(k, r, status)
    case Summarize => k
  }

  function Apply(s: State, step: Step): State
    requires Enabled(s, step)
  {
    match step
    case Call(e) => s.(clients := s.clients + [Calling(e)])
    case ReadLock(c) => s.(clients := s.clients[c := if s.open then Sending(s.clients[c].e) else Refused])
    case Deliver(c) =>
      var e := s.clients[c].e;
      s.(clients := s.clients[c := Handed(e)], loop := Applying(e), accepted := s.accepted + [e])
    case SendOnClosed(c) => s.(panicked := true)
    case ReadUnlock(c) => s.(clients := s.clients[c := Over(s.clients[c].Handed?)])
    case ApplyEvent =>
      s.(loop := Ready, counters := ApplyTo(s.counters, s.loop.e), applied := s.applied + [s.loop.e])
    case LoopExits => s.(loop := Exited)
    case WriteLock => s.(closer := Locked(s.open), open := false)
    case WriteUnlock => s.(closer := Unlocked(s.closer.wasOpen))
    case CloseChannel => s.(closer := Waiting, chCloses := s.chCloses + (if s.closer.wasOpen then 1 else 0))
    case Aggregate => s.(closer := Aggregated(s.counters))
  }

  function Run(run: Trace<Step>): Option<State> {
    match run
    case Start => Some(INIT)
    case Then(before, step) =>
      var s := Run(before);
      if s.Some? && Enabled(s.value, step) then Some(Apply(s.value, step)) else None
  }

  /** The counters as the events, in the order the loop took them, make them. */
  function Replay(events: seq<Event>): Counters {
    if events == [] then ZERO else ApplyTo(Replay(events[..|events| - 1]), events[|events| - 1])
  }

  predicate Balanced(k: Counters) {
    && k.running == |k.openRecords|
    && |k.completed| == k.qpsCount == k.statsRecords
    && k.running <= k.peak
  }

  predicate Inv(s: State) {
    && !s.panicked
    && (s.open <==> s.closer.NotCalled?)
    && ((s.closer.Locked? || s.closer.Unlocked?) ==> s.closer.wasOpen)
    && s.chCloses == (if s.closer.Waiting? || s.closer.Aggregated? then 1 else 0)
    && (forall c :: 0 <= c < |s.clients| && s.clients[c].Sending? ==> s.open)
    && (s.closer.Locked? ==> forall c :: 0 <= c < |s.clients| ==> !Reading(s.clients[c]))
    && s.accepted == s.applied + (if s.loop.Applying? then [s.loop.e] else [])
    && s.counters == Replay(s.applied) && Balanced(s.counters)
    && (s.loop.Exited? ==> s.chCloses == 1)
    && (s.closer.Aggregated? ==> s.loop.Exited? && s.closer.total == s.counters)
  }

  lemma ApplyKeepsBalance(k: Counters, e: Event)
    requires Balanced(k)
    ensures Balanced(ApplyTo(k, e))
  {
  }

  lemma ApplyEventKeepsInv(s: State)
    requires Inv(s) && Enabled(s, ApplyEvent)
    ensures Inv(Apply(s, ApplyEvent))
  {
    ApplyKeepsBalance(s.counters, s.loop.e);
    assert (s.applied + [s.loop.e])[..|s.applied|] == s.applied;
  }

  lemma ClientKeepsInv(s: State, step: Step)
    requires Inv(s) && Enabled(s, step)
    requires step.Call? || step.ReadLock? || step.Deliver? || step.SendOnClosed? || step.ReadUnlock?
    ensures Inv(Apply(s, step))
  {
  }

  lemma CloserKeepsInv(s: State, step: Step)
    requires Inv(s) && Enabled(s, step)
    requires step.LoopExits? || step.WriteLock? || step.WriteUnlock? || step.CloseChannel? || step.Aggregate?
    ensures Inv(Apply(s, step))
  {
  }

  lemma StepKeepsInv(s: State, step: Step)
    requires Inv(s) && Enabled(s, step)
    ensures Inv(Apply(s, step))
  {
    match step
    case ApplyEvent => ApplyEventKeepsInv(s);
    case LoopExits | WriteLock | WriteUnlock | CloseChannel | Aggregate => CloserKeepsInv(s, step);
    case _ => ClientKeepsInv(s, step);
  }

  lemma {:induction false} RunKeepsInv(run: Trace<Step>)
    requires Run(run).Some?
    ensures Inv(Run(run).value)
  {
    match run
    case Start =>
    case Then(before, step) =>
      RunKeepsInv(before);
      StepKeepsInv(Run(before).value, step);
  }

  /** Nothing is ever sent on l.ch after it is closed, and it is closed at most once. */
  lemma NoSendAfterClose(run: Trace<Step>, c: nat)
    requires Run(run).Some?
    ensures !Run(run).value.panicked && !Enabled(Run(run).value, SendOnClosed(c)) && Run(run).value.chCloses <= 1
  {
    RunKeepsInv(run);
  }

  /** How many clients had their event accepted. */
  function Acceptances(clients: seq<Client>): nat {
    if clients == [] then 0
    else
      var last := clients[|clients| - 1];
      Acceptances(clients[..|clients| - 1]) + (if last.Handed? || (last.Over? && last.accepted) then 1 else 0)
  }

  lemma {:induction false} AcceptancesUpdate(clients: seq<Client>, c: nat, client: Client)
    requires c < |clients|
    ensures Acceptances(clients[c := client]) ==
      Acceptances(clients) - Acceptances([clients[c]]) + Acceptances([client])
  {
    var last := |clients| - 1;
    assert [clients[c]][..0] == [] && [client][..0] == [];
    if c < last {
      AcceptancesUpdate(clients[..last], c, client);
      assert clients[c := client][..last] == clients[..last][c := client];
    } else {
      assert clients[c := client][..last] == clients[..last];
    }
  }

  /** Exactly the clients that were told their event is in have an event in the list of accepted ones. */
  lemma {:induction false} AcceptedMeansCounted(run: Trace<Step>)
    requires Run(run).Some?
    ensures |Run(run).value.accepted| == Acceptances(Run(run).value.clients)
  {
    match run
    case Start =>
    case Then(before, step) =>
      AcceptedMeansCounted(before);
      var s := Run(before).value;
      var t := Run(run).value;
      match step {
        case Call(_) => assert t.clients[..|s.clients|] == s.clients;
        case ReadLock(c) => AcceptancesUpdate(s.clients, c, t.clients[c]);
        case Deliver(c) => AcceptancesUpdate(s.clients, c, t.clients[c]);
        case ReadUnlock(c) => AcceptancesUpdate(s.clients, c, t.clients[c]);
        case _ =>
      }
  }

  /**
   * The aggregate is taken after the loop has applied every event a client ever handed over, in the order of
   * acceptance, and nothing changes the counters any more.
   */
  lemma AggregateSeesEverything(run: Trace<Step>)
    requires Run(run).Some? && Run(run).value.closer.Aggregated?
    ensures var s := Run(run).value;
      && s.applied == s.accepted && |s.applied| == Acceptances(s.clients)
      && s.closer.total == Replay(s.accepted) == s.counters
  {
    RunKeepsInv(run);
    AcceptedMeansCounted(run);
  }

  /** Running actions are the open records, and completions, QPS count and statistics agree at all times. */
  lemma CountersBalance(run: Trace<Step>)
    requires Run(run).Some?
    ensures var k := Run(run).value.counters;
      && k.running == |k.openRecords| <= k.peak
      && |k.completed| == k.qpsCount == k.statsRecords
  {
    RunKeepsInv(run);
  }

  /** How often a record was opened, in the list of events. */
  function Opened(events: seq<Event>): nat {
    if events == [] then 0
    else
      var before := events[..|events| - 1];
      var e := events[|events| - 1];
      Opened(before) + (if e.StartAction? && e.r !in Replay(before).openRecords then 1 else 0)
  }

  /** Conservation: every action that was opened is either still running or was completed exactly once. */
  lemma {:induction false} OpenedIsRunningPlusCompleted(events: seq<Event>)
    ensures Opened(events) == |Replay(events).openRecords| + |Replay(events).completed|
  {
    if events != [] {
      var before := events[..|events| - 1];
      OpenedIsRunningPlusCompleted(before);
    }
  }

  // ---------------------------------------------------------------------------------------------
  // What the counters say about the events
  // ---------------------------------------------------------------------------------------------

  /** Of the first n events, the last one that starts or ends this record starts it. */
  predicate OpenAfter(events: seq<Event>, n: nat, r: nat)
    requires n <= |events|
  {
    exists i :: 0 <= i < n && events[i] == StartAction(r) &&
      forall j :: i < j < n ==> !(events[j].EndAction? && events[j].r == r)
  }

  lemma OpenAfterPrefix(events: seq<Event>, n: nat, r: nat)
    requires n <= |events|
    ensures OpenAfter(events, n, r) <==> OpenAfter(events[..n], n, r)
  {
    var prefix := events[..n];
    if OpenAfter(events, n, r) {
      var i :| 0 <= i < n && events[i] == StartAction(r) &&
        forall j :: i < j < n ==> !(events[j].EndAction? && events[j].r == r);
      assert prefix[i] == StartAction(r);
    }
    if OpenAfter(prefix, n, r) {
      var i :| 0 <= i < n && prefix[i] == StartAction(r) &&
        forall j :: i < j < n ==> !(prefix[j].EndAction? && prefix[j].r == r);
      assert events[i] == StartAction(r);
      assert forall j :: i < j < n ==> events[j] == prefix[j];
    }
  }

  lemma OpenAfterOneMore(events: seq<Event>, n: nat, r: nat)
    requires n < |events|
    ensures OpenAfter(events, n + 1, r) <==>
      events[n] == StartAction(r) || (OpenAfter(events, n, r) && !(events[n].EndAction? && events[n].r == r))
  {
    if OpenAfter(events, n + 1, r) {
      var i :| 0 <= i < n + 1 && events[i] == StartAction(r) &&
        forall j :: i < j < n + 1 ==> !(events[j].EndAction? && events[j].r == r);
      assert i < n ==> OpenAfter(events, n, r);
    } else if events[n] != StartAction(r) && OpenAfter(events, n, r) {
      var i :| 0 <= i < n && events[i] == StartAction(r) &&
        forall j :: i < j < n ==> !(events[j].EndAction? && events[j].r == r);
    }
  }

  /** The open records are those whose last start or end is a start. */
  lemma {:induction false} OpenExactly(events: seq<Event>, r: nat)
    ensures r in Replay(events).openRecords <==> OpenAfter(events, |events|, r)
  {
    if events != [] {
      var n := |events| - 1;
      OpenExactly(events[..n], r);
      OpenAfterPrefix(events, n, r);
      OpenAfterOneMore(events, n, r);
    }
  }

  /** The event ends a record that is open, with this status. */
  predicate Completes(events: seq<Event>, i: nat, status: CompletionStatus)
    requires i < |events|
  {
    events[i].EndAction? && events[i].status == status && OpenAfter(events, i, events[i].r)
  }

  function Completions(events: seq<Event>, n: nat, status: CompletionStatus): set<nat>
    requires n <= |events|
  {
    set i: nat | i < n && Completes(events, i, status)
  }

  lemma CompletesInPrefix(events: seq<Event>, n: nat, i: nat, status: CompletionStatus)
    requires i < n <= |events|
    ensures Completes(events, i, status) <==> Completes(events[..n], i, status)
  {
    if events[i].EndAction? {
      OpenAfterPrefix(events, i, events[i].r);
      OpenAfterPrefix(events[..n], i, events[i].r);
      assert events[..n][..i] == events[..i];
    }
  }

  lemma CompletionsOfPrefix(events: seq<Event>, n: nat, status: CompletionStatus)
    requires n <= |events|
    ensures Completions(events, n, status) == Completions(events[..n], n, status)
  {
    forall i: nat | i < n
      ensures i in Completions(events, n, status) <==> i in Completions(events[..n], n, status)
    {
      CompletesInPrefix(events, n, i, status);
    }
  }

  lemma CompletionsWithOneMore(events: seq<Event>, n: nat, status: CompletionStatus)
    requires n < |events|
    ensures |Completions(events, n + 1, status)| ==
      |Completions(events, n, status)| + if Completes(events, n, status) then 1 else 0
  {
    if Completes(events, n, status) {
      assert Completions(events, n + 1, status) == Completions(events, n, status) + {n};
    } else {
      assert Completions(events, n + 1, status) == Completions(events, n, status);
    }
  }

  /** The completions of each status are the events that ended an open record with it. */
  lemma {:induction false} CompletedExactly(events: seq<Event>, status: CompletionStatus)
    ensures Replay(events).completed[status] == |Completions(events, |events|, status)|
  {
    if events != [] {
      var n := |events| - 1;
      CompletedExactly(events[..n], status);
      CompletionsOfPrefix(events, n, status);
      CompletionsWithOneMore(events, n, status);
      if events[n].EndAction? {
        OpenExactly(events[..n], events[n].r);
        OpenAfterPrefix(events, n, events[n].r);
      }
    }
  }

  lemma {:induction false} ReplayBalances(events: seq<Event>)
    ensures Balanced(Replay(events))
  {
    if events != [] {
      ReplayBalances(events[..|events| - 1]);
      ApplyKeepsBalance(Replay(events[..|events| - 1]), events[|events| - 1]);
    }
  }

  /** The peak is the largest number of records that were open at the same time. */
  lemma {:induction false} PeakExactly(events: seq<Event>) returns (at: nat)
    ensures forall n :: 0 <= n <= |events| ==> |Replay(events[..n]).openRecords| <= Replay(events).peak
    ensures at <= |events| && |Replay(events[..at]).openRecords| == Replay(events).peak
  {
    ReplayBalances(events);
    if events == [] {
      at := 0;
    } else {
      var last := |events| - 1;
      var before := events[..last];
      at := PeakExactly(before);
      assert events[..|events|] == events;
      assert forall n :: 0 <= n <= last ==> events[..n] == before[..n];
      if Replay(events).peak != Replay(before).peak {
        at := |events|;
      }
    }
  }

  // ---------------------------------------------------------------------------------------------
  // Which events are accepted
  // ---------------------------------------------------------------------------------------------

  /** The events of all calls so far; client c made call c. */
  function Called(run: Trace<Step>): seq<Event> {
    match run
    case Start => []
    case Then(before, step) => if step.Call? then Called(before) + [step.e] else Called(before)
  }

  /** The events of the calls that were delivered, in the order of delivery. */
  function Delivered(run: Trace<Step>): seq<Event> {
    match run
    case Start => []
    case Then(before, step) =>
      if step.Deliver? && step.c < |Called(before)| then Delivered(before) + [Called(before)[step.c]] else Delivered(before)
  }

  predicate CarriesEvent(client: Client, e: Event) {
    client.Calling? || client.Sending? || client.Handed? ==> client.e == e
  }

  /** What the loop accepts is what was delivered of what was called; a call is refused only after the close. */
  lemma {:induction false} AcceptedIsDelivered(run: Trace<Step>)
    requires Run(run).Some?
    ensures Run(run).value.accepted == Delivered(run)
    ensures |Run(run).value.clients| == |Called(run)|
    ensures forall c :: 0 <= c < |Called(run)| ==> CarriesEvent(Run(run).value.clients[c], Called(run)[c])
  {
    match run
    case Start =>
    case Then(before, step) => AcceptedIsDelivered(before);
  }

  predicate TurnedAway(client: Client) {
    client.Refused? || (client.Over? && !client.accepted)
  }

  predicate LetIn(client: Client) {
    client.Handed? || (client.Over? && client.accepted)
  }

  lemma TurnedAwayStep(s: State, step: Step, c: nat)
    requires Enabled(s, step) && c < |s.clients|
    ensures var t := Apply(s, step);
      && (TurnedAway(t.clients[c]) ==> TurnedAway(s.clients[c]) || !s.open)
      && (LetIn(t.clients[c]) <==> LetIn(s.clients[c]) || step == Deliver(c))
  {
  }

  /** A call is turned away only after the close, and let in exactly when its event was delivered. */
  lemma {:induction false} TurnedAwayOnlyAfterClose(run: Trace<Step>, c: nat)
    requires Run(run).Some? && c < |Run(run).value.clients|
    ensures TurnedAway(Run(run).value.clients[c]) ==> Took(run, WriteLock)
    ensures LetIn(Run(run).value.clients[c]) <==> Took(run, Deliver(c))
  {
    var s := Run(run.before).value;
    if c < |s.clients| {
      TurnedAwayOnlyAfterClose(run.before, c);
      TurnedAwayStep(s, run.step, c);
      OpenUntilClosed(run.before);
    } else {
      NobodyDeliversYet(run.before, c);
    }
  }

  lemma {:induction false} OpenUntilClosed(run: Trace<Step>)
    requires Run(run).Some?
    ensures Run(run).value.open <==> !Took(run, WriteLock)
  {
    match run
    case Start =>
    case Then(before, _) => OpenUntilClosed(before);
  }

  lemma {:induction false} NobodyDeliversYet(run: Trace<Step>, c: nat)
    requires Run(run).Some? && c >= |Run(run).value.clients|
    ensures !Took(run, Deliver(c))
  {
    match run
    case Start =>
    case Then(before, step) => NobodyDeliversYet(before, c);
  }

  // ---------------------------------------------------------------------------------------------
  // Progress
  // ---------------------------------------------------------------------------------------------

  predicate Busy(client: Client) {
    !client.Over?
  }

  /** While a call is under way, it or somebody it waits for can go on; so every call returns and close finishes. */
  lemma NeverStuck(run: Trace<Step>, c: nat) returns (step: Step)
    requires Run(run).Some?
    requires var s := Run(run).value;
      (c < |s.clients| && Busy(s.clients[c])) || (!s.closer.NotCalled? && !s.closer.Aggregated?)
    ensures Enabled(Run(run).value, step) && !step.Call? && !step.WriteLock?
  {
    RunKeepsInv(run);
    var s := Run(run).value;
    step :=
      if s.closer.Locked? then WriteUnlock
      else if s.closer.Unlocked? then CloseChannel
      else if s.loop.Applying? then ApplyEvent
      else if c < |s.clients| && s.clients[c].Calling? then ReadLock(c)
      else if c < |s.clients| && s.clients[c].Sending? then Deliver(c)
      else if c < |s.clients| && (s.clients[c].Handed? || s.clients[c].Refused?) then ReadUnlock(c)
      else if s.loop.Ready? then LoopExits
      else Aggregate;
  }

  function ClientRank(client: Client): nat {
    match client
    case Calling(_) => 4 case Sending(_) => 3 case Handed(_) => 1 case Refused => 1 case Over(_) => 0
  }

  function ClientRanks(clients: seq<Client>): seq<int> {
    seq(|clients|, i requires 0 <= i < |clients| => ClientRank(clients[i]))
  }

  function Rank(s: State): int {
    Sum(ClientRanks(s.clients))
    + (match s.loop case Applying(_) => 2 case Ready => 1 case Exited => 0)
    + (match s.closer case NotCalled => 4 case Locked(_) => 3 case Unlocked(_) => 2 case Waiting => 1 case Aggregated(_) => 0)
  }

  lemma ClientRankAfter(clients: seq<Client>, c: nat, client: Client)
    requires c < |clients|
    ensures Sum(ClientRanks(clients[c := client])) ==
      Sum(ClientRanks(clients)) - ClientRank(clients[c]) + ClientRank(client)
  {
    SumUpdate(ClientRanks(clients), c, ClientRank(client));
    assert ClientRanks(clients[c := client]) == ClientRanks(clients)[c := ClientRank(client)];
  }

  lemma ClientStepDescends(s: State, step: Step)
    requires Enabled(s, step) && (step.ReadLock? || step.Deliver? || step.ReadUnlock?)
    ensures Rank(Apply(s, step)) < Rank(s)
  {
    ClientRankAfter(s.clients, step.c, Apply(s, step).clients[step.c]);
  }

  lemma CallAscends(s: State, e: Event)
    ensures Rank(Apply(s, Call(e))) == Rank(s) + 4
  {
    SumAppend(ClientRanks(s.clients), 4);
    assert ClientRanks(s.clients + [Calling(e)]) == ClientRanks(s.clients) + [4];
  }

  /** With n calls and one close a run has at most 5 n + 5 steps. */
  lemma {:induction false} RunsAreBounded(run: Trace<Step>)
    requires Run(run).Some?
    ensures Length(run) + Rank(Run(run).value) <= 5 * |Run(run).value.clients| + 5
  {
    match run
    case Start =>
    case Then(before, step) =>
      RunsAreBounded(before);
      RunKeepsInv(before);
      var s := Run(before).value;
      match step {
        case Call(e) => CallAscends(s, e);
        case ReadLock(_) => ClientStepDescends(s, step);
        case Deliver(_) => ClientStepDescends(s, step);
        case ReadUnlock(_) => ClientStepDescends(s, step);
        case _ =>
      }
  }
}
