/**
 * Local resources: the two-stage lock of internal/pkg/localresources/manager.go (CPUs, then RAM) and its client
 * LocalPool.Run in internal/pkg/reproxy/localexec.go.
 *
 * The weighted semaphores of golang.org/x/sync are modelled with their documented rule: waiters are served in
 * the order in which they asked, and an acquisition that cannot be served gives up when its context ends.
 */
module LocalResources {
  import opened GoInts
  import opened Lists
  import opened Sums
  import opened Traces
  import opened Wrappers

  // ---------------------------------------------------------------------------------------------
  // One manager, many callers of Lock
  // ---------------------------------------------------------------------------------------------

  /** Where one call of Lock stands; the amounts are the capped ones. */
  datatype Phase =
    | WaitingForCpus(cpus: nat, ram: nat) | WaitingForRam(cpus: nat, ram: nat) | Holding(cpus: nat, ram: nat)
    | Released | GaveUp

  /** `cpuQueue` and `ramQueue` are the callers blocked in each semaphore, the oldest first. */
  datatype State = State(
    totalCpus: nat, totalRam: nat, cpusInUse: int, ramInUse: int,
    calls: seq<Phase>, cpuQueue: seq<nat>, ramQueue: seq<nat>)

  /** NewManager: at least one unit of each. */
  function New(cpus: int, ram: int): State {
    State(Max(1, cpus), Max(1, ram), 0, 0, [], [], [])
  }

  datatype Step =
    | Lock(cpus: nat, ram: nat) | GetCpus(c: nat) | GetRam(c: nat) | Release(c: nat)
    | CpusFail(c: nat) | RamFails(c: nat)

  predicate Enabled(s: State, step: Step) {
    match step
    case Lock(_, _) => true
    case GetCpus(c) =>
      && c < |s.calls| && s.calls[c].WaitingForCpus? && s.cpuQueue != [] && s.cpuQueue[0] == c
      && s.cpusInUse + s.calls[c].cpus <= s.totalCpus
    case GetRam(c) =>
      && c < |s.calls| && s.calls[c].WaitingForRam? && s.ramQueue != [] && s.ramQueue[0] == c
      && s.ramInUse + s.calls[c].ram <= s.totalRam
    case Release(c) => c < |s.calls| && s.calls[c].Holding?
    case CpusFail(c) => c < |s.calls| && s.calls[c].WaitingForCpus?
    case RamFails(c) => c < |s.calls| && s.calls[c].WaitingForRam?
  }

  function Without(queue: seq<nat>, c: nat): seq<nat> {
    if queue == [] then []
    else if queue[0] == c then queue[1..]
    else [queue[0]] + Without(queue[1..], c)
  }

  function Apply(s: State, step: Step): State
    requires Enabled(s, step)
  {
    match step
    case Lock(cpus, ram) =>
      s.(calls := s.calls + [WaitingForCpus(Min(cpus, s.totalCpus), Min(ram, s.totalRam))],
         cpuQueue := s.cpuQueue + [|s.calls|])
    case GetCpus(c) =>
      var p := s.calls[c];
      s.(calls := s.calls[c := WaitingForRam(p.cpus, p.ram)], cpusInUse := s.cpusInUse + p.cpus,
         cpuQueue := s.cpuQueue[1..], ramQueue := s.ramQueue + [c])
    case GetRam(c) =>
      var p := s.calls[c];
      s.(calls := s.calls[c := Holding(p.cpus, p.ram)], ramInUse := s.ramInUse + p.ram, ramQueue := s.ramQueue[1..])
    case Release(c) =>
      var p := s.calls[c];
      s.(calls := s.calls[c := Released], cpusInUse := s.cpusInUse - p.cpus, ramInUse := s.ramInUse - p.ram)
    case CpusFail(c) => s.(calls := s.calls[c := GaveUp], cpuQueue := Without(s.cpuQueue, c))
    case RamFails(c) =>
      var p := s.calls[c];
      s.(calls := s.calls[c := GaveUp], cpusInUse := s.cpusInUse - p.cpus, ramQueue := Without(s.ramQueue, c))
  }

  function Run(init: State, run: Trace<Step>): Option<State> {
    match run
    case Start => Some(init)
    case Then(before, step) =>
      var s := Run(init, before);
      if s.Some? && Enabled(s.value, step) then Some(Apply(s.value, step)) else None
  }

  // ---------------------------------------------------------------------------------------------
  // Conservation
  // ---------------------------------------------------------------------------------------------

  function CpusOf(p: Phase): nat {
    if p.WaitingForRam? || p.Holding? then p.cpus else 0
  }

  function RamOf(p: Phase): nat {
    if p.Holding? then p.ram else 0
  }

  function Cpus(calls: seq<Phase>): seq<int> {
    seq(|calls|, i requires 0 <= i < |calls| => CpusOf(calls[i]))
  }

  function Ram(calls: seq<Phase>): seq<int> {
    seq(|calls|, i requires 0 <= i < |calls| => RamOf(calls[i]))
  }

  /** Nobody asks for more than there is, so every request can be served when it is alone. */
  predicate Capped(s: State, p: Phase) {
    p.WaitingForCpus? || p.WaitingForRam? || p.Holding? ==> p.cpus <= s.totalCpus && p.ram <= s.totalRam
  }

  predicate SumsInv(s: State) {
    && s.cpusInUse == Sum(Cpus(s.calls)) <= s.totalCpus
    && s.ramInUse == Sum(Ram(s.calls)) <= s.totalRam
  }

  /** Each queue holds exactly the calls that wait in it, once, and no call asks for more than there is. */
  ghost predicate QueuesInv(s: State) {
    && (forall c :: 0 <= c < |s.calls| ==> Capped(s, s.calls[c]))
    && (forall c :: 0 <= c < |s.calls| && s.calls[c].WaitingForCpus? ==> c in s.cpuQueue)
    && (forall c :: 0 <= c < |s.calls| && s.calls[c].WaitingForRam? ==> c in s.ramQueue)
    && (forall c :: c in s.cpuQueue ==> c < |s.calls| && s.calls[c].WaitingForCpus?)
    && (forall c :: c in s.ramQueue ==> c < |s.calls| && s.calls[c].WaitingForRam?)
    && Unique(s.cpuQueue) && Unique(s.ramQueue)
  }

  ghost predicate Inv(s: State) {
    SumsInv(s) && QueuesInv(s)
  }

  lemma {:induction false} WithoutContents(queue: seq<nat>, c: nat)
    requires Unique(queue)
    ensures Unique(Without(queue, c))
    ensures forall x :: x in Without(queue, c) <==> x in queue && x != c
  {
    if queue != [] {
      var rest := queue[1..];
      assert queue == [queue[0]] + rest && queue[0] !in rest;
      WithoutContents(rest, c);
      assert queue[0] !in Without(rest, c);
    }
  }

  /** The sums after the call `c` moves to `p`. */
  lemma SumsAfter(calls: seq<Phase>, c: nat, p: Phase)
    requires c < |calls|
    ensures Sum(Cpus(calls[c := p])) == Sum(Cpus(calls)) - CpusOf(calls[c]) + CpusOf(p)
    ensures Sum(Ram(calls[c := p])) == Sum(Ram(calls)) - RamOf(calls[c]) + RamOf(p)
  {
    SumUpdate(Cpus(calls), c, CpusOf(p));
    SumUpdate(Ram(calls), c, RamOf(p));
    assert Cpus(calls[c := p]) == Cpus(calls)[c := CpusOf(p)];
    assert Ram(calls[c := p]) == Ram(calls)[c := RamOf(p)];
  }

  lemma LockKeepsSums(s: State, cpus: nat, ram: nat)
    requires SumsInv(s)
    ensures SumsInv(Apply(s, Lock(cpus, ram)))
  {
    var t := Apply(s, Lock(cpus, ram));
    SumAppend(Cpus(s.calls), 0);
    SumAppend(Ram(s.calls), 0);
    assert Cpus(t.calls) == Cpus(s.calls) + [0];
    assert Ram(t.calls) == Ram(s.calls) + [0];
  }

  lemma LockKeepsQueues(s: State, cpus: nat, ram: nat)
    requires QueuesInv(s)
    ensures QueuesInv(Apply(s, Lock(cpus, ram)))
  {
    var t := Apply(s, Lock(cpus, ram));
    UniqueAppend(s.cpuQueue, |s.calls|);
    forall c | 0 <= c < |t.calls|
      ensures Capped(t, t.calls[c])
      ensures t.calls[c].WaitingForCpus? ==> c in t.cpuQueue
      ensures t.calls[c].WaitingForRam? ==> c in t.ramQueue
    {
      if c < |s.calls| {
        assert t.calls[c] == s.calls[c] && Capped(s, s.calls[c]);
      } else {
        assert t.cpuQueue[|s.cpuQueue|] == c;
      }
    }
  }

  lemma CpusKeepQueues(s: State, c: nat)
    requires QueuesInv(s) && Enabled(s, GetCpus(c))
    ensures QueuesInv(Apply(s, GetCpus(c)))
  {
    assert s.cpuQueue == [c] + s.cpuQueue[1..];
    assert forall x :: x in s.cpuQueue[1..] ==> x in s.cpuQueue && x != c;
    UniqueAppend(s.ramQueue, c);
  }

  lemma RamKeepsQueues(s: State, c: nat)
    requires QueuesInv(s) && Enabled(s, GetRam(c))
    ensures QueuesInv(Apply(s, GetRam(c)))
  {
    assert s.ramQueue == [c] + s.ramQueue[1..];
    assert forall x :: x in s.ramQueue[1..] ==> x in s.ramQueue && x != c;
  }

  lemma ReleaseKeepsQueues(s: State, c: nat)
    requires QueuesInv(s) && Enabled(s, Release(c))
    ensures QueuesInv(Apply(s, Release(c)))
  {
  }

  lemma FailureKeepsQueues(s: State, step: Step)
    requires QueuesInv(s) && Enabled(s, step) && (step.CpusFail? || step.RamFails?)
    ensures QueuesInv(Apply(s, step))
  {
    WithoutContents(s.cpuQueue, step.c);
    WithoutContents(s.ramQueue, step.c);
  }

  /** Every step but Lock moves one call from one phase to the next. */
  lemma MoveKeepsSums(s: State, step: Step)
    requires SumsInv(s) && Enabled(s, step) && !step.Lock?
    ensures SumsInv(Apply(s, step))
  {
    SumsAfter(s.calls, step.c, Apply(s, step).calls[step.c]);
  }

  lemma StepKeepsInv(s: State, step: Step)
    requires Inv(s) && Enabled(s, step)
    ensures Inv(Apply(s, step))
  {
    if !step.Lock? {
      MoveKeepsSums(s, step);
    }
    match step
    case Lock(cpus, ram) => LockKeepsSums(s, cpus, ram); LockKeepsQueues(s, cpus, ram);
    case GetCpus(c) => CpusKeepQueues(s, c);
    case GetRam(c) => RamKeepsQueues(s, c);
    case Release(c) => ReleaseKeepsQueues(s, c);
    case CpusFail(_) => FailureKeepsQueues(s, step);
    case RamFails(_) => FailureKeepsQueues(s, step);
  }

  /**
   * In every reachable state the units in use are exactly those of the callers that hold them, counting CPUs
   * held while waiting for RAM, and never exceed the totals; a caller that gave up holds nothing.
   */
  lemma {:induction false} UnitsAreConserved(cpus: int, ram: int, run: Trace<Step>)
    requires Run(New(cpus, ram), run).Some?
    ensures Inv(Run(New(cpus, ram), run).value)
    ensures var s := Run(New(cpus, ram), run).value;
      && s.totalCpus == Max(1, cpus) && s.totalRam == Max(1, ram)
      && 0 <= s.cpusInUse == Sum(Cpus(s.calls)) <= s.totalCpus
      && 0 <= s.ramInUse == Sum(Ram(s.calls)) <= s.totalRam
  {
    match run
    case Start =>
    case Then(before, step) =>
      UnitsAreConserved(cpus, ram, before);
      StepKeepsInv(Run(New(cpus, ram), before).value, step);
      var s := Run(New(cpus, ram), run).value;
      SumNonNegative(Cpus(s.calls));
      SumNonNegative(Ram(s.calls));
  }

  predicate Outstanding(p: Phase) {
    p.WaitingForCpus? || p.WaitingForRam? || p.Holding?
  }

  /** When no call is outstanding everything has been given back. */
  lemma AllGivenBack(cpus: int, ram: int, run: Trace<Step>)
    requires Run(New(cpus, ram), run).Some?
    requires var s := Run(New(cpus, ram), run).value; forall c :: 0 <= c < |s.calls| ==> !Outstanding(s.calls[c])
    ensures Run(New(cpus, ram), run).value.cpusInUse == 0 && Run(New(cpus, ram), run).value.ramInUse == 0
  {
    UnitsAreConserved(cpus, ram, run);
    SumOfZeros(Cpus(Run(New(cpus, ram), run).value.calls));
    SumOfZeros(Ram(Run(New(cpus, ram), run).value.calls));
  }

  /**
   * No deadlock: while a call is outstanding, some caller can be granted what it waits for or can release,
   * without any context ending. Requests are capped, and everybody takes CPUs before RAM.
   */
  lemma NeverDeadlocked(cpus: int, ram: int, run: Trace<Step>, c: nat) returns (step: Step)
    requires Run(New(cpus, ram), run).Some?
    requires var s := Run(New(cpus, ram), run).value; c < |s.calls| && Outstanding(s.calls[c])
    ensures Enabled(Run(New(cpus, ram), run).value, step) && (step.GetCpus? || step.GetRam? || step.Release?)
  {
    UnitsAreConserved(cpus, ram, run);
    var s := Run(New(cpus, ram), run).value;
    if holder: nat :| holder < |s.calls| && s.calls[holder].Holding? {
      step := Release(holder);
    } else {
      SumOfZeros(Ram(s.calls));
      if s.ramQueue != [] {
        var next := s.ramQueue[0];
        assert next in s.ramQueue && Capped(s, s.calls[next]);
        step := GetRam(next);
      } else {
        SumOfZeros(Cpus(s.calls));
        assert c in s.cpuQueue;
        var next := s.cpuQueue[0];
        assert next in s.cpuQueue && Capped(s, s.calls[next]);
        step := GetCpus(next);
      }
    }
  }

  // ---------------------------------------------------------------------------------------------
  // Amounts and order
  // ---------------------------------------------------------------------------------------------

  /** What the calls of Lock asked for; call c is the c-th of them. */
  function Asked(run: Trace<Step>): seq<(nat, nat)> {
    match run
    case Start => []
    case Then(before, step) => if step.Lock? then Asked(before) + [(step.cpus, step.ram)] else Asked(before)
  }

  /** While it is outstanding a call stands for what it asked for, or for everything if it asked for more. */
  predicate StandsFor(s: State, p: Phase, asked: (nat, nat)) {
    Outstanding(p) ==> p.cpus == Min(asked.0, s.totalCpus) && p.ram == Min(asked.1, s.totalRam)
  }

  /** Nobody gets more or less than the capped amounts that were asked for. */
  lemma {:induction false} AmountsAreAsked(init: State, run: Trace<Step>)
    requires init.calls == [] && Run(init, run).Some?
    ensures |Run(init, run).value.calls| == |Asked(run)|
    ensures forall c :: 0 <= c < |Asked(run)| ==>
      StandsFor(Run(init, run).value, Run(init, run).value.calls[c], Asked(run)[c])
  {
    match run
    case Start =>
    case Then(before, step) =>
      AmountsAreAsked(init, before);
      var s, t := Run(init, before).value, Run(init, run).value;
      forall c | 0 <= c < |Asked(run)|
        ensures StandsFor(t, t.calls[c], Asked(run)[c])
      {
        assert c < |Asked(before)| ==> StandsFor(s, s.calls[c], Asked(before)[c]);
      }
  }

  /** Units are held only after both semaphores granted them. */
  lemma {:induction false} HoldingMeansGranted(init: State, run: Trace<Step>, c: nat)
    requires init.calls == [] && Run(init, run).Some? && c < |Run(init, run).value.calls|
    ensures var p := Run(init, run).value.calls[c];
      && (p.WaitingForRam? || p.Holding? ==> Took(run, GetCpus(c)))
      && (p.Holding? ==> Took(run, GetRam(c)))
  {
    if run.Then? && c < |Run(init, run.before).value.calls| {
      HoldingMeansGranted(init, run.before, c);
    }
  }

  predicate Ascending(queue: seq<nat>) {
    forall i, j :: 0 <= i < j < |queue| ==> queue[i] < queue[j]
  }

  /** Both queues are in the order of the calls, and who waits for RAM came before who waits for CPUs. */
  predicate InOrder(s: State) {
    && Ascending(s.cpuQueue) && Ascending(s.ramQueue)
    && (forall x, y :: x in s.ramQueue && y in s.cpuQueue ==> x < y)
    && (forall x :: x in s.cpuQueue ==> x < |s.calls|)
    && (forall x :: x in s.ramQueue ==> x < |s.calls|)
  }

  lemma {:induction false} WithoutAscends(queue: seq<nat>, c: nat)
    requires Ascending(queue)
    ensures Ascending(Without(queue, c)) && forall x :: x in Without(queue, c) ==> x in queue
  {
    if queue != [] && queue[0] != c {
      WithoutAscends(queue[1..], c);
      var rest := Without(queue[1..], c);
      forall i | 0 <= i < |rest| ensures queue[0] < rest[i] {
        assert rest[i] in rest;
      }
    }
  }

  lemma TailAscends(queue: seq<nat>)
    requires Ascending(queue) && queue != []
    ensures Ascending(queue[1..]) && forall x :: x in queue[1..] ==> x in queue && queue[0] < x
  {
    forall x | x in queue[1..] ensures x in queue && queue[0] < x {
      var i :| 0 <= i < |queue[1..]| && queue[1..][i] == x;
      assert queue[i + 1] == x;
    }
  }

  lemma CpuGrantKeepsOrder(s: State, c: nat)
    requires InOrder(s) && Enabled(s, GetCpus(c))
    ensures InOrder(Apply(s, GetCpus(c)))
  {
    TailAscends(s.cpuQueue);
    forall i | 0 <= i < |s.ramQueue| ensures s.ramQueue[i] < c {
      assert s.ramQueue[i] in s.ramQueue && c in s.cpuQueue;
    }
  }

  lemma RamGrantKeepsOrder(s: State, c: nat)
    requires InOrder(s) && Enabled(s, GetRam(c))
    ensures InOrder(Apply(s, GetRam(c)))
  {
    TailAscends(s.ramQueue);
  }

  lemma OthersKeepOrder(s: State, step: Step)
    requires InOrder(s) && Enabled(s, step) && !step.GetCpus? && !step.GetRam?
    ensures InOrder(Apply(s, step))
  {
    if step.CpusFail? {
      WithoutAscends(s.cpuQueue, step.c);
    } else if step.RamFails? {
      WithoutAscends(s.ramQueue, step.c);
    } else if step.Lock? {
      forall i | 0 <= i < |s.cpuQueue| ensures s.cpuQueue[i] < |s.calls| {
        assert s.cpuQueue[i] in s.cpuQueue;
      }
    }
  }

  lemma {:induction false} RunsAreInOrder(cpus: int, ram: int, run: Trace<Step>)
    requires Run(New(cpus, ram), run).Some?
    ensures InOrder(Run(New(cpus, ram), run).value)
  {
    match run
    case Start =>
    case Then(before, step) =>
      RunsAreInOrder(cpus, ram, before);
      var s := Run(New(cpus, ram), before).value;
      match step {
        case GetCpus(c) => CpuGrantKeepsOrder(s, c);
        case GetRam(c) => RamGrantKeepsOrder(s, c);
        case _ => OthersKeepOrder(s, step);
      }
  }

  /** First come, first served: nobody is granted CPUs or RAM while an earlier call waits for them. */
  lemma NoOvertaking(cpus: int, ram: int, run: Trace<Step>, earlier: nat, later: nat)
    requires Run(New(cpus, ram), run).Some? && earlier < later < |Run(New(cpus, ram), run).value.calls|
    ensures var s := Run(New(cpus, ram), run).value;
      && (s.calls[earlier].WaitingForCpus? ==> !Enabled(s, GetCpus(later)))
      && (s.calls[earlier].WaitingForRam? ==> !Enabled(s, GetRam(later)))
  {
    RunsAreInOrder(cpus, ram, run);
    UnitsAreConserved(cpus, ram, run);
    var s := Run(New(cpus, ram), run).value;
    if s.calls[earlier].WaitingForCpus? {
      assert earlier in s.cpuQueue;
    }
    if s.calls[earlier].WaitingForRam? {
      assert earlier in s.ramQueue;
    }
  }

  function RankOf(p: Phase): nat {
    match p
    case WaitingForCpus(_, _) => 3 case WaitingForRam(_, _) => 2 case Holding(_, _) => 1
    case Released => 0 case GaveUp => 0
  }

  function Ranks(calls: seq<Phase>): seq<int> {
    seq(|calls|, i requires 0 <= i < |calls| => RankOf(calls[i]))
  }

  lemma RankAfter(calls: seq<Phase>, c: nat, p: Phase)
    requires c < |calls|
    ensures Sum(Ranks(calls[c := p])) == Sum(Ranks(calls)) - RankOf(calls[c]) + RankOf(p)
  {
    SumUpdate(Ranks(calls), c, RankOf(p));
    assert Ranks(calls[c := p]) == Ranks(calls)[c := RankOf(p)];
  }

  /** A run with n calls has at most 4 n steps; with NeverDeadlocked, every call is served or gives up in the end. */
  lemma {:induction false} RunsAreBounded(init: State, run: Trace<Step>)
    requires init.calls == [] && Run(init, run).Some?
    ensures Length(run) + Sum(Ranks(Run(init, run).value.calls)) <= 4 * |Run(init, run).value.calls|
  {
    match run
    case Start =>
    case Then(before, step) =>
      RunsAreBounded(init, before);
      var s := Run(init, before).value;
      var t := Run(init, run).value;
      if step.Lock? {
        SumAppend(Ranks(s.calls), 3);
        assert Ranks(t.calls) == Ranks(s.calls) + [3];
      } else {
        RankAfter(s.calls, step.c, t.calls[step.c]);
      }
  }

  // ---------------------------------------------------------------------------------------------
  // The code of one caller
  // ---------------------------------------------------------------------------------------------

  class Weighted {
    const size: int
    var cur: int

    constructor (size: int)
      ensures this.size == size && cur == 0
    {
      this.size := size;
      cur := 0;
    }

    /** The end of an acquisition: the units are granted, or the context has ended first. */
    method Acquire(n: int, ctxEnds: bool) returns (ok: bool)
      requires !ctxEnds ==> cur + n <= size
      modifies this
      ensures ok == !ctxEnds
      ensures cur == if ok then old(cur) + n else old(cur)
    {
      ok := !ctxEnds;
      if ok {
        cur := cur + n;
      }
    }

    method Release(n: int)
      requires n <= cur
      modifies this
      ensures cur == old(cur) - n
    {
      cur := cur - n;
    }
  }

  /** A time during which other calls take and give back units: the net changes, and whether the context ends. */
  datatype Meanwhile = Meanwhile(cpus: int, ram: int, ctxEnds: bool)

  class Manager {
    const cpus: Weighted
    const ram: Weighted
    const totalCpus: int
    const totalRam: int

    predicate Valid()
      reads cpus, ram
    {
      && cpus != ram && cpus.size == totalCpus && ram.size == totalRam && 1 <= totalCpus && 1 <= totalRam
      && 0 <= cpus.cur <= totalCpus && 0 <= ram.cur <= totalRam
    }

    constructor (cpus: int, ram: int)
      ensures Valid() && this.cpus.cur == 0 && this.ram.cur == 0 && fresh(this.cpus) && fresh(this.ram)
      ensures totalCpus == Max(1, cpus) && totalRam == Max(1, ram)
    {
      this.totalCpus := Max(1, cpus);
      this.totalRam := Max(1, ram);
      this.cpus := new Weighted(Max(1, cpus));
      this.ram := new Weighted(Max(1, ram));
    }

    /** What other calls can do to the units that are theirs, with `ours` for this call. */
    static predicate Possible(theirs: int, total: int, change: int, ours: int) {
      0 <= theirs + change <= total - ours
    }

    /** The units a successful call takes. */
    function Granted(wantCpus: nat, wantRam: nat): (int, int) {
      (Min(wantCpus, totalCpus), Min(wantRam, totalRam))
    }

    /** The two waits of a call of Lock, as the semaphores let them end. */
    predicate Waits(want: (int, int), forCpus: Meanwhile, forRam: Meanwhile)
      reads cpus, ram
    {
      var needed := if forCpus.ctxEnds then 0 else want.0;
      && Possible(cpus.cur, totalCpus, forCpus.cpus, needed)
      && Possible(ram.cur, totalRam, forCpus.ram, 0)
      && (!forCpus.ctxEnds ==>
            && Possible(cpus.cur + forCpus.cpus, totalCpus, forRam.cpus, want.0)
            && Possible(ram.cur + forCpus.ram, totalRam, forRam.ram, if forRam.ctxEnds then 0 else want.1))
    }

    method OthersRun(m: Meanwhile)
      requires cpus != ram
      modifies cpus, ram
      ensures cpus.cur == old(cpus.cur) + m.cpus && ram.cur == old(ram.cur) + m.ram
    {
      cpus.cur := cpus.cur + m.cpus;
      ram.cur := ram.cur + m.ram;
    }

    /**
     * The units taken on success, or None. Apart from what other calls did while this one waited, both
     * semaphores have changed by exactly the units taken. A nil manager grants everything and holds nothing.
     */
    static method Lock(m: Manager?, wantCpus: nat, wantRam: nat, forCpus: Meanwhile, forRam: Meanwhile)
      returns (held: Option<(int, int)>)
      requires m != null ==> m.Valid() && m.Waits(m.Granted(wantCpus, wantRam), forCpus, forRam)
      modifies if m == null then {} else {m.cpus, m.ram}
      ensures m == null ==> held == Some((0, 0))
      ensures m != null ==>
        && m.Valid()
        && held == (if forCpus.ctxEnds || forRam.ctxEnds then None else Some(m.Granted(wantCpus, wantRam)))
        && m.cpus.cur == old(m.cpus.cur) + forCpus.cpus + (if forCpus.ctxEnds then 0 else forRam.cpus)
          + (if held.Some? then held.value.0 else 0)
        && m.ram.cur == old(m.ram.cur) + forCpus.ram + (if forCpus.ctxEnds then 0 else forRam.ram)
          + (if held.Some? then held.value.1 else 0)
    {
      if m == null {
        return Some((0, 0));
      }
      var c, r := wantCpus, wantRam;
      if c > m.totalCpus || r > m.totalRam {
        c := Min(c, m.totalCpus);
        r := Min(r, m.totalRam);
      }
      m.OthersRun(forCpus);
      var ok := m.cpus.Acquire(c, forCpus.ctxEnds);
      if !ok {
        return None;
      }
      m.OthersRun(forRam);
      ok := m.ram.Acquire(r, forRam.ctxEnds);
      if !ok {
        m.cpus.Release(c);
        return None;
      }
      return Some((c, r));
    }

    /** The closure that Lock returned. */
    static method Unlock(m: Manager?, held: (int, int))
      requires m != null ==> m.Valid() && 0 <= held.0 <= m.cpus.cur && 0 <= held.1 <= m.ram.cur
      modifies if m == null then {} else {m.cpus, m.ram}
      ensures m != null ==>
        m.Valid() && m.cpus.cur == old(m.cpus.cur) - held.0 && m.ram.cur == old(m.ram.cur) - held.1
    {
      if m != null {
        m.cpus.Release(held.0);
        m.ram.Release(held.1);
      }
    }

    /** No call is excluded by Waits: whatever is in use, others can give back enough for it to be served. */
    lemma CanAlwaysBeServed(wantCpus: nat, wantRam: nat) returns (forCpus: Meanwhile, forRam: Meanwhile)
      requires Valid()
      ensures !forCpus.ctxEnds && !forRam.ctxEnds && Waits(Granted(wantCpus, wantRam), forCpus, forRam)
    {
      forCpus := Meanwhile(-cpus.cur, 0, false);
      forRam := Meanwhile(0, -ram.cur, false);
    }
  }

  datatype Labels = MetalavaLabels | JavacLabels | R8Labels | D8Labels | ClangLinkLabels | OtherLabels

  /** lblReqs, with defaultReqs for everything else: CPUs and megabytes of RAM. */
  function Requirements(labels: Labels): (nat, nat) {
    match labels
    case MetalavaLabels => (8, 8192)
    case JavacLabels => (8, 4096)
    case R8Labels => (8, 4096)
    case D8Labels => (8, 4096)
    case ClangLinkLabels => (1, 8192)
    case OtherLabels => (1, 512)
  }

  /** Compiling Java and Android code needs eight CPUs, linking and metalava most memory, everything else little. */
  lemma RequirementsExactly(labels: Labels)
    ensures Requirements(labels).0 == 8 <==>
      labels.MetalavaLabels? || labels.JavacLabels? || labels.R8Labels? || labels.D8Labels?
    ensures Requirements(labels).0 != 8 ==> Requirements(labels).0 == 1
    ensures Requirements(labels).1 == 8192 <==> labels.MetalavaLabels? || labels.ClangLinkLabels?
    ensures Requirements(labels).1 == 512 <==> labels.OtherLabels?
    ensures Requirements(labels).1 in {512, 4096, 8192}
  {
  }

  datatype RunError = QueueError | ExitError(code: int) | OtherError

  class LocalPool {
    const resMgr: Manager?

    constructor (resMgr: Manager?)
      ensures this.resMgr == resMgr
    {
      this.resMgr := resMgr;
    }

    /** The changes that other calls make on a path of Run. */
    static function Others(forCpus: Meanwhile, forRam: Meanwhile, during: Meanwhile): (int, int) {
      if forCpus.ctxEnds then (forCpus.cpus, forCpus.ram)
      else if forRam.ctxEnds then (forCpus.cpus + forRam.cpus, forCpus.ram + forRam.ram)
      else (forCpus.cpus + forRam.cpus + during.cpus, forCpus.ram + forRam.ram + during.ram)
    }

    /** Other calls may do anything during the execution but touch the units that it holds. */
    predicate LeavesOurs(want: (int, int), forCpus: Meanwhile, forRam: Meanwhile, during: Meanwhile)
      requires resMgr != null
      reads resMgr.cpus, resMgr.ram
    {
      var others := Others(forCpus, forRam, during);
      && Manager.Possible(resMgr.cpus.cur, resMgr.totalCpus, others.0, want.0)
      && Manager.Possible(resMgr.ram.cur, resMgr.totalRam, others.1, want.1)
    }

    /**
     * One local execution; `outcome` is the executor's answer. Whatever happens, this call has given back what
     * it took: the resources in use have changed by what other calls did. The command runs only when the
     * resources were granted; `inUse` is what is in use then, the capped requirements of the labels included.
     */
    method Run(labels: Labels, forCpus: Meanwhile, forRam: Meanwhile, during: Meanwhile, outcome: Option<RunError>)
      returns (exitCode: int, err: Option<RunError>, executed: bool, inUse: (int, int))
      requires resMgr != null ==>
        var want := resMgr.Granted(Requirements(labels).0, Requirements(labels).1);
        && resMgr.Valid() && resMgr.Waits(want, forCpus, forRam)
        && (!forCpus.ctxEnds && !forRam.ctxEnds ==> LeavesOurs(want, forCpus, forRam, during))
      modifies if resMgr == null then {} else {resMgr.cpus, resMgr.ram}
      ensures resMgr != null ==>
        var others := Others(forCpus, forRam, during);
        && resMgr.Valid()
        && resMgr.cpus.cur == old(resMgr.cpus.cur) + others.0 && resMgr.ram.cur == old(resMgr.ram.cur) + others.1
      ensures executed <==> resMgr == null || (!forCpus.ctxEnds && !forRam.ctxEnds)
      ensures executed && resMgr != null ==>
        && inUse.0 == old(resMgr.cpus.cur) + forCpus.cpus + forRam.cpus + Min(Requirements(labels).0, resMgr.totalCpus)
        && inUse.1 == old(resMgr.ram.cur) + forCpus.ram + forRam.ram + Min(Requirements(labels).1, resMgr.totalRam)
      ensures err == if executed then outcome else Some(QueueError)
      ensures exitCode == if executed && outcome.Some? && outcome.value.ExitError? then outcome.value.code else 0
    {
      var req := Requirements(labels);
      var held := Manager.Lock(resMgr, req.0, req.1, forCpus, forRam);
      if held.None? {
        return 0, Some(QueueError), false, (0, 0);
      }
      executed, inUse := true, (0, 0);
      if resMgr != null {
        inUse := (resMgr.cpus.cur, resMgr.ram.cur);
        resMgr.OthersRun(during);
      }
      err := outcome;
      exitCode := 0;
      if err.Some? && err.value.ExitError? {
        exitCode := err.value.code;
      }
      Manager.Unlock(resMgr, held.value);
    }
  }
}
