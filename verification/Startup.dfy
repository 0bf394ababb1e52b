/**
 * The server's lifecycle in internal/pkg/reproxy/server.go: two goroutines of cmd/reproxy/main.go each report
 * one outcome of the asynchronous startup, any number of commands wait for it, register with the wait group and
 * end, and drain may begin at any time.
 */
module Startup {
  import opened Traces
  import opened Wrappers

  type Error = string

  /** The function each component hands over with it. */
  datatype Cleanup = InputProcessorCleanup | REClientCleanup

  /** The fields guarded by smu, and the one-shot channel `started`; `ran` logs the cleanup functions called. */
  datatype Fields = Fields(
    startErr: Option<Error>, inputProcessor: bool, reClient: bool,
    startedCloses: nat, cleanupFns: seq<Cleanup>, ran: seq<Cleanup>)

  predicate Started(f: Fields) {
    f.startedCloses > 0
  }

  function MaybeUnblock(f: Fields): Fields {
    if !Started(f) && (f.startErr.Some? || (f.inputProcessor && f.reClient))
    then f.(startedCloses := f.startedCloses + 1)
    else f
  }

  /** A component arrives: cleaned up at once after an error, kept for drain otherwise. */
  function Provided(f: Fields, c: Cleanup): Fields {
    if f.startErr.Some? then f.(ran := f.ran + [c])
    else
      var g := f.(cleanupFns := f.cleanupFns + [c]);
      MaybeUnblock(if c.InputProcessorCleanup? then g.(inputProcessor := true) else g.(reClient := true))
  }

  /** Only the first error is kept. */
  function Failed(f: Fields, err: Error): Fields {
    if f.startErr.Some? then f else MaybeUnblock(f.(startErr := Some(err)))
  }

  class Server {
    var startErr: Option<Error>
    var inputProcessor: bool
    var reClient: bool
    var startedCloses: nat
    var cleanupFns: seq<Cleanup>
    var ran: seq<Cleanup>

    function Value(): Fields
      reads this
    {
      Fields(startErr, inputProcessor, reClient, startedCloses, cleanupFns, ran)
    }

    constructor ()
      ensures Value() == Fields(None, false, false, 0, [], [])
    {
      startErr, inputProcessor, reClient := None, false, false;
      startedCloses, cleanupFns, ran := 0, [], [];
    }

    method Call(cleanup: Cleanup)
      modifies this`ran
      ensures ran == old(ran) + [cleanup]
    {
      ran := ran + [cleanup];
    }

    method MaybeUnblockStartup()
      modifies this`startedCloses
      ensures Value() == MaybeUnblock(old(Value()))
    {
      if startedCloses > 0 {
        return;
      }
      if startErr.Some? || (inputProcessor && reClient) {
        startedCloses := startedCloses + 1;
      }
    }

    method SetInputProcessor(cleanup: Cleanup)
      requires cleanup.InputProcessorCleanup?
      modifies this
      ensures Value() == Provided(old(Value()), cleanup)
    {
      if startErr.Some? {
        Call(cleanup);
        return;
      }
      inputProcessor := true;
      cleanupFns := cleanupFns + [cleanup];
      MaybeUnblockStartup();
    }

    method SetREClient(cleanup: Cleanup)
      requires cleanup.REClientCleanup?
      modifies this
      ensures Value() == Provided(old(Value()), cleanup)
    {
      if startErr.Some? {
        Call(cleanup);
        return;
      }
      reClient := true;
      cleanupFns := cleanupFns + [cleanup];
      MaybeUnblockStartup();
    }

    method SetStartupErr(err: Error)
      modifies this
      ensures Value() == Failed(old(Value()), err)
    {
      if startErr.Some? {
        return;
      }
      startErr := Some(err);
      MaybeUnblockStartup();
    }

    /** The goroutine that drain leaves behind: every cleanup function of the list, in order. */
    method RunCleanups()
      modifies this`ran
      ensures ran == old(ran) + cleanupFns
    {
      var i := 0;
      while i < |cleanupFns|
        invariant i <= |cleanupFns|
        invariant ran == old(ran) + cleanupFns[..i]
      {
        Call(cleanupFns[i]);
        i := i + 1;
      }
    }
  }

  // ---------------------------------------------------------------------------------------------
  // The concurrent system
  // ---------------------------------------------------------------------------------------------

  /** Each startup goroutine makes exactly one call: it provides its component or reports an error. */
  datatype Side = Pending | Provides | Fails

  /** `Emptying` waits for the wait group; `Cleaning` holds the functions the cleanup goroutine has not called yet. */
  datatype Drain = NotCalled | WaitingForStarted | Closing | Emptying | Cleaning(rest: seq<Cleanup>) | Over

  /**
   * `drainCloses` counts how often the drain channel was closed; `answers` are what waitForStarted returned.
   * `admitted` commands got nil and have not registered yet, `inFlight` is the wait group, and `late` counts the
   * commands that registered after drain had waited for it.
   */
  datatype State = State(
    server: Fields, ip: Side, re: Side, drain: Drain, drainCloses: nat, answers: seq<Option<Error>>,
    admitted: nat, inFlight: nat, late: nat)

  const INIT := State(Fields(None, false, false, 0, [], []), Pending, Pending, NotCalled, 0, [], 0, 0, 0)

  datatype Step =
    | InputProcessorReady | InputProcessorFails(err: Error) | REClientReady | REClientFails(err: Error)
    | ClientWaits | CommandBegins | CommandEnds
    | CallDrain | DrainSeesStarted | CloseDrain | WaitOver | CleanupNext | CleanupOver

  /** Drain has waited for the commands in flight. */
  predicate Waited(drain: Drain) {
    drain.Cleaning? || drain.Over?
  }

  predicate Enabled(s: State, step: Step) {
    match step
    case InputProcessorReady => s.ip.Pending?
    case InputProcessorFails(_) => s.ip.Pending?
    case REClientReady => s.re.Pending?
    case REClientFails(_) => s.re.Pending?
    case ClientWaits => Started(s.server)
    case CommandBegins => s.admitted > 0
    case CommandEnds => s.inFlight > 0
    case CallDrain => true
    case DrainSeesStarted => s.drain.WaitingForStarted? && Started(s.server)
    case CloseDrain => s.drain.Closing?
    case WaitOver => s.drain.Emptying? && s.inFlight == 0
    case CleanupNext => s.drain.Cleaning? && s.drain.rest != []
    case CleanupOver => s.drain.Cleaning? && s.drain.rest == []
  }

  function Apply(s: State, step: Step): State
    requires Enabled(s, step)
  {
    match step
    case InputProcessorReady => s.(server := Provided(s.server, InputProcessorCleanup), ip := Provides)
    case InputProcessorFails(err) => s.(server := Failed(s.server, err), ip := Fails)
    case REClientReady => s.(server := Provided(s.server, REClientCleanup), re := Provides)
    case REClientFails(err) => s.(server := Failed(s.server, err), re := Fails)
    case ClientWaits =>
      s.(answers := s.answers + [s.server.startErr],
         admitted := if s.server.startErr.None? then s.admitted + 1 else s.admitted)
    case CommandBegins =>
      s.(admitted := s.admitted - 1, inFlight := s.inFlight + 1, late := if Waited(s.drain) then s.late + 1 else s.late)
    case CommandEnds => s.(inFlight := s.inFlight - 1)
    // Once.Do: only the first call has an effect.
    case CallDrain =>
      if !s.drain.NotCalled? then s
      else s.(drain := if Started(s.server) then Closing else WaitingForStarted)
    case DrainSeesStarted => s.(drain := Closing)
    case CloseDrain => s.(drain := Emptying, drainCloses := s.drainCloses + 1)
    case WaitOver => s.(drain := Cleaning(s.server.cleanupFns))
    case CleanupNext =>
      s.(server := s.server.(ran := s.server.ran + [s.drain.rest[0]]), drain := Cleaning(s.drain.rest[1..]))
    case CleanupOver => s.(drain := Over)
  }

  function Run(run: Trace<Step>): Option<State> {
    match run
    case Start => Some(INIT)
    case Then(before, step) =>
      var s := Run(before);
      if s.Some? && Enabled(s.value, step) then Some(Apply(s.value, step)) else None
  }

  /** The cleanup functions handed over so far. */
  function HandedOver(s: State): multiset<Cleanup> {
    (if s.ip.Provides? then multiset{InputProcessorCleanup} else multiset{})
    + (if s.re.Provides? then multiset{REClientCleanup} else multiset{})
  }

  /** Handed over and still to be called by drain. */
  function Owed(s: State): seq<Cleanup> {
    match s.drain
    case Cleaning(rest) => rest
    case Over => []
    case _ => s.server.cleanupFns
  }

  /** Every function handed over was called or is owed, and there is nothing else. */
  predicate Accounted(s: State) {
    multiset(s.server.ran) + multiset(Owed(s)) == HandedOver(s)
  }

  predicate Inv(s: State) {
    GateInv(s) && Accounted(s)
  }

  predicate GateInv(s: State) {
    && s.server.startedCloses <= 1
    && (Started(s.server) <==> s.server.startErr.Some? || (s.server.inputProcessor && s.server.reClient))
    && (s.server.inputProcessor ==> s.ip.Provides?)
    && (s.server.reClient ==> s.re.Provides?)
    && (s.server.startErr.None? && s.ip.Provides? ==> s.server.inputProcessor)
    && (s.server.startErr.None? && s.re.Provides? ==> s.server.reClient)
    && (s.server.startErr.Some? <==> s.ip.Fails? || s.re.Fails?)
    && (s.drain.Closing? || s.drain.Emptying? || Waited(s.drain) ==> Started(s.server))
    && s.drainCloses == (if s.drain.Emptying? || Waited(s.drain) then 1 else 0)
    && (Waited(s.drain) ==> s.inFlight <= s.late)
    && (!Waited(s.drain) ==> s.late == 0)
    && (s.answers != [] ==> Started(s.server))
    && (forall answer :: answer in s.answers ==> answer == s.server.startErr)
  }

  /** The function handed over by a step that provides a component. */
  function Handed(step: Step): Cleanup {
    if step.InputProcessorReady? then InputProcessorCleanup else REClientCleanup
  }

  lemma ReadyKeepsGate(s: State, step: Step)
    requires GateInv(s) && Enabled(s, step) && (step.InputProcessorReady? || step.REClientReady?)
    ensures GateInv(Apply(s, step))
  {
  }

  lemma ReadyKeepsAccount(s: State, step: Step)
    requires Inv(s) && Enabled(s, step) && (step.InputProcessorReady? || step.REClientReady?)
    ensures Accounted(Apply(s, step))
  {
    var t := Apply(s, step);
    var c := Handed(step);
    assert HandedOver(t) == HandedOver(s) + multiset{c};
    if s.server.startErr.Some? {
      assert t.server.ran == s.server.ran + [c] && Owed(t) == Owed(s);
    } else {
      assert t.server.ran == s.server.ran && Owed(t) == Owed(s) + [c];
    }
  }

  lemma FailureKeepsInv(s: State, step: Step)
    requires Inv(s) && Enabled(s, step) && (step.InputProcessorFails? || step.REClientFails?)
    ensures Inv(Apply(s, step))
  {
    if s.server.startErr.None? {
      assert !Started(s.server);
    }
  }

  lemma CleanupKeepsInv(s: State)
    requires Inv(s) && Enabled(s, CleanupNext)
    ensures Inv(Apply(s, CleanupNext))
  {
    var rest := s.drain.rest;
    assert rest == [rest[0]] + rest[1..];
    assert multiset(s.server.ran + [rest[0]]) + multiset(rest[1..]) == multiset(s.server.ran) + multiset(rest);
  }

  lemma DrainCalledKeepsInv(s: State, step: Step)
    requires Inv(s) && Enabled(s, step) && (step.CallDrain? || step.DrainSeesStarted?)
    ensures Inv(Apply(s, step))
  {
    assert Owed(Apply(s, step)) == Owed(s);
  }

  lemma DrainKeepsInv(s: State, step: Step)
    requires Inv(s) && Enabled(s, step) && (step.CloseDrain? || step.WaitOver? || step.CleanupOver?)
    ensures Inv(Apply(s, step))
  {
    assert Owed(Apply(s, step)) == Owed(s);
  }

  lemma WaitingKeepsInv(s: State)
    requires Inv(s) && Enabled(s, ClientWaits)
    ensures Inv(Apply(s, ClientWaits))
  {
    assert Owed(Apply(s, ClientWaits)) == Owed(s);
  }

  lemma CommandKeepsInv(s: State, step: Step)
    requires Inv(s) && Enabled(s, step) && (step.CommandBegins? || step.CommandEnds?)
    ensures Inv(Apply(s, step))
  {
    assert Owed(Apply(s, step)) == Owed(s);
  }

  lemma StepKeepsInv(s: State, step: Step)
    requires Inv(s) && Enabled(s, step)
    ensures Inv(Apply(s, step))
  {
    match step
    case InputProcessorReady | REClientReady =>
      ReadyKeepsGate(s, step);
      ReadyKeepsAccount(s, step);
    case InputProcessorFails(_) => FailureKeepsInv(s, step);
    case REClientFails(_) => FailureKeepsInv(s, step);
    case ClientWaits => WaitingKeepsInv(s);
    case CommandBegins | CommandEnds => CommandKeepsInv(s, step);
    case CallDrain | DrainSeesStarted => DrainCalledKeepsInv(s, step);
    case CloseDrain | WaitOver | CleanupOver => DrainKeepsInv(s, step);
    case CleanupNext => CleanupKeepsInv(s);
  }

  lemma {:induction false} RunKeepsInv(run: Trace<Step>)
    requires Run(run).Some?
    ensures Inv(Run(run).value)
  {
    match run
    case Start =>
    case Then(before, step) =>
      RunKeepsInv(before);
      StepKeepsInv(Run(before).value, step);
  }

  /** `started` and `drain` are closed at most once each; a second close would panic. */
  lemma ChannelsClosedOnce(run: Trace<Step>)
    requires Run(run).Some?
    ensures Run(run).value.server.startedCloses <= 1 && Run(run).value.drainCloses <= 1
  {
    RunKeepsInv(run);
  }

  /** The steps after `before`, in a longer run. */
  predicate Extends(run: Trace<Step>, before: Trace<Step>) {
    run == before || (run.Then? && Extends(run.before, before))
  }

  /**
   * From the moment `started` is closed, the error a waiter is given and the list of cleanup functions never
   * change again, whatever the other startup goroutine still reports.
   */
  lemma {:induction false} FrozenOnceStarted(run: Trace<Step>, before: Trace<Step>)
    requires Extends(run, before) && Run(run).Some?
    requires Run(before).Some? && Started(Run(before).value.server)
    ensures Started(Run(run).value.server)
    ensures Run(run).value.server.startErr == Run(before).value.server.startErr
    ensures Run(run).value.server.cleanupFns == Run(before).value.server.cleanupFns
  {
    if run != before {
      FrozenOnceStarted(run.before, before);
      RunKeepsInv(run.before);
      FrozenStep(Run(run.before).value, run.step);
    }
  }

  lemma FrozenStep(s: State, step: Step)
    requires GateInv(s) && Started(s.server) && Enabled(s, step)
    ensures Started(Apply(s, step).server)
    ensures Apply(s, step).server.startErr == s.server.startErr
    ensures Apply(s, step).server.cleanupFns == s.server.cleanupFns
  {
  }

  /**
   * All waiters get the same answer, and it is nil exactly when both components are set: a nil answer lets a
   * command run, so no command ever sees a missing component.
   */
  lemma NilAnswerMeansReady(run: Trace<Step>, i: nat)
    requires Run(run).Some? && i < |Run(run).value.answers|
    ensures Run(run).value.answers[i] == Run(run).value.server.startErr
    ensures Run(run).value.answers[i].None? <==> Run(run).value.server.inputProcessor && Run(run).value.server.reClient
  {
    RunKeepsInv(run);
  }

  /** No cleanup function is called that was not handed over, and none is called twice. */
  lemma CleanupAtMostOnce(run: Trace<Step>)
    requires Run(run).Some?
    ensures multiset(Run(run).value.server.ran) <= HandedOver(Run(run).value)
    ensures forall c :: multiset(Run(run).value.server.ran)[c] <= 1
  {
    RunKeepsInv(run);
  }

  /** Once drain is over, every cleanup function handed over has been called exactly once, early or late. */
  lemma DrainedMeansAllCleanedUp(run: Trace<Step>)
    requires Run(run).Some? && Run(run).value.drain.Over?
    ensures multiset(Run(run).value.server.ran) == HandedOver(Run(run).value)
  {
    RunKeepsInv(run);
  }

  /**
   * After an error the cleanup list stays as it is, and every function handed over that is not on it has been
   * called, without waiting for drain.
   */
  lemma ErrorCleansUpAtOnce(run: Trace<Step>, before: Trace<Step>, c: Cleanup)
    requires Extends(run, before) && Run(run).Some?
    requires Run(before).Some? && Run(before).value.server.startErr.Some?
    requires c in HandedOver(Run(run).value) && c !in Run(before).value.server.cleanupFns
    ensures c in Run(run).value.server.ran
  {
    RunKeepsInv(before);
    RunKeepsInv(run);
    FrozenOnceStarted(run, before);
    var s := Run(run).value;
    OwedAreListed(run);
    assert c in multiset(s.server.ran) + multiset(Owed(s));
  }

  /** Drain owes nothing but functions of the list. */
  lemma {:induction false} OwedAreListed(run: Trace<Step>)
    requires Run(run).Some?
    ensures forall c :: c in Owed(Run(run).value) ==> c in Run(run).value.server.cleanupFns
  {
    match run
    case Start =>
    case Then(before, step) => OwedAreListed(before);
  }

  // ---------------------------------------------------------------------------------------------
  // The fields by the steps
  // ---------------------------------------------------------------------------------------------

  /** The error of the first startup goroutine that failed. */
  function FirstFailure(run: Trace<Step>): Option<Error> {
    match run
    case Start => None
    case Then(before, step) =>
      if FirstFailure(before).Some? then FirstFailure(before)
      else if step.InputProcessorFails? || step.REClientFails? then Some(step.err)
      else None
  }

  /** The components that were provided before any failure, in order. */
  function ProvidedInTime(run: Trace<Step>): seq<Cleanup> {
    match run
    case Start => []
    case Then(before, step) =>
      if FirstFailure(before).Some? then ProvidedInTime(before)
      else if step.InputProcessorReady? then ProvidedInTime(before) + [InputProcessorCleanup]
      else if step.REClientReady? then ProvidedInTime(before) + [REClientCleanup]
      else ProvidedInTime(before)
  }

  /**
   * The error is that of the first failure; the components are those provided before it, and the cleanup list
   * holds their functions, in the order in which they came.
   */
  lemma {:induction false} FieldsBySteps(run: Trace<Step>)
    requires Run(run).Some?
    ensures var f := Run(run).value.server;
      && f.startErr == FirstFailure(run) && f.cleanupFns == ProvidedInTime(run)
      && (f.inputProcessor <==> InputProcessorCleanup in ProvidedInTime(run))
      && (f.reClient <==> REClientCleanup in ProvidedInTime(run))
  {
    match run
    case Start =>
    case Then(before, step) =>
      FieldsBySteps(before);
      FieldsStep(Run(before).value, step);
  }

  /** What a step does to the error, the components and the list. */
  lemma FieldsStep(s: State, step: Step)
    requires Enabled(s, step)
    ensures var f, g := s.server, Apply(s, step).server;
      && (f.startErr.Some? ==>
            g.startErr == f.startErr && g.cleanupFns == f.cleanupFns && g.inputProcessor == f.inputProcessor && g.reClient == f.reClient)
      && (f.startErr.None? ==>
            && g.startErr == (if step.InputProcessorFails? || step.REClientFails? then Some(step.err) else None)
            && g.cleanupFns == f.cleanupFns +
              (if step.InputProcessorReady? then [InputProcessorCleanup] else if step.REClientReady? then [REClientCleanup] else [])
            && (g.inputProcessor <==> f.inputProcessor || step.InputProcessorReady?)
            && (g.reClient <==> f.reClient || step.REClientReady?))
  {
  }

  function Count(answers: seq<Option<Error>>): nat {
    if answers == [] then 0
    else Count(answers[..|answers| - 1]) + if answers[|answers| - 1].None? then 1 else 0
  }

  function Begins(run: Trace<Step>): nat {
    match run
    case Start => 0
    case Then(before, step) => Begins(before) + if step.CommandBegins? then 1 else 0
  }

  function Ends(run: Trace<Step>): nat {
    match run
    case Start => 0
    case Then(before, step) => Ends(before) + if step.CommandEnds? then 1 else 0
  }

  /** Every nil answer lets one command register, and the wait group counts those that have and have not ended. */
  lemma {:induction false} CommandsAreCounted(run: Trace<Step>)
    requires Run(run).Some?
    ensures Run(run).value.admitted + Begins(run) == Count(Run(run).value.answers)
    ensures Run(run).value.inFlight + Ends(run) == Begins(run)
  {
    match run
    case Start =>
    case Then(before, step) =>
      CommandsAreCounted(before);
      var s := Run(before).value;
      assert (s.answers + [s.server.startErr])[..|s.answers|] == s.answers;
  }

  // ---------------------------------------------------------------------------------------------
  // Commands and drain
  // ---------------------------------------------------------------------------------------------

  /** Cleanup by drain meets a command in flight only if that command registered after drain had waited. */
  lemma CleanupMeetsOnlyLateCommands(run: Trace<Step>)
    requires Run(run).Some? && Waited(Run(run).value.drain)
    ensures Run(run).value.inFlight <= Run(run).value.late
  {
    RunKeepsInv(run);
  }

  /** At no point of the run, once drain had waited, was a command in flight. */
  ghost predicate Undisturbed(run: Trace<Step>) {
    forall before :: Extends(run, before) && Run(before).Some? && Waited(Run(before).value.drain) ==>
      Run(before).value.inFlight == 0
  }

  lemma {:induction false} LateOnlyGrows(run: Trace<Step>, before: Trace<Step>)
    requires Extends(run, before) && Run(run).Some?
    ensures Run(before).Some? && Run(before).value.late <= Run(run).value.late
  {
    if run != before {
      LateOnlyGrows(run.before, before);
    }
  }

  /** The point of the run at which a late command had just registered. */
  lemma {:induction false} LateCommandIsInFlight(run: Trace<Step>) returns (before: Trace<Step>)
    requires Run(run).Some? && Run(run).value.late > 0
    ensures Extends(run, before) && Run(before).Some?
    ensures Waited(Run(before).value.drain) && Run(before).value.inFlight > 0
  {
    if Run(run.before).value.late > 0 {
      before := LateCommandIsInFlight(run.before);
    } else {
      before := run;
    }
  }

  /** Cleanup by drain meets no command at any point exactly when none registered after drain had waited. */
  lemma UndisturbedExactly(run: Trace<Step>)
    requires Run(run).Some?
    ensures Undisturbed(run) <==> Run(run).value.late == 0
  {
    if Run(run).value.late == 0 {
      forall before | Extends(run, before) && Run(before).Some? && Waited(Run(before).value.drain)
        ensures Run(before).value.inFlight == 0
      {
        LateOnlyGrows(run, before);
        RunKeepsInv(before);
      }
    } else {
      var before := LateCommandIsInFlight(run);
    }
  }

  lemma Take(run: Trace<Step>, step: Step) returns (next: Trace<Step>)
    requires Run(run).Some? && Enabled(Run(run).value, step)
    ensures next == Then(run, step) && Run(next) == Some(Apply(Run(run).value, step))
  {
    next := Then(run, step);
  }

  /** A server that is ready, with one client that was told so. */
  lemma ReachAdmitted() returns (run: Trace<Step>)
    ensures Run(run).Some? && Run(run).value.drain.NotCalled? && Started(Run(run).value.server)
    ensures Run(run).value.admitted == 1 && Run(run).value.inFlight == 0 && Run(run).value.late == 0
  {
    run := Take(Start, InputProcessorReady);
    run := Take(run, REClientReady);
    run := Take(run, ClientWaits);
  }

  /** A command that has its nil answer but has not registered when drain waits is not waited for. */
  lemma LateCommandMeetsCleanup()
    ensures exists run ::
      Run(run).Some? && Run(run).value.drain.Cleaning? && Run(run).value.inFlight == 1 && Run(run).value.late == 1
  {
    var run := ReachAdmitted();
    run := Take(run, CallDrain);
    run := Take(run, CloseDrain);
    run := Take(run, WaitOver);
    run := Take(run, CommandBegins);
  }

  // ---------------------------------------------------------------------------------------------
  // Progress
  // ---------------------------------------------------------------------------------------------

  /** The work left: the two outcomes, the commands, and drain. */
  function Rank(s: State): nat {
    (if s.ip.Pending? then 3 else 0) + (if s.re.Pending? then 3 else 0) + 2 * s.admitted + s.inFlight + DrainRank(s)
  }

  function DrainRank(s: State): nat {
    match s.drain
    case NotCalled => 7
    case WaitingForStarted => 4 + |s.server.cleanupFns|
    case Closing => 3 + |s.server.cleanupFns|
    case Emptying => 2 + |s.server.cleanupFns|
    case Cleaning(rest) => 1 + |rest|
    case Over => 0
  }

  /** A further call of DrainAndReleaseResources, which does nothing. */
  predicate Idle(s: State, step: Step) {
    step.CallDrain? && !s.drain.NotCalled?
  }

  lemma AtMostTwoCleanups(s: State)
    requires Inv(s) && s.drain.NotCalled?
    ensures |s.server.cleanupFns| <= 2
  {
    assert |multiset(s.server.ran) + multiset(s.server.cleanupFns)| == |s.server.ran| + |s.server.cleanupFns|;
  }

  /** Every step but another waiting client and an idle call of drain leaves less to do. */
  lemma StepDescends(s: State, step: Step)
    requires Inv(s) && Enabled(s, step) && !step.ClientWaits? && !Idle(s, step)
    ensures Rank(Apply(s, step)) < Rank(s)
  {
    if step.CallDrain? {
      AtMostTwoCleanups(s);
    }
  }

  /** The steps of a run other than idle calls of drain. */
  function Effort(run: Trace<Step>): nat
    requires Run(run).Some?
  {
    match run
    case Start => 0
    case Then(before, step) => Effort(before) + (if Idle(Run(before).value, step) then 0 else 1)
  }

  /** In every schedule: with n clients that wait for startup, a run takes at most 3 n + 13 steps. */
  lemma {:induction false} RunsAreBounded(run: Trace<Step>)
    requires Run(run).Some?
    ensures Effort(run) + Rank(Run(run).value) <= 3 * |Run(run).value.answers| + 13
  {
    match run
    case Start =>
    case Then(before, step) =>
      RunsAreBounded(before);
      RunKeepsInv(before);
      var s := Run(before).value;
      if !step.ClientWaits? && !Idle(s, step) {
        StepDescends(s, step);
      }
  }

  /** Drain never waits in vain: until it is over, it, a startup goroutine or a command can go on. */
  function DrainStep(s: State): Step {
    match s.drain
    case NotCalled => CallDrain
    case WaitingForStarted =>
      if s.ip.Pending? then InputProcessorReady else if s.re.Pending? then REClientReady else DrainSeesStarted
    case Closing => CloseDrain
    case Emptying => if s.inFlight > 0 then CommandEnds else WaitOver
    case Cleaning(rest) => if rest == [] then CleanupOver else CleanupNext
    case Over => CallDrain
  }

  lemma DrainNeverStuck(run: Trace<Step>)
    requires Run(run).Some? && !Run(run).value.drain.Over?
    ensures var s := Run(run).value;
      && Enabled(s, DrainStep(s)) && !Idle(s, DrainStep(s))
      && Rank(Apply(s, DrainStep(s))) < Rank(s)
  {
    RunKeepsInv(run);
    StepDescends(Run(run).value, DrainStep(Run(run).value));
  }
}
