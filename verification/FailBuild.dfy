/**
 * The fail-early switch of internal/pkg/reproxy/server.go: a monitor that sets the failBuild flag under a lock
 * and then cancels every action it finds registered, against actions that come, read the flag, run and leave.
 */
module FailBuild {
  import opened Traces
  import opened Wrappers

  const ALLOWED_IP_TIMEOUTS: int := 7

  datatype Error = TooManyTimeouts(timeouts: int) | TooManyFallbacks(minRatio: real)

  /**
   * float64(nf)/float64(na) >= minRatio, with the IEEE 754 results for a zero divisor: positive infinity for
   * nf > 0, negative infinity for nf < 0, and NaN, which compares false, for nf == 0.
   */
  predicate RatioReached(nf: int, na: int, minRatio: real) {
    if na != 0 then nf as real / na as real >= minRatio else nf > 0
  }

  /** The thresholds of a server. */
  datatype Limits = Limits(minActionCount: int, minFallbackRatio: real)

  /** The condition under which a check fails the build. */
  predicate Trips(limits: Limits, nf: int, na: int, nt: int) {
    nt > ALLOWED_IP_TIMEOUTS || (na >= limits.minActionCount && RatioReached(nf, na, limits.minFallbackRatio))
  }

  function FailBuildErr(limits: Limits, nf: int, na: int, nt: int): Option<Error> {
    if nt > ALLOWED_IP_TIMEOUTS then Some(TooManyTimeouts(nt))
    else if RatioReached(nf, na, limits.minFallbackRatio) then Some(TooManyFallbacks(limits.minFallbackRatio))
    else None
  }

  /**
   * A check fails the build exactly when there were more than seven timeouts, or enough actions and a share of
   * fallbacks that reaches the limit; without any action recorded, when none are asked for and there are fallbacks.
   */
  lemma TripsExactly(limits: Limits, nf: int, na: int, nt: int)
    ensures nt > 7 ==> Trips(limits, nf, na, nt)
    ensures nt <= 7 && na > 0 ==>
      (Trips(limits, nf, na, nt) <==>
        na >= limits.minActionCount && nf as real >= limits.minFallbackRatio * na as real)
    ensures nt <= 7 && na == 0 ==> (Trips(limits, nf, na, nt) <==> limits.minActionCount <= 0 && nf > 0)
  {
    if na > 0 {
      ShareReached(nf as real, na as real, limits.minFallbackRatio);
    }
  }

  lemma ShareReached(part: real, whole: real, share: real)
    requires whole > 0.0
    ensures part / whole >= share <==> part >= share * whole
  {
    var q := part / whole;
    assert part == q * whole;
    if q >= share {
      assert (q - share) * whole >= 0.0;
    } else {
      assert (share - q) * whole > 0.0;
    }
  }

  /** The flag and its error, as fields guarded by failBuildMu. */
  class Switch {
    const limits: Limits
    var failBuild: bool
    var failBuildErr: Option<Error>

    predicate Valid()
      reads this
    {
      failBuild ==> failBuildErr.Some?
    }

    constructor (limits: Limits)
      ensures Valid() && !failBuild && this.limits == limits
    {
      this.limits := limits;
      failBuild, failBuildErr := false, None;
    }

    /** The decision and the locked assignments of checkFailBuild; `sweep` tells whether to cancel active actions. */
    method CheckFailBuild(nf: int, na: int, nt: int) returns (sweep: bool)
      requires Valid()
      modifies this
      ensures Valid()
      ensures sweep <==> Trips(limits, nf, na, nt)
      ensures nt > 7 ==> sweep && failBuildErr == Some(TooManyTimeouts(nt))
      ensures nt <= 7 && na > 0 ==>
        (sweep <==> na >= limits.minActionCount && nf as real >= limits.minFallbackRatio * na as real)
      ensures nt <= 7 && na == 0 ==> (sweep <==> limits.minActionCount <= 0 && nf > 0)
      ensures nt <= 7 && sweep ==> failBuildErr == Some(TooManyFallbacks(limits.minFallbackRatio))
      ensures failBuild <==> old(failBuild) || sweep
      ensures failBuildErr == if sweep then FailBuildErr(limits, nf, na, nt) else old(failBuildErr)
    {
      if nt <= ALLOWED_IP_TIMEOUTS && na < limits.minActionCount {
        return false;
      }
      if nt > ALLOWED_IP_TIMEOUTS || RatioReached(nf, na, limits.minFallbackRatio) {
        failBuild := true;
        failBuildErr := FailBuildErr(limits, nf, na, nt);
        return true;
      }
      return false;
    }
  }

  // ---------------------------------------------------------------------------------------------
  // The concurrent system
  // ---------------------------------------------------------------------------------------------

  /**
   * An action is in activeActions from Registered to Rejected or Running inclusive. `Running` read the flag as
   * false, `Rejected` read it as true and carries the error it failed with.
   */
  datatype Phase = Fresh | Registered | Running | Rejected(result: Option<Error>) | Gone

  /** `cause` is what cancelFunc was last called with. */
  datatype Action = Action(phase: Phase, cause: Option<Error>)

  /**
   * While sweeping, the monitor holds failBuildMu; `todo` are the actions that were registered when the sweep
   * began and have not been visited. sync.Map.Range visits each of them unless it is deleted first, and may
   * also visit actions stored meanwhile.
   */
  datatype Monitor = Idle | Sweeping(todo: set<nat>)

  datatype State = State(actions: seq<Action>, failBuild: bool, failBuildErr: Option<Error>, monitor: Monitor)

  const INIT := State([], false, None, Idle)

  datatype Step =
    | Arrive | Register(a: nat) | ReadFlag(a: nat) | Leave(a: nat)
    | Trip(limits: Limits, nf: int, na: int, nt: int) | Visit(a: nat) | EndSweep

  predicate Active(s: State, a: nat) {
    a < |s.actions| && (s.actions[a].phase.Registered? || s.actions[a].phase.Running? || s.actions[a].phase.Rejected?)
  }

  predicate Enabled(s: State, step: Step) {
    match step
    case Arrive => true
    case Register(a) => a < |s.actions| && s.actions[a].phase.Fresh?
    // Reading takes the read lock, so it waits for the end of a sweep.
    case ReadFlag(a) => a < |s.actions| && s.actions[a].phase.Registered? && s.monitor.Idle?
    case Leave(a) => a < |s.actions| && (s.actions[a].phase.Running? || s.actions[a].phase.Rejected?)
    case Trip(limits, nf, na, nt) => s.monitor.Idle? && Trips(limits, nf, na, nt)
    case Visit(a) => s.monitor.Sweeping? && Active(s, a)
    case EndSweep => s.monitor.Sweeping? && forall a :: a in s.monitor.todo ==> !Active(s, a)
  }

  function Apply(s: State, step: Step): State
    requires Enabled(s, step)
  {
    match step
    case Arrive => s.(actions := s.actions + [Action(Fresh, None)])
    case Register(a) => s.(actions := s.actions[a := s.actions[a].(phase := Registered)])
    case ReadFlag(a) =>
      s.(actions := s.actions[a := s.actions[a].(phase := if s.failBuild then Rejected(s.failBuildErr) else Running)])
    case Leave(a) => s.(actions := s.actions[a := s.actions[a].(phase := Gone)])
    case Trip(limits, nf, na, nt) =>
      s.(failBuild := true, failBuildErr := FailBuildErr(limits, nf, na, nt),
         monitor := Sweeping(set a: nat | a < |s.actions| && Active(s, a)))
    case Visit(a) =>
      s.(actions := s.actions[a := s.actions[a].(cause := s.failBuildErr)],
         monitor := Sweeping(s.monitor.todo - {a}))
    case EndSweep => s.(monitor := Idle)
  }

  function Run(run: Trace<Step>): Option<State> {
    match run
    case Start => Some(INIT)
    case Then(before, step) =>
      var s := Run(before);
      if s.Some? && Enabled(s.value, step) then Some(Apply(s.value, step)) else None
  }

  /** An action that read the flag before it was set is cancelled, or the sweep has it still ahead. */
  predicate Caught(s: State, a: nat)
    requires a < |s.actions|
  {
    s.failBuild && s.actions[a].phase.Running? ==>
      s.actions[a].cause.Some? || (s.monitor.Sweeping? && a in s.monitor.todo)
  }

  predicate Inv(s: State) {
    && (s.failBuild <==> s.failBuildErr.Some?)
    && (s.monitor.Sweeping? ==> s.failBuild)
    && (forall a :: 0 <= a < |s.actions| ==> Caught(s, a))
    && (forall a :: 0 <= a < |s.actions| && s.actions[a].phase.Rejected? ==> s.actions[a].phase.result.Some?)
  }

  lemma StepKeepsInv(s: State, step: Step)
    requires Inv(s) && Enabled(s, step)
    ensures Inv(Apply(s, step))
  {
    var t := Apply(s, step);
    forall a | 0 <= a < |t.actions| ensures Caught(t, a) {
      if a < |s.actions| {
        assert Caught(s, a);
        if step.EndSweep? && t.actions[a].phase.Running? {
          assert Active(s, a);
        }
      }
    }
  }

  lemma {:induction false} RunKeepsInv(run: Trace<Step>)
    requires Run(run).Some?
    ensures Inv(Run(run).value)
  {
    match run
    case Start =>
    case Then(before, step) =>
      RunKeepsInv(before);
      StepKeepsInv(Run(before).value, step);
  }

  /**
   * No action escapes: once the flag is set and the sweep is over, every running action has been cancelled
   * with an error, and every action that has yet to read the flag will be rejected with one.
   */
  lemma NoActionEscapes(run: Trace<Step>, a: nat)
    requires Run(run).Some? && Run(run).value.failBuild && Run(run).value.monitor.Idle?
    requires a < |Run(run).value.actions|
    ensures var s := Run(run).value;
      && (s.actions[a].phase.Running? ==> s.actions[a].cause.Some?)
      && (Enabled(s, ReadFlag(a)) ==>
            var p := Apply(s, ReadFlag(a)).actions[a].phase;
            p.Rejected? && p.result.Some? && p.result == s.failBuildErr)
  {
    RunKeepsInv(run);
    assert Caught(Run(run).value, a);
  }

  /** Before the first check trips nobody is turned away or cancelled. */
  lemma {:induction false} NoFalseAlarm(run: Trace<Step>, a: nat)
    requires Run(run).Some? && !Run(run).value.failBuild && a < |Run(run).value.actions|
    ensures !Run(run).value.actions[a].phase.Rejected? && Run(run).value.actions[a].cause.None?
  {
    match run
    case Start =>
    case Then(before, step) =>
      RunKeepsInv(before);
      if a < |Run(before).value.actions| {
        NoFalseAlarm(before, a);
      }
  }

  /** The flag never goes back, and always comes with an error. */
  lemma FlagStays(run: Trace<Step>, step: Step)
    requires Run(run).Some? && Run(run).value.failBuild && Enabled(Run(run).value, step)
    ensures Run(run).value.failBuildErr.Some?
    ensures Apply(Run(run).value, step).failBuild && Apply(Run(run).value, step).failBuildErr.Some?
  {
    RunKeepsInv(run);
    StepKeepsInv(Run(run).value, step);
  }

  /** A sweep ends: it can stop, or it has an action of its list left to visit, and each visit shortens the list. */
  lemma SweepMakesProgress(s: State)
    requires s.monitor.Sweeping?
    ensures Enabled(s, EndSweep) || exists a ::
      Enabled(s, Visit(a)) && Apply(s, Visit(a)).monitor.todo < s.monitor.todo
  {
    if !Enabled(s, EndSweep) {
      var a :| a in s.monitor.todo && Active(s, a);
      assert Enabled(s, Visit(a)) && a !in Apply(s, Visit(a)).monitor.todo;
    }
  }

  // ---------------------------------------------------------------------------------------------
  // Why the order matters
  // ---------------------------------------------------------------------------------------------

  lemma Take(run: Trace<Step>, step: Step) returns (next: Trace<Step>)
    requires Run(run).Some? && Enabled(Run(run).value, step)
    ensures next == Then(run, step) && Run(next) == Some(Apply(Run(run).value, step))
  {
    next := Then(run, step);
  }

  /**
   * The guarantee is for actions in the table. One that registers while a sweep is under way may be missed by
   * it, and relies on reading the flag afterwards.
   */
  lemma UnregisteredIsNotCancelled()
    ensures exists before ::
      && Run(before).Some? && Run(before).value.monitor.Sweeping?
      && Run(before).value.actions == [Action(Fresh, None)]
      && var run := Then(Then(before, Register(0)), EndSweep);
        Run(run).Some? && Run(run).value.failBuild && Run(run).value.actions == [Action(Registered, None)]
  {
    var before := Take(Start, Arrive);
    assert INIT.actions + [Action(Fresh, None)] == [Action(Fresh, None)];
    before := Take(before, Trip(Limits(1, 1.0), 0, 0, 8));
    assert Run(before).value.monitor.todo == {};
    var run := Take(before, Register(0));
    run := Take(run, EndSweep);
  }

  /** The steps after `begun` without the end of a sweep. */
  predicate During(run: Trace<Step>, begun: Trace<Step>) {
    run == begun || (run.Then? && !run.step.EndSweep? && During(run.before, begun))
  }

  /** The run ends with the sweep that began with `begun`. */
  predicate SweepRun(run: Trace<Step>, begun: Trace<Step>) {
    run.Then? && run.step.EndSweep? && During(run.before, begun)
  }

  /** During a sweep an active action that was in the table at its start is on the list or has been cancelled. */
  lemma {:induction false} ListedOrCancelled(run: Trace<Step>, begun: Trace<Step>, a: nat)
    requires During(run, begun) && Run(run).Some? && begun.Then? && begun.step.Trip?
    requires Run(begun.before).Some? && a < |Run(begun.before).value.actions|
    requires !Run(begun.before).value.actions[a].phase.Fresh?
    ensures var s := Run(run).value;
      && s.monitor.Sweeping? && a < |s.actions| && !s.actions[a].phase.Fresh?
      && (Active(s, a) ==> a in s.monitor.todo || s.actions[a].cause.Some?)
  {
    if run != begun {
      ListedOrCancelled(run.before, begun, a);
      RunKeepsInv(run.before);
    }
  }

  lemma {:induction false} FreshIsUncancelled(run: Trace<Step>, a: nat)
    requires Run(run).Some? && a < |Run(run).value.actions| && Run(run).value.actions[a].phase.Fresh?
    ensures Run(run).value.actions[a].cause.None?
  {
    var Then(before, step) := run;
    if a < |Run(before).value.actions| {
      FreshIsUncancelled(before, a);
    }
  }

  /** A sweep can be finished without visiting an action that is not on its list. */
  lemma {:induction false} FinishSweep(run: Trace<Step>, begun: Trace<Step>, a: nat) returns (end: Trace<Step>)
    requires During(run, begun) && Run(run).Some? && Run(run).value.monitor.Sweeping?
    requires a < |Run(run).value.actions| && a !in Run(run).value.monitor.todo
    ensures SweepRun(end, begun) && Run(end).Some? && a < |Run(end).value.actions|
    ensures Run(end).value.actions[a] == Run(run).value.actions[a]
    decreases Run(run).value.monitor.todo
  {
    var s := Run(run).value;
    if Enabled(s, EndSweep) {
      end := Take(run, EndSweep);
    } else {
      var x :| x in s.monitor.todo && Active(s, x);
      var next := Take(run, Visit(x));
      end := FinishSweep(next, begun, a);
    }
  }

  /** Every way in which the sweep that `begun` starts can end leaves the action cancelled or out of the table. */
  ghost predicate AlwaysCaught(begun: Trace<Step>, a: nat) {
    forall run :: SweepRun(run, begun) && Run(run).Some? && Active(Run(run).value, a) ==>
      Run(run).value.actions[a].cause.Some?
  }

  /** A sweep is sure to catch an action exactly when the action was not still on its way to the table. */
  lemma SweepCatchesExactly(begun: Trace<Step>, a: nat)
    requires Run(begun).Some? && begun.Then? && begun.step.Trip? && a < |Run(begun.before).value.actions|
    ensures AlwaysCaught(begun, a) <==> !Run(begun.before).value.actions[a].phase.Fresh?
  {
    if Run(begun.before).value.actions[a].phase.Fresh? {
      FreshIsUncancelled(begun.before, a);
      var run := Take(begun, Register(a));
      assert a !in Run(run).value.monitor.todo;
      var end := FinishSweep(run, begun, a);
      assert Active(Run(end).value, a);
    } else {
      forall run | SweepRun(run, begun) && Run(run).Some? && Active(Run(run).value, a)
        ensures Run(run).value.actions[a].cause.Some?
      {
        ListedOrCancelled(run.before, begun, a);
      }
    }
  }

  lemma PhaseStep(s: State, step: Step, a: nat)
    requires Enabled(s, step) && a < |s.actions|
    ensures var p, q := s.actions[a].phase, Apply(s, step).actions[a].phase;
      && (q.Fresh? <==> p.Fresh? && step != Register(a))
      && (q.Gone? <==> p.Gone? || step == Leave(a))
      && (q.Registered? <==> step == Register(a) || (p.Registered? && step != ReadFlag(a)))
      && (step == Register(a) ==> p.Fresh?) && (step == ReadFlag(a) ==> p.Registered?)
  {
  }

  /** An action is in the table from its registration until it leaves, and runs or is turned away by reading the flag. */
  lemma {:induction false} PhasesBySteps(run: Trace<Step>, a: nat)
    requires Run(run).Some? && a < |Run(run).value.actions|
    ensures var p := Run(run).value.actions[a].phase;
      && (p.Fresh? <==> !Took(run, Register(a)))
      && (p.Registered? <==> Took(run, Register(a)) && !Took(run, ReadFlag(a)))
      && (p.Fresh? ==> !Took(run, ReadFlag(a)))
      && (p.Gone? <==> Took(run, Leave(a)))
  {
    if a < |Run(run.before).value.actions| {
      PhasesBySteps(run.before, a);
      PhaseStep(Run(run.before).value, run.step, a);
    } else {
      NotThereYet(run.before, a);
    }
  }

  lemma {:induction false} NotThereYet(run: Trace<Step>, a: nat)
    requires Run(run).Some? && a >= |Run(run).value.actions|
    ensures !Took(run, Register(a)) && !Took(run, ReadFlag(a)) && !Took(run, Leave(a))
  {
    match run
    case Start =>
    case Then(before, _) => NotThereYet(before, a);
  }

  // ---------------------------------------------------------------------------------------------
  // Where the errors come from
  // ---------------------------------------------------------------------------------------------

  /** The error of a check that trips, by the numbers it was given. */
  function ErrorOf(step: Step): Error
    requires step.Trip?
  {
    if step.nt > 7 then TooManyTimeouts(step.nt) else TooManyFallbacks(step.limits.minFallbackRatio)
  }

  /** The errors of all checks of the run that tripped. */
  function TripErrors(run: Trace<Step>): set<Error> {
    match run
    case Start => {}
    case Then(before, step) => TripErrors(before) + if step.Trip? then {ErrorOf(step)} else {}
  }

  function LatestError(run: Trace<Step>): Option<Error> {
    match run
    case Start => None
    case Then(before, step) => if step.Trip? then Some(ErrorOf(step)) else LatestError(before)
  }

  lemma {:induction false} LatestIsOneOfThem(run: Trace<Step>)
    ensures LatestError(run).Some? ==> LatestError(run).value in TripErrors(run)
  {
    match run
    case Start =>
    case Then(before, _) => LatestIsOneOfThem(before);
  }

  /** An action carries only errors of checks that tripped. */
  predicate Explained(x: Action, errors: set<Error>) {
    && (x.cause.Some? ==> x.cause.value in errors)
    && (x.phase.Rejected? && x.phase.result.Some? ==> x.phase.result.value in errors)
  }

  /**
   * The flag is set exactly when some check has tripped, with the error of the latest; and whoever is cancelled
   * or turned away gets the error of one of them.
   */
  lemma {:induction false} ErrorsAreExplained(run: Trace<Step>)
    requires Run(run).Some?
    ensures Run(run).value.failBuildErr == LatestError(run)
    ensures Run(run).value.failBuild <==> LatestError(run).Some?
    ensures forall a :: 0 <= a < |Run(run).value.actions| ==> Explained(Run(run).value.actions[a], TripErrors(run))
  {
    match run
    case Start =>
    case Then(before, step) =>
      ErrorsAreExplained(before);
      LatestIsOneOfThem(before);
      RunKeepsInv(run);
      var s, t := Run(before).value, Run(run).value;
      forall a | 0 <= a < |t.actions|
        ensures Explained(t.actions[a], TripErrors(run))
      {
        assert a < |s.actions| ==> Explained(s.actions[a], TripErrors(before));
      }
  }
}
