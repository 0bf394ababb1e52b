/**
 * The windowed counters of internal/pkg/reproxy/server.go and the way actions use them: an increment counts
 * until its timer fires one window later (never, if the window is zero).
 */
module WindowedCount {
  import opened Sums
  import opened Traces
  import opened Wrappers

  class Counter {
    const window: nat
    var cnt: int
    /** The increments whose timers have not fired. */
    ghost var live: seq<int>

    ghost predicate Valid()
      reads this
    {
      cnt == Sum(live)
    }

    constructor (window: nat)
      ensures Valid() && cnt == 0 && live == [] && this.window == window
    {
      this.window := window;
      cnt, live := 0, [];
    }

    method Add(inc: int)
      requires Valid()
      modifies this
      ensures Valid() && cnt == old(cnt) + inc && live == old(live) + [inc]
    {
      SumAppend(live, inc);
      cnt := cnt + inc;
      live := live + [inc];
    }

    /** The function passed to time.AfterFunc by the Add that is now at position `i`. */
    method Expire(ghost i: nat, inc: int)
      requires Valid() && window != 0 && i < |live| && live[i] == inc
      modifies this
      ensures Valid() && cnt == old(cnt) - inc && live == old(live)[..i] + old(live)[i + 1..]
    {
      assert live == live[..i] + ([live[i]] + live[i + 1..]);
      SumConcat(live[..i], [live[i]] + live[i + 1..]);
      SumConcat([live[i]], live[i + 1..]);
      SumConcat(live[..i], live[i + 1..]);
      SumAppend([], live[i]);
      assert [] + [live[i]] == [live[i]];
      live := live[..i] + live[i + 1..];
      cnt := cnt - inc;
    }

    /** Load never reports a negative number while only non-negative increments are made. */
    method Load() returns (n: int)
      requires Valid() && forall i :: 0 <= i < |live| ==> 0 <= live[i]
      ensures n == Sum(live) && 0 <= n
    {
      SumNonNegative(live);
      n := cnt;
    }
  }

  // ---------------------------------------------------------------------------------------------
  // Fallbacks and actions
  // ---------------------------------------------------------------------------------------------

  /** When an increment was made, and whether its timer has fired. */
  datatype Tick = Tick(at: int, fired: bool)

  /**
   * One call of runAction. It adds to numFallbacks at most once and, unless the build is failing, to numActions
   * when it returns. `Rejected` actions returned at once because the build is failing.
   */
  datatype Action = Action(phase: Phase, fallback: Option<Tick>, recorded: Option<Tick>)
  datatype Phase = InFlight | Returned | Rejected

  datatype State = State(window: nat, now: int, actions: seq<Action>, numFallbacks: int, numActions: int)

  function Init(window: nat): State {
    State(window, 0, [], 0, 0)
  }

  datatype Step =
    | Begin | Reject(a: nat) | FallBack(a: nat) | Return(a: nat)
    | FallbackTimer(a: nat) | ActionTimer(a: nat) | Advance(time: nat)

  predicate Due(s: State, t: Option<Tick>, now: int) {
    s.window != 0 && t.Some? && !t.value.fired && t.value.at + s.window <= now
  }

  /** No timer is due by `now`. */
  predicate Quiet(s: State, now: int) {
    forall a :: 0 <= a < |s.actions| ==> !Due(s, s.actions[a].fallback, now) && !Due(s, s.actions[a].recorded, now)
  }

  predicate Enabled(s: State, step: Step) {
    match step
    case Begin => true
    case Reject(a) => a < |s.actions| && s.actions[a].phase.InFlight? && s.actions[a].fallback.None?
    case FallBack(a) => a < |s.actions| && s.actions[a].phase.InFlight? && s.actions[a].fallback.None?
    case Return(a) => a < |s.actions| && s.actions[a].phase.InFlight?
    case FallbackTimer(a) => a < |s.actions| && Due(s, s.actions[a].fallback, s.now)
    case ActionTimer(a) => a < |s.actions| && Due(s, s.actions[a].recorded, s.now)
    // Timers fire at their deadlines: time moves on only once those that are due have fired.
    case Advance(time) => Quiet(s, s.now)
  }

  function Apply(s: State, step: Step): State
    requires Enabled(s, step)
  {
    match step
    case Begin => s.(actions := s.actions + [Action(InFlight, None, None)])
    case Reject(a) => s.(actions := s.actions[a := s.actions[a].(phase := Rejected)])
    case FallBack(a) =>
      s.(actions := s.actions[a := s.actions[a].(fallback := Some(Tick(s.now, false)))],
         numFallbacks := s.numFallbacks + 1)
    case Return(a) =>
      s.(actions := s.actions[a := s.actions[a].(phase := Returned, recorded := Some(Tick(s.now, false)))],
         numActions := s.numActions + 1)
    case FallbackTimer(a) =>
      s.(actions := s.actions[a := s.actions[a].(fallback := Some(Tick(s.actions[a].fallback.value.at, true)))],
         numFallbacks := s.numFallbacks - 1)
    case ActionTimer(a) =>
      s.(actions := s.actions[a := s.actions[a].(recorded := Some(Tick(s.actions[a].recorded.value.at, true)))],
         numActions := s.numActions - 1)
    case Advance(time) => s.(now := s.now + time)
  }

  function Run(window: nat, run: Trace<Step>): Option<State> {
    match run
    case Start => Some(Init(window))
    case Then(before, step) =>
      var s := Run(window, before);
      if s.Some? && Enabled(s.value, step) then Some(Apply(s.value, step)) else None
  }

  function LiveTick(t: Option<Tick>): int {
    if t.Some? && !t.value.fired then 1 else 0
  }

  function LiveFallbacks(actions: seq<Action>): seq<int> {
    seq(|actions|, i requires 0 <= i < |actions| => LiveTick(actions[i].fallback))
  }

  function LiveActions(actions: seq<Action>): seq<int> {
    seq(|actions|, i requires 0 <= i < |actions| => LiveTick(actions[i].recorded))
  }

  function FlightOf(a: Action): int {
    if a.phase.InFlight? then 1 else 0
  }

  function Flying(actions: seq<Action>): seq<int> {
    seq(|actions|, i requires 0 <= i < |actions| => FlightOf(actions[i]))
  }

  /** A fallback is counted before its action is, by an action that returns later. */
  predicate Ordered(s: State, a: Action) {
    && (a.recorded.Some? <==> a.phase.Returned?)
    && (a.phase.Rejected? ==> a.fallback.None?)
    && (a.fallback.Some? ==> a.fallback.value.at <= s.now)
    && (a.recorded.Some? ==> a.recorded.value.at <= s.now)
    && (a.fallback.Some? && a.recorded.Some? ==> a.fallback.value.at <= a.recorded.value.at)
    && (a.fallback.Some? && a.fallback.value.fired ==> s.window != 0 && a.fallback.value.at + s.window <= s.now)
    && (a.recorded.Some? && a.recorded.value.fired ==> s.window != 0 && a.recorded.value.at + s.window <= s.now)
  }

  predicate Inv(s: State) {
    && s.numFallbacks == Sum(LiveFallbacks(s.actions))
    && s.numActions == Sum(LiveActions(s.actions))
    && (forall a :: 0 <= a < |s.actions| ==> Ordered(s, s.actions[a]))
  }

  lemma SumsAfter(actions: seq<Action>, a: nat, x: Action)
    requires a < |actions|
    ensures Sum(LiveFallbacks(actions[a := x])) ==
            Sum(LiveFallbacks(actions)) - LiveTick(actions[a].fallback) + LiveTick(x.fallback)
    ensures Sum(LiveActions(actions[a := x])) ==
            Sum(LiveActions(actions)) - LiveTick(actions[a].recorded) + LiveTick(x.recorded)
  {
    SumUpdate(LiveFallbacks(actions), a, LiveTick(x.fallback));
    SumUpdate(LiveActions(actions), a, LiveTick(x.recorded));
    assert LiveFallbacks(actions[a := x]) == LiveFallbacks(actions)[a := LiveTick(x.fallback)];
    assert LiveActions(actions[a := x]) == LiveActions(actions)[a := LiveTick(x.recorded)];
  }

  lemma BeginKeepsInv(s: State)
    requires Inv(s)
    ensures Inv(Apply(s, Begin))
  {
    var t := Apply(s, Begin);
    SumsWithOneMore(s.actions);
    forall a | 0 <= a < |t.actions|
      ensures Ordered(t, t.actions[a])
    {
      assert a < |s.actions| ==> Ordered(s, s.actions[a]);
    }
  }

  /** An action that has just begun counts for nothing yet. */
  lemma SumsWithOneMore(actions: seq<Action>)
    ensures var more := actions + [Action(InFlight, None, None)];
      && Sum(LiveFallbacks(more)) == Sum(LiveFallbacks(actions))
      && Sum(LiveActions(more)) == Sum(LiveActions(actions))
  {
    var more := actions + [Action(InFlight, None, None)];
    SumAppend(LiveFallbacks(actions), 0);
    SumAppend(LiveActions(actions), 0);
    assert LiveFallbacks(more) == LiveFallbacks(actions) + [0];
    assert LiveActions(more) == LiveActions(actions) + [0];
  }

  lemma TimerKeepsInv(s: State, step: Step)
    requires Inv(s) && Enabled(s, step) && (step.FallbackTimer? || step.ActionTimer?)
    ensures Inv(Apply(s, step))
  {
    SumsAfter(s.actions, step.a, Apply(s, step).actions[step.a]);
  }

  lemma ActionKeepsInv(s: State, step: Step)
    requires Inv(s) && Enabled(s, step) && (step.Reject? || step.FallBack? || step.Return?)
    ensures Inv(Apply(s, step))
  {
    SumsAfter(s.actions, step.a, Apply(s, step).actions[step.a]);
  }

  lemma {:induction false} RunKeepsInv(window: nat, run: Trace<Step>)
    requires Run(window, run).Some?
    ensures Inv(Run(window, run).value) && Run(window, run).value.window == window
  {
    match run
    case Start =>
    case Then(before, step) =>
      RunKeepsInv(window, before);
      var s := Run(window, before).value;
      match step {
        case Begin => BeginKeepsInv(s);
        case Advance(_) =>
        case FallbackTimer(_) => TimerKeepsInv(s, step);
        case ActionTimer(_) => TimerKeepsInv(s, step);
        case _ => ActionKeepsInv(s, step);
      }
  }

  /** Made within the window that ends now. */
  predicate InWindow(s: State, t: Option<Tick>) {
    t.Some? && (s.window == 0 || s.now - s.window < t.value.at)
  }

  function FallbacksInWindow(s: State): seq<int> {
    seq(|s.actions|, i requires 0 <= i < |s.actions| => if InWindow(s, s.actions[i].fallback) then 1 else 0)
  }

  function ActionsInWindow(s: State): seq<int> {
    seq(|s.actions|, i requires 0 <= i < |s.actions| => if InWindow(s, s.actions[i].recorded) then 1 else 0)
  }

  /** Neither counter is ever negative. */
  lemma CountersNotNegative(window: nat, run: Trace<Step>)
    requires Run(window, run).Some?
    ensures 0 <= Run(window, run).value.numFallbacks && 0 <= Run(window, run).value.numActions
  {
    RunKeepsInv(window, run);
    SumNonNegative(LiveFallbacks(Run(window, run).value.actions));
    SumNonNegative(LiveActions(Run(window, run).value.actions));
  }

  /** Whenever the due timers have fired, each counter is the number of increments within the window. */
  lemma CountersMeasureWindow(window: nat, run: Trace<Step>)
    requires Run(window, run).Some? && Quiet(Run(window, run).value, Run(window, run).value.now)
    ensures Run(window, run).value.numFallbacks == Sum(FallbacksInWindow(Run(window, run).value))
    ensures Run(window, run).value.numActions == Sum(ActionsInWindow(Run(window, run).value))
  {
    RunKeepsInv(window, run);
    var s := Run(window, run).value;
    forall a | 0 <= a < |s.actions|
      ensures LiveFallbacks(s.actions)[a] == FallbacksInWindow(s)[a]
      ensures LiveActions(s.actions)[a] == ActionsInWindow(s)[a]
    {
      assert Ordered(s, s.actions[a]);
    }
    assert LiveFallbacks(s.actions) == FallbacksInWindow(s);
    assert LiveActions(s.actions) == ActionsInWindow(s);
  }

  /**
   * The ratio that fails a build is one of parts to a whole: fallbacks in the window never exceed actions in
   * the window plus actions in flight.
   */
  lemma FallbacksBelowActions(window: nat, run: Trace<Step>)
    requires Run(window, run).Some? && Quiet(Run(window, run).value, Run(window, run).value.now)
    ensures var s := Run(window, run).value;
      s.numFallbacks <= s.numActions + Sum(Flying(s.actions))
  {
    RunKeepsInv(window, run);
    var s := Run(window, run).value;
    var both := seq(|s.actions|, i requires 0 <= i < |s.actions| =>
      LiveTick(s.actions[i].recorded) + FlightOf(s.actions[i]));
    forall a | 0 <= a < |s.actions| ensures LiveFallbacks(s.actions)[a] <= both[a] {
      assert Ordered(s, s.actions[a]);
    }
    SumMonotone(LiveFallbacks(s.actions), both);
    SumOfSums(LiveActions(s.actions), Flying(s.actions), both);
  }

  lemma {:induction false} SumOfSums(s: seq<int>, t: seq<int>, both: seq<int>)
    requires |s| == |t| == |both| && forall i :: 0 <= i < |s| ==> both[i] == s[i] + t[i]
    ensures Sum(both) == Sum(s) + Sum(t)
  {
    if s != [] {
      SumOfSums(s[..|s| - 1], t[..|t| - 1], both[..|both| - 1]);
    }
  }
}
