/**
 * What a race leaves behind, said by the steps that were taken: what the environment answered to each side, in
 * which order the sides reported, and whether a context ended.
 */
module RaceOutcome {
  import opened Race
  import opened Traces
  import opened Wrappers

  // ---------------------------------------------------------------------------------------------
  // What happened
  // ---------------------------------------------------------------------------------------------

  /** What was answered to the remote side; `stopped` when it looked whether to go on and cCtx had ended. */
  datatype RemoteFacts = RemoteFacts(
    stopped: bool, contextFailed: bool, executionFailed: bool, downloadFailed: bool, downloaded: bool)

  /** What was answered to the local side; `exit` is the exit code of its process. */
  datatype LocalFacts = LocalFacts(exit: Option<int>, queueFailed: bool, broken: bool)

  /** Which contexts have ended, whether the cache had the action, and whether something should let local start. */
  datatype Signals = Signals(parentEnded: bool, childCancelled: bool, hit: bool, heldOff: bool, localMayStart: bool)

  /** How main came to its end, unless by settling on a message without outputs to move. */
  datatype Ending = Open | NoTmpDir | Left | Moved(ok: bool)

  /** What the labels of the steps say, without regard to what the goroutines make of it; `reports` is who has sent. */
  datatype Facts = Facts(remote: RemoteFacts, local: LocalFacts, signals: Signals, reports: seq<Side>, ending: Ending)

  const NOTHING := Facts(
    RemoteFacts(false, false, false, false, false), LocalFacts(None, false, false), Signals(false, false, false, false, false), [],
    Open)

  function RemoteAfter(f: RemoteFacts, childOver: bool, step: RemoteStep): RemoteFacts {
    match step
    case CreateContext(ok) => if ok then f else f.(contextFailed := true)
    case Lookup(Hit(ok)) => if ok then f else f.(executionFailed := true)
    case Lookup(Other(ok)) => if ok then f else f.(executionFailed := true)
    case ExecuteRemotely(ok) => if ok then f else f.(executionFailed := true)
    case Download(ok) => if ok then f.(downloaded := true) else f.(downloadFailed := true)
    case CheckAfterExecution => f.(stopped := f.stopped || childOver)
    case CheckAfterDownload => f.(stopped := f.stopped || childOver)
    case _ => f
  }

  function LocalAfter(f: LocalFacts, step: LocalStep): LocalFacts {
    match step
    case LocalAcquireFails(isCanceled) => if isCanceled then f else f.(queueFailed := true)
    case LocalEnds(Exited(code)) => f.(exit := Some(code))
    case LocalEnds(Broken) => f.(broken := true)
    case _ => f
  }

  /** On a cache miss or an error the local side may start at once, on a hit when the hold-off is over. */
  function SignalsAfter(f: Signals, step: Step): Signals {
    match step
    case ParentEnds => f.(parentEnded := true)
    case Main(CancelChild) => f.(childCancelled := true)
    case OnRemote(CreateContext(false)) => f.(localMayStart := true)
    case OnRemote(Lookup(Miss)) => f.(localMayStart := true)
    case OnRemote(Lookup(Other(_))) => f.(localMayStart := true)
    case OnRemote(Lookup(Hit(_))) => f.(hit := true)
    case HoldoffOver => f.(heldOff := true, localMayStart := true)
    case _ => f
  }

  function ReportsAfter(reports: seq<Side>, step: Step): seq<Side> {
    match step
    case OnRemote(RemoteSend) => reports + [RemoteSide]
    case OnLocal(LocalSend) => reports + [LocalSide]
    case _ => reports
  }

  function EndingAfter(e: Ending, step: Step): Ending {
    match step
    case Main(TmpDirFails) => NoTmpDir
    case Main(ParentWinsFirst) => Left
    case Main(ParentWinsSecond) => Left
    case Main(FinishMove(ok)) => Moved(ok)
    case _ => e
  }

  function After(f: Facts, step: Step): Facts {
    Facts(
      if step.OnRemote? then RemoteAfter(f.remote, f.signals.parentEnded || f.signals.childCancelled, step.r) else f.remote,
      if step.OnLocal? then LocalAfter(f.local, step.l) else f.local,
      SignalsAfter(f.signals, step),
      ReportsAfter(f.reports, step),
      EndingAfter(f.ending, step))
  }

  function FactsOf(run: Trace<Step>): Facts {
    match run
    case Start => NOTHING
    case Then(before, step) => After(FactsOf(before), step)
  }

  /** The remote side failed by itself: context creation, the cached or remote execution, or the download. */
  predicate RemoteFails(f: RemoteFacts) {
    f.contextFailed || f.executionFailed || f.downloadFailed
  }

  /** What the remote side should report. */
  function RemoteReport(f: RemoteFacts): RaceResult {
    if f.stopped then RaceResult(RemoteSide, Canceled, None, None)
    else if f.contextFailed then RaceResult(RemoteSide, Canceled, Some(LocalError(ContextCreation)), None)
    else if f.executionFailed then RaceResult(RemoteSide, Canceled, Some(Executed(false)), None)
    else if f.downloadFailed then RaceResult(RemoteSide, Canceled, Some(Executed(false)), Some(RemoteSide))
    else RaceResult(RemoteSide, Remote, Some(Executed(true)), Some(RemoteSide))
  }

  /** What the local side should report. */
  function LocalReport(f: LocalFacts): RaceResult {
    if f.exit.Some? then RaceResult(LocalSide, Local, Some(LocalExit(f.exit.value)), Some(LocalSide))
    else if f.queueFailed then RaceResult(LocalSide, Canceled, Some(LocalError(LocalQueue)), None)
    else if f.broken then RaceResult(LocalSide, Canceled, Some(LocalError(LocalExecution)), None)
    else RaceResult(LocalSide, Canceled, None, None)
  }

  function ReportOf(f: Facts, side: Side): RaceResult {
    if side.RemoteSide? then RemoteReport(f.remote) else LocalReport(f.local)
  }

  // ---------------------------------------------------------------------------------------------
  // The reports are what the state machine sends
  // ---------------------------------------------------------------------------------------------

  /** Nothing failed before the execution, which failed unless `ok`. */
  predicate UpToExecution(f: RemoteFacts, ok: bool) {
    !f.stopped && !f.contextFailed && (f.executionFailed <==> !ok) && !f.downloadFailed && !f.downloaded
  }

  predicate ReportTied(m: RaceResult, f: RemoteFacts) {
    m == RemoteReport(f) && (m.t.Remote? ==> f.downloaded) && (f.downloaded ==> !RemoteFails(f))
  }

  /** Where the remote side stands, by the steps. */
  predicate RemoteTied(pc: RemotePc, f: RemoteFacts) {
    match pc
    case RExecuted(ok) => UpToExecution(f, ok)
    case RInspecting(ok) => UpToExecution(f, ok)
    case RDownloaded(ok) =>
      !f.stopped && !f.contextFailed && !f.executionFailed && (f.downloadFailed <==> !ok) && (f.downloaded <==> ok)
    case RSending(m) => ReportTied(m, f)
    case RSent(m) => ReportTied(m, f)
    case _ => UpToExecution(f, true)
  }

  predicate LocalTied(pc: LocalPc, f: LocalFacts) {
    match pc
    case LSending(m) => m == LocalReport(f)
    case LSent(m) => m == LocalReport(f)
    case _ => f == LocalFacts(None, false, false)
  }

  predicate SignalsTied(s: State, f: Signals) {
    && (s.parentDone <==> f.parentEnded) && (s.childCancelled <==> f.childCancelled)
    && (s.holdoff.HIdle? <==> !f.hit) && (s.holdoff.HOver? <==> f.heldOff)
    && (s.lChCloses > 0 <==> f.localMayStart)
  }

  /** What a remote step does to the remote side alone. */
  lemma RemoteEarlyTied(s: State, f: RemoteFacts, step: RemoteStep)
    requires RemoteTied(s.remote, f) && RemoteEnabled(s, step)
    requires step.CreateContext? || step.Lookup? || step.ExecuteRemotely? || step.InspectResult?
    ensures RemoteTied(ApplyRemote(s, step).remote, RemoteAfter(f, ChildDone(s), step))
  {
  }

  lemma RemoteLateTied(s: State, f: RemoteFacts, step: RemoteStep)
    requires RemoteTied(s.remote, f) && RemoteEnabled(s, step)
    requires step.CheckAfterExecution? || step.CheckAfterDownload? || step.Download? || step.RemoteSend?
    ensures RemoteTied(ApplyRemote(s, step).remote, RemoteAfter(f, ChildDone(s), step))
  {
  }

  lemma LocalStepTied(s: State, f: LocalFacts, step: LocalStep)
    requires LocalTied(s.local, f) && LocalEnabled(s, step)
    ensures LocalTied(ApplyLocal(s, step).local, LocalAfter(f, step))
  {
  }

  lemma MainSignalsTied(s: State, f: Signals, step: MainStep)
    requires SignalsTied(s, f) && MainEnabled(s, step)
    ensures SignalsTied(ApplyMain(s, step), SignalsAfter(f, Main(step)))
  {
  }

  lemma RemoteSignalsTied(s: State, f: Signals, step: RemoteStep)
    requires SignalInv(s) && SignalsTied(s, f) && RemoteEnabled(s, step)
    ensures SignalsTied(ApplyRemote(s, step), SignalsAfter(f, OnRemote(step)))
  {
  }

  lemma LocalSignalsTied(s: State, f: Signals, step: LocalStep)
    requires SignalsTied(s, f) && LocalEnabled(s, step)
    ensures SignalsTied(ApplyLocal(s, step), SignalsAfter(f, OnLocal(step)))
  {
  }

  lemma AmbientSignalsTied(s: State, f: Signals, step: Step)
    requires SignalsTied(s, f) && Enabled(s, step) && (step.HoldoffOver? || step.ParentEnds?)
    ensures SignalsTied(Apply(s, step), SignalsAfter(f, step))
  {
  }

  /** The senders are in the order of the sends. */
  predicate SendersTied(s: State, reports: seq<Side>) {
    |s.arrivals| == |reports| && forall i :: 0 <= i < |reports| ==> s.arrivals[i].sender == reports[i]
  }

  lemma SendTied(s: State, reports: seq<Side>, m: RaceResult)
    requires SendersTied(s, reports)
    ensures SendersTied(s.(arrivals := s.arrivals + [m]), reports + [m.sender])
  {
  }

  lemma RemoteSendersTied(s: State, reports: seq<Side>, step: RemoteStep)
    requires ChannelInv(s) && SendersTied(s, reports) && RemoteEnabled(s, step)
    ensures SendersTied(ApplyRemote(s, step), ReportsAfter(reports, OnRemote(step)))
  {
    if step.RemoteSend? {
      SendTied(s, reports, s.remote.msg);
    }
  }

  lemma LocalSendersTied(s: State, reports: seq<Side>, step: LocalStep)
    requires ChannelInv(s) && SendersTied(s, reports) && LocalEnabled(s, step)
    ensures SendersTied(ApplyLocal(s, step), ReportsAfter(reports, OnLocal(step)))
  {
    if step.LocalSend? {
      SendTied(s, reports, s.local.msg);
    }
  }

  /** While the caller's context lives, the remote side is stopped only after a local result came in first. */
  predicate StopTied(s: State, stopped: bool) {
    stopped && !s.parentDone ==> |s.arrivals| >= 1 && s.arrivals[0].sender.LocalSide? && s.arrivals[0].t.Local?
  }

  lemma StopStep(s: State, f: RemoteFacts, step: RemoteStep)
    requires ChannelInv(s) && CancelInv(s) && StopTied(s, f.stopped) && RemoteEnabled(s, step)
    ensures StopTied(ApplyRemote(s, step), RemoteAfter(f, ChildDone(s), step).stopped)
  {
  }

  /** How main ended, and what it left in the action's fields. */
  predicate EndingTied(s: State, e: Ending) {
    match e
    case NoTmpDir => s.main.MDone? && s.remote.RIdle? && s.res == Some(LocalError(TmpDirCreation)) && s.oe.None?
    case Left =>
      && s.main.MDone? && !s.remote.RIdle? && LeftEarly(s)
      && (s.res == Some(LocalError(ParentContext)) || (s.localExit.Some? && s.res == Some(LocalExit(s.localExit.value))))
    case Moved(ok) =>
      && s.main.MDone? && !s.remote.RIdle? && !LeftEarly(s) && s.moveBegan
      && s.winner.Some? && s.winner.value.t.Remote?
      && s.res == (if ok then s.winner.value.res else Some(LocalError(MoveOutputs)))
      && s.oe == (if ok then s.winner.value.oe else None)
    case Open =>
      && (s.moveBegan <==> s.main.MMoving?)
      && (s.main.MDone? ==>
            && !s.remote.RIdle? && !LeftEarly(s) && s.winner.Some? && !s.winner.value.t.Remote?
            && s.res == s.winner.value.res && s.oe == s.winner.value.oe)
  }

  lemma MainEndingTied(s: State, e: Ending, step: MainStep)
    requires Inv(s) && EndingTied(s, e) && MainEnabled(s, step)
    ensures EndingTied(ApplyMain(s, step), EndingAfter(e, Main(step)))
  {
  }

  lemma RemoteEndingTied(s: State, e: Ending, step: RemoteStep)
    requires ChannelInv(s) && EndingTied(s, e) && RemoteEnabled(s, step)
    ensures EndingTied(ApplyRemote(s, step), e)
  {
    SameEnding(s, ApplyRemote(s, step), e);
  }

  /** The ending does not depend on how far a remote side that has begun has got, nor on what it sends. */
  lemma SameEnding(s: State, t: State, e: Ending)
    requires s.taken <= |s.arrivals| && EndingTied(s, e)
    requires t == s.(remote := t.remote, holdoff := t.holdoff, lChCloses := t.lChCloses, arrivals := t.arrivals)
    requires t.remote.RIdle? <==> s.remote.RIdle?
    requires |s.arrivals| <= |t.arrivals| && (|s.arrivals| > 0 ==> t.arrivals[0] == s.arrivals[0])
    ensures EndingTied(t, e)
  {
    assert LeftEarly(t) <==> LeftEarly(s);
  }

  lemma LocalEndingTied(s: State, e: Ending, step: LocalStep)
    requires ChannelInv(s) && MainInv(s) && ResultInv(s) && EndingTied(s, e) && LocalEnabled(s, step)
    ensures EndingTied(ApplyLocal(s, step), e)
  {
  }

  predicate Tied(s: State, f: Facts) {
    && RemoteTied(s.remote, f.remote) && LocalTied(s.local, f.local) && SignalsTied(s, f.signals)
    && SendersTied(s, f.reports) && StopTied(s, f.remote.stopped) && EndingTied(s, f.ending)
    && s.localExit == f.local.exit
  }

  lemma RemoteTies(s: State, f: Facts, step: RemoteStep)
    requires Inv(s) && Tied(s, f) && RemoteEnabled(s, step)
    ensures Tied(ApplyRemote(s, step), After(f, OnRemote(step)))
  {
    if step.CreateContext? || step.Lookup? || step.ExecuteRemotely? || step.InspectResult? {
      RemoteEarlyTied(s, f.remote, step);
    } else {
      RemoteLateTied(s, f.remote, step);
    }
    RemoteSignalsTied(s, f.signals, step);
    RemoteSendersTied(s, f.reports, step);
    StopStep(s, f.remote, step);
    RemoteEndingTied(s, f.ending, step);
  }

  lemma LocalTies(s: State, f: Facts, step: LocalStep)
    requires Inv(s) && Tied(s, f) && LocalEnabled(s, step)
    ensures Tied(ApplyLocal(s, step), After(f, OnLocal(step)))
  {
    LocalStepTied(s, f.local, step);
    LocalSignalsTied(s, f.signals, step);
    LocalSendersTied(s, f.reports, step);
    LocalEndingTied(s, f.ending, step);
  }

  lemma MainTies(s: State, f: Facts, step: MainStep)
    requires Inv(s) && Tied(s, f) && MainEnabled(s, step)
    ensures Tied(ApplyMain(s, step), After(f, Main(step)))
  {
    MainSignalsTied(s, f.signals, step);
    MainEndingTied(s, f.ending, step);
    MainSidesTied(s, f, step);
  }

  predicate SidesTied(s: State, f: Facts) {
    && RemoteTied(s.remote, f.remote) && LocalTied(s.local, f.local) && SendersTied(s, f.reports)
    && StopTied(s, f.remote.stopped)
  }

  lemma SameSides(s: State, t: State, f: Facts)
    requires SidesTied(s, f)
    requires t.remote == s.remote || (s.remote.RIdle? && t.remote.RCreating?)
    requires t.local == s.local || (s.local.LIdle? && t.local.LWaiting?)
    requires t.arrivals == s.arrivals && t.parentDone == s.parentDone
    ensures SidesTied(t, f)
  {
  }

  lemma MainSidesTied(s: State, f: Facts, step: MainStep)
    requires MainInv(s) && MainEnabled(s, step) && SidesTied(s, f)
    ensures SidesTied(ApplyMain(s, step), f) && ApplyMain(s, step).localExit == s.localExit
  {
    SameSides(s, ApplyMain(s, step), f);
  }

  lemma AmbientTies(s: State, f: Facts, step: Step)
    requires Inv(s) && Tied(s, f) && Enabled(s, step) && (step.HoldoffOver? || step.ParentEnds?)
    ensures Tied(Apply(s, step), After(f, step))
  {
    AmbientSignalsTied(s, f.signals, step);
  }

  lemma {:induction false} RunsAreTied(run: Trace<Step>)
    requires Run(run).Some?
    ensures Tied(Run(run).value, FactsOf(run))
  {
    match run
    case Start =>
    case Then(before, step) =>
      RunsAreTied(before);
      RunKeepsInv(before);
      var s, f := Run(before).value, FactsOf(before);
      match step {
        case Main(m) => MainTies(s, f, m);
        case OnRemote(r) => RemoteTies(s, f, r);
        case OnLocal(l) => LocalTies(s, f, l);
        case _ => AmbientTies(s, f, step);
      }
  }

  // ---------------------------------------------------------------------------------------------
  // What a race leaves behind
  // ---------------------------------------------------------------------------------------------

  lemma ArrivalIsReport(s: State, f: Facts, i: nat)
    requires ChannelInv(s) && SidesTied(s, f) && i < |f.reports|
    ensures i < |s.arrivals| && s.arrivals[i] == ReportOf(f, f.reports[i])
  {
    assert s.arrivals[i].sender == f.reports[i];
    if f.reports[i].RemoteSide? {
      assert s.remote.RSent? && s.arrivals[i] == s.remote.msg;
    } else {
      assert s.local.LSent? && s.arrivals[i] == s.local.msg;
    }
  }

  /** `race` has returned, after both sides were started, and the caller's context is still alive. */
  predicate Over(run: Trace<Step>) {
    && Run(run).Some? && Run(run).value.main.MDone?
    && !FactsOf(run).ending.NoTmpDir? && !FactsOf(run).signals.parentEnded
  }

  /** What a.res and a.oe should be in the end. */
  function Outcome(f: Facts): (Option<Result>, Option<Side>)
    requires f.reports != []
  {
    var first := ReportOf(f, f.reports[0]);
    if f.local.exit.Some? then (Some(LocalExit(f.local.exit.value)), Some(LocalSide))
    else if !first.t.Remote? then (first.res, first.oe)
    else if f.ending == Moved(true) then (Some(Executed(true)), Some(RemoteSide))
    else (Some(LocalError(MoveOutputs)), None)
  }

  /**
   * What a race leaves in the action, by the steps: the exit code of a local process that had one; otherwise the
   * remote outputs if the remote side reported a success first; otherwise what was reported first.
   */
  lemma OutcomeExactly(run: Trace<Step>)
    requires Over(run)
    ensures FactsOf(run).reports != []
    ensures (Run(run).value.res, Run(run).value.oe) == Outcome(FactsOf(run))
    ensures Run(run).value.res.Some?
  {
    RunsAreTied(run);
    RunKeepsInv(run);
    var s, f := Run(run).value, FactsOf(run);
    assert Settled(s) && Published(s);
    ArrivalIsReport(s, f, 0);
    if |f.reports| == 2 {
      ArrivalIsReport(s, f, 1);
    }
  }

  /**
   * While the caller's context lives, a race counts one fallback exactly when a step of the remote side failed,
   * that side reported first, and the local process ended with an exit code; otherwise it counts none.
   */
  lemma FallbackExactly(run: Trace<Step>)
    requires Over(run)
    ensures var f := FactsOf(run);
      && f.reports != []
      && Run(run).value.numFallbacks ==
        (if RemoteFails(f.remote) && f.reports[0].RemoteSide? && f.local.exit.Some? then 1 else 0)
  {
    RunsAreTied(run);
    RunKeepsInv(run);
    var s, f := Run(run).value, FactsOf(run);
    assert Settled(s) && Published(s);
    ArrivalIsReport(s, f, 0);
    if |f.reports| == 2 {
      ArrivalIsReport(s, f, 1);
    }
  }

  /**
   * While the caller's context lives, a successful download is used exactly when no local process ended with an
   * exit code and the remote side reported first. So it is discarded for a local exit code, as intended, and for
   * whatever else the local side reported first.
   */
  lemma RemoteSuccessIsUsedExactly(run: Trace<Step>)
    requires Over(run) && FactsOf(run).remote.downloaded
    ensures var s, f := Run(run).value, FactsOf(run);
      && f.reports != []
      && (s.res == Some(Executed(true)) || s.res == Some(LocalError(MoveOutputs)) <==>
            f.local.exit.None? && f.reports[0].RemoteSide?)
      && (s.res == Some(Executed(true)) ==> s.oe == Some(RemoteSide) && f.ending == Moved(true))
  {
    OutcomeExactly(run);
    DownloadedMeansFine(run);
  }

  /** A download that succeeded comes after nothing that failed. */
  lemma DownloadedMeansFine(run: Trace<Step>)
    requires Run(run).Some? && FactsOf(run).remote.downloaded
    ensures !RemoteFails(FactsOf(run).remote)
    ensures Over(run) && FactsOf(run).reports != [] && FactsOf(run).reports[0].RemoteSide? ==> !FactsOf(run).remote.stopped
  {
    RunsAreTied(run);
    RunKeepsInv(run);
    if FactsOf(run).reports != [] {
      ArrivalIsReport(Run(run).value, FactsOf(run), 0);
    }
  }

  /** The remote outputs are moved into the exec root exactly when they are all there, first and unrivalled. */
  lemma MovedExactly(run: Trace<Step>)
    requires Over(run)
    ensures var s, f := Run(run).value, FactsOf(run);
      s.moveBegan <==>
        f.remote.downloaded && f.reports != [] && f.reports[0].RemoteSide? && f.local.exit.None?
  {
    OutcomeExactly(run);
    RunsAreTied(run);
    RunKeepsInv(run);
    var s, f := Run(run).value, FactsOf(run);
    ArrivalIsReport(s, f, 0);
    if f.remote.downloaded {
      DownloadedMeansFine(run);
    }
  }

  /** The other side is told to stop exactly when the first report is a result. */
  lemma StopSentExactly(run: Trace<Step>)
    requires Over(run)
    ensures var f := FactsOf(run);
      f.reports != [] && (f.signals.childCancelled <==> !ReportOf(f, f.reports[0]).t.Canceled?)
  {
    OutcomeExactly(run);
    RunsAreTied(run);
    RunKeepsInv(run);
    var s, f := Run(run).value, FactsOf(run);
    ArrivalIsReport(s, f, 0);
    assert Settled(s);
  }

  /** A race that returns because the caller's context ended reports that, unless a local exit code comes later. */
  lemma LeavingExactly(run: Trace<Step>)
    requires Run(run).Some? && FactsOf(run).ending.Left?
    ensures var s, f := Run(run).value, FactsOf(run);
      && f.signals.parentEnded && s.numFallbacks == 0
      && (s.res == Some(LocalError(ParentContext)) ||
          (f.local.exit.Some? && s.res == Some(LocalExit(f.local.exit.value))))
  {
    RunsAreTied(run);
    RunKeepsInv(run);
  }

  /** On a cache hit the local side does not start before the hold-off is over; otherwise it may at once. */
  lemma {:induction false} LocalIsHeldBack(run: Trace<Step>)
    requires Run(run).Some? && Took(run, OnLocal(LocalStart))
    ensures FactsOf(run).signals.localMayStart
    ensures FactsOf(run).signals.hit ==> FactsOf(run).signals.heldOff
  {
    if run.step == OnLocal(LocalStart) {
      RunsAreTied(run.before);
    } else {
      LocalIsHeldBack(run.before);
    }
    StartStep(FactsOf(run.before).signals, run.step);
    if FactsOf(run).signals.hit {
      HitNeedsHoldoff(run);
    }
  }

  lemma HitNeedsHoldoff(run: Trace<Step>)
    requires Run(run).Some? && FactsOf(run).signals.localMayStart && FactsOf(run).signals.hit
    ensures FactsOf(run).signals.heldOff
  {
    RunsAreTied(run);
    RunKeepsInv(run);
  }

  /** lCh is closed, once, exactly when there was a step that lets the local side start. */
  lemma SignalExactly(run: Trace<Step>)
    requires Run(run).Some?
    ensures Run(run).value.lChCloses == if FactsOf(run).signals.localMayStart then 1 else 0
  {
    RunsAreTied(run);
    RunKeepsInv(run);
  }

  /**
   * Whatever the contexts do, a race that has returned has counted one fallback exactly when it did not leave
   * early, the remote side reported first and without a success, and the local process ended with an exit code.
   */
  lemma FallbackInAnyContext(run: Trace<Step>)
    requires Run(run).Some? && Run(run).value.main.MDone?
    ensures var f := FactsOf(run);
      Run(run).value.numFallbacks ==
        if !f.ending.Left? && f.reports != [] && f.reports[0].RemoteSide? && RemoteReport(f.remote).t.Canceled?
           && f.local.exit.Some?
        then 1 else 0
  {
    RunsAreTied(run);
    RunKeepsInv(run);
    var s, f := Run(run).value, FactsOf(run);
    if f.reports != [] {
      ArrivalIsReport(s, f, 0);
    }
    if |f.reports| == 2 {
      ArrivalIsReport(s, f, 1);
    }
  }

  // ---------------------------------------------------------------------------------------------
  // The facts are the steps
  // ---------------------------------------------------------------------------------------------

  lemma RemoteFactStep(f: RemoteFacts, over: bool, step: RemoteStep)
    ensures var g := RemoteAfter(f, over, step);
      && (g.contextFailed <==> f.contextFailed || step == CreateContext(false))
      && (g.executionFailed <==>
            f.executionFailed || step == Lookup(Hit(false)) || step == Lookup(Other(false)) || step == ExecuteRemotely(false))
      && (g.downloadFailed <==> f.downloadFailed || step == Download(false))
      && (g.downloaded <==> f.downloaded || step == Download(true))
  {
  }

  /** What was answered to the remote side is what a step said. */
  lemma {:induction false} RemoteFactsAreSteps(run: Trace<Step>)
    ensures var f := FactsOf(run).remote;
      && (f.contextFailed <==> Took(run, OnRemote(CreateContext(false))))
      && (f.executionFailed <==>
            Took(run, OnRemote(Lookup(Hit(false)))) || Took(run, OnRemote(Lookup(Other(false))))
            || Took(run, OnRemote(ExecuteRemotely(false))))
      && (f.downloadFailed <==> Took(run, OnRemote(Download(false))))
      && (f.downloaded <==> Took(run, OnRemote(Download(true))))
  {
    match run
    case Start =>
    case Then(before, step) =>
      RemoteFactsAreSteps(before);
      var f := FactsOf(before);
      if step.OnRemote? {
        RemoteFactStep(f.remote, f.signals.parentEnded || f.signals.childCancelled, step.r);
      } else {
        assert FactsOf(run).remote == f.remote;
      }
  }

  /** The remote side is stopped by a look after a context has ended. */
  lemma {:induction false} StopsAreSteps(run: Trace<Step>)
    ensures FactsOf(run).remote.stopped ==>
      && (Took(run, ParentEnds) || Took(run, Main(CancelChild)))
      && (Took(run, OnRemote(CheckAfterExecution)) || Took(run, OnRemote(CheckAfterDownload)))
  {
    match run
    case Start =>
    case Then(before, _) => StopsAreSteps(before); ContextsAreSteps(before);
  }

  /** What ended the local side is what a step said. */
  lemma {:induction false} LocalFactsAreSteps(run: Trace<Step>)
    ensures var f := FactsOf(run).local;
      && (f.exit.Some? ==> Took(run, OnLocal(LocalEnds(Exited(f.exit.value)))))
      && (f.exit.None? ==> forall code :: !Took(run, OnLocal(LocalEnds(Exited(code)))))
      && (f.queueFailed <==> Took(run, OnLocal(LocalAcquireFails(false))))
      && (f.broken <==> Took(run, OnLocal(LocalEnds(Broken))))
  {
    match run
    case Start =>
    case Then(before, _) => LocalFactsAreSteps(before);
  }

  lemma SignalStep(f: Signals, step: Step)
    ensures var g := SignalsAfter(f, step);
      && (g.parentEnded <==> f.parentEnded || step == ParentEnds)
      && (g.childCancelled <==> f.childCancelled || step == Main(CancelChild))
      && (g.hit <==> f.hit || step == OnRemote(Lookup(Hit(true))) || step == OnRemote(Lookup(Hit(false))))
      && (g.heldOff <==> f.heldOff || step == HoldoffOver)
  {
  }

  lemma StartStep(f: Signals, step: Step)
    ensures SignalsAfter(f, step).localMayStart <==>
      || f.localMayStart || step == OnRemote(CreateContext(false)) || step == OnRemote(Lookup(Miss))
      || step == OnRemote(Lookup(Other(true))) || step == OnRemote(Lookup(Other(false))) || step == HoldoffOver
  {
  }

  lemma {:induction false} ContextsAreSteps(run: Trace<Step>)
    ensures var f := FactsOf(run).signals;
      && (f.parentEnded <==> Took(run, ParentEnds))
      && (f.childCancelled <==> Took(run, Main(CancelChild)))
  {
    match run
    case Start =>
    case Then(before, step) => ContextsAreSteps(before); SignalStep(FactsOf(before).signals, step);
  }

  lemma {:induction false} HoldoffsAreSteps(run: Trace<Step>)
    ensures var f := FactsOf(run).signals;
      && (f.hit <==> Took(run, OnRemote(Lookup(Hit(true)))) || Took(run, OnRemote(Lookup(Hit(false)))))
      && (f.heldOff <==> Took(run, HoldoffOver))
  {
    match run
    case Start =>
    case Then(before, step) => HoldoffsAreSteps(before); SignalStep(FactsOf(before).signals, step);
  }

  /** The local side may start: there is no remote execution context, no cached result, or the hold-off is over. */
  lemma {:induction false} StartsAreSteps(run: Trace<Step>)
    ensures FactsOf(run).signals.localMayStart <==>
      || Took(run, OnRemote(CreateContext(false))) || Took(run, OnRemote(Lookup(Miss)))
      || Took(run, OnRemote(Lookup(Other(true)))) || Took(run, OnRemote(Lookup(Other(false))))
      || Took(run, HoldoffOver)
  {
    match run
    case Start =>
    case Then(before, step) => StartsAreSteps(before); StartStep(FactsOf(before).signals, step);
  }

  /** The ending is the step that main took. */
  lemma {:induction false} EndingsAreSteps(run: Trace<Step>)
    ensures var e := FactsOf(run).ending;
      && (e.NoTmpDir? ==> Took(run, Main(TmpDirFails)))
      && (e.Left? ==> Took(run, Main(ParentWinsFirst)) || Took(run, Main(ParentWinsSecond)))
      && (e.Moved? ==> Took(run, Main(FinishMove(e.ok))))
  {
    match run
    case Start =>
    case Then(before, _) => EndingsAreSteps(before);
  }

  // ---------------------------------------------------------------------------------------------
  // The limits of these guarantees
  // ---------------------------------------------------------------------------------------------

  lemma Take(run: Trace<Step>, step: Step) returns (next: Trace<Step>)
    requires Run(run).Some? && Enabled(Run(run).value, step)
    ensures next == Then(run, step) && Run(next) == Some(Apply(Run(run).value, step))
    ensures FactsOf(next) == After(FactsOf(run), step)
  {
    next := Then(run, step);
  }

  /** A reachable state: after a cache miss, both sides are executing. */
  const BOTH_RUNNING := INIT.(main := MFirst, remote := RExecuting, local := LRunning, lChCloses := 1)

  lemma ReachBothRunning() returns (run: Trace<Step>)
    ensures Run(run) == Some(BOTH_RUNNING)
    ensures !RemoteFails(FactsOf(run).remote) && !FactsOf(run).remote.downloaded
  {
    run := Start;
    run := Take(run, Main(Spawn));
    run := Take(run, OnRemote(CreateContext(true)));
    run := Take(run, OnRemote(Lookup(Miss)));
    run := Take(run, OnLocal(LocalStart));
    run := Take(run, OnLocal(LocalPrepared));
    run := Take(run, OnLocal(LocalAcquire));
  }

  /** From there, the local process turns out not to start, and its report is received first. */
  lemma ReachBrokenFirst() returns (run: Trace<Step>)
    ensures var m := LocalCanceled(Some(LocalError(LocalExecution)));
      Run(run) == Some(BOTH_RUNNING.(main := MSecond, local := LSent(m), arrivals := [m], taken := 1, winner := Some(m)))
  {
    run := ReachBothRunning();
    run := Take(run, OnLocal(LocalEnds(Broken)));
    run := Take(run, OnLocal(LocalSend));
    assert Run(run).value.arrivals == [LocalCanceled(Some(LocalError(LocalExecution)))];
    run := Take(run, Main(ReceiveFirst));
  }

  /** From there, the remote side executes and downloads everything, and reports. */
  lemma ReachDownloaded() returns (run: Trace<Step>)
    ensures Run(run).Some? && FactsOf(run).remote.downloaded
    ensures var s := Run(run).value;
      && s.main.MSecond? && !s.parentDone && |s.arrivals| == 2 && s.taken == 1
      && s.winner == Some(LocalCanceled(Some(LocalError(LocalExecution)))) && s.arrivals[1].t.Remote?
  {
    run := ReachBrokenFirst();
    run := Take(run, OnRemote(ExecuteRemotely(true)));
    run := Take(run, OnRemote(CheckAfterExecution));
    run := Take(run, OnRemote(InspectResult));
    run := Take(run, OnRemote(Download(true)));
    run := Take(run, OnRemote(CheckAfterDownload));
    run := Take(run, OnRemote(RemoteSend));
  }

  /** A local process that cannot be started, reported first, hides a remote success that arrives second. */
  lemma BrokenLocalHidesRemoteSuccess()
    ensures exists run ::
      && Run(run).Some? && Run(run).value.main.MDone? && !Run(run).value.parentDone
      && FactsOf(run).remote.downloaded
      && Run(run).value.res == Some(LocalError(LocalExecution))
  {
    var run := ReachDownloaded();
    run := Take(run, Main(ReceiveSecond));
    run := Take(run, Main(Settle));
  }

  /** From BOTH_RUNNING, the parent context ends and the remote side stops, reporting first. */
  lemma ReachStoppedFirst() returns (run: Trace<Step>)
    ensures var m := RemoteCanceled(None, None);
      Run(run) == Some(BOTH_RUNNING.(
        main := MSecond, remote := RSent(m), parentDone := true, arrivals := [m], taken := 1, winner := Some(m)))
    ensures !RemoteFails(FactsOf(run).remote)
  {
    run := ReachBothRunning();
    run := Take(run, ParentEnds);
    run := Take(run, OnRemote(ExecuteRemotely(true)));
    run := Take(run, OnRemote(CheckAfterExecution));
    run := Take(run, OnRemote(RemoteSend));
    assert Run(run).value.arrivals == [RemoteCanceled(None, None)];
    run := Take(run, Main(ReceiveFirst));
  }

  /** Once the parent context has ended, `race` can return without any result. */
  lemma ParentEndCanLeaveNoResult()
    ensures exists run :: Run(run).Some? && Run(run).value.main.MDone? && Run(run).value.res.None?
  {
    var run := ReachStoppedFirst();
    run := Take(run, OnLocal(LocalEnds(Interrupted)));
    run := Take(run, OnLocal(LocalSend));
    run := Take(run, Main(ReceiveSecond));
    run := Take(run, Main(Settle));
  }

  /** Once the parent context has ended, a remote side that was only told to stop can be counted as a fallback. */
  lemma StoppedRemoteCanCountAsFallback()
    ensures exists run ::
      && Run(run).Some? && Run(run).value.main.MDone?
      && Run(run).value.numFallbacks == 1 && !RemoteFails(FactsOf(run).remote)
  {
    var run := ReachStoppedFirst();
    run := Take(run, OnLocal(LocalEnds(Exited(-1))));
    run := Take(run, OnLocal(LocalSend));
    run := Take(run, Main(ReceiveSecond));
    run := Take(run, Main(Settle));
  }
}
