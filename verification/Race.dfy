/**
 * The race between remote and local execution of one action
 * (`race`, `runRemoteRace` and `runLocalRace` in internal/pkg/reproxy/action.go).
 *
 * Four goroutines take atomic steps in any order: the caller of `race` (main), the remote side, the
 * hold-off timer the remote side starts on a cache hit, and the local side. They share the two-slot
 * result channel, the start signal lCh, the child context cCtx and the fields of the action.
 * Everything the environment decides (cache hit or miss, failed downloads, exit codes, when
 * resources become free, which ready branch a select takes) is carried by the label of the step.
 */
module Race {
  import opened Traces
  import opened Wrappers

  datatype Side = RemoteSide | LocalSide

  datatype Cause = TmpDirCreation | ParentContext | MoveOutputs | ContextCreation | LocalQueue | LocalExecution

  /** What ends up in a.res. */
  datatype Result = LocalExit(code: int) | Executed(ok: bool) | LocalError(cause: Cause)

  datatype Kind = Remote | Local | Canceled

  /** A message on the result channel; `sender` and `oe` name the goroutine and whose recorded output it carries. */
  datatype RaceResult = RaceResult(sender: Side, t: Kind, res: Option<Result>, oe: Option<Side>)

  datatype MainPc = MStart | MFirst | MCancel | MSecond | MSettle | MMoving | MDone
  datatype RemotePc =
    | RIdle | RCreating | RLookup | RExecuting | RExecuted(ok: bool) | RInspecting(ok: bool)
    | RDownloading | RDownloaded(ok: bool)
    | RSending(msg: RaceResult) | RSent(msg: RaceResult)
  datatype HoldoffPc = HIdle | HSleeping | HOver
  datatype LocalPc =
    | LIdle | LWaiting | LPreparing | LQueued | LRunning
    | LSending(msg: RaceResult) | LSent(msg: RaceResult)

  /**
   * `arrivals` lists every message ever sent on the channel and `taken` how many main has received, so the
   * buffer holds arrivals[taken..]. `moveBegan` and `localExit` record that main started moving the remote
   * outputs into the exec root, and the exit code of a local run that ended with one.
   */
  datatype State = State(
    main: MainPc, remote: RemotePc, holdoff: HoldoffPc, local: LocalPc,
    parentDone: bool, childCancelled: bool,
    arrivals: seq<RaceResult>, taken: nat, lChCloses: nat,
    winner: Option<RaceResult>,
    res: Option<Result>, oe: Option<Side>, numFallbacks: nat,
    moveBegan: bool, localExit: Option<int>)

  const INIT := State(MStart, RIdle, HIdle, LIdle, false, false, [], 0, 0, None, None, None, 0, false, None)

  datatype CacheLookup = Miss | Hit(hitOk: bool) | Other(otherOk: bool)
  datatype Execution = Exited(code: int) | Interrupted | Broken

  datatype RemoteStep =
    | CreateContext(created: bool) | Lookup(found: CacheLookup) | ExecuteRemotely(executedOk: bool)
    | CheckAfterExecution | InspectResult | Download(downloadOk: bool) | CheckAfterDownload | RemoteSend
  datatype LocalStep =
    | LocalStart | LocalSkip | LocalPrepared | LocalAcquire | LocalAcquireFails(isCanceled: bool)
    | LocalEnds(execution: Execution) | LocalSend
  datatype MainStep =
    | TmpDirFails | Spawn | ReceiveFirst | ParentWinsFirst | CancelChild | ReceiveSecond | ParentWinsSecond
    | Settle | FinishMove(moveOk: bool)
  datatype Step = Main(m: MainStep) | OnRemote(r: RemoteStep) | HoldoffOver | OnLocal(l: LocalStep) | ParentEnds

  /** cCtx is a child of the caller's context, so it ends with either. */
  predicate ChildDone(s: State) {
    s.parentDone || s.childCancelled
  }

  predicate RoomInChannel(s: State) {
    |s.arrivals| - s.taken < 2
  }

  predicate RemoteEnabled(s: State, step: RemoteStep) {
    match step
    case CreateContext(_) => s.remote.RCreating?
    case Lookup(_) => s.remote.RLookup?
    case ExecuteRemotely(_) => s.remote.RExecuting?
    case CheckAfterExecution => s.remote.RExecuted?
    case InspectResult => s.remote.RInspecting?
    case Download(_) => s.remote.RDownloading?
    case CheckAfterDownload => s.remote.RDownloaded?
    case RemoteSend => s.remote.RSending? && RoomInChannel(s)
  }

  predicate LocalEnabled(s: State, step: LocalStep) {
    match step
    case LocalStart => s.local.LWaiting? && s.lChCloses > 0
    case LocalSkip => s.local.LWaiting? && ChildDone(s)
    case LocalPrepared => s.local.LPreparing?
    case LocalAcquire => s.local.LQueued?
    // The queue only gives up when cCtx ends, and reports context.Canceled unless the parent supplied a cause.
    case LocalAcquireFails(isCanceled) => s.local.LQueued? && ChildDone(s) && (isCanceled || s.parentDone)
    // A started process is bound to the parent context only.
    case LocalEnds(execution) => s.local.LRunning? && (execution.Interrupted? ==> s.parentDone)
    case LocalSend => s.local.LSending? && RoomInChannel(s)
  }

  predicate MainEnabled(s: State, step: MainStep) {
    match step
    case TmpDirFails => s.main.MStart?
    case Spawn => s.main.MStart?
    case ReceiveFirst => s.main.MFirst? && s.taken < |s.arrivals|
    case ParentWinsFirst => s.main.MFirst? && s.parentDone
    case CancelChild => s.main.MCancel? && s.winner.Some?
    case ReceiveSecond => s.main.MSecond? && s.winner.Some? && s.taken < |s.arrivals|
    case ParentWinsSecond => s.main.MSecond? && s.parentDone
    case Settle => s.main.MSettle? && s.winner.Some?
    case FinishMove(_) => s.main.MMoving? && s.winner.Some?
  }

  predicate Enabled(s: State, step: Step) {
    match step
    case Main(m) => MainEnabled(s, m)
    case OnRemote(r) => RemoteEnabled(s, r)
    case HoldoffOver => s.holdoff.HSleeping?
    case OnLocal(l) => LocalEnabled(s, l)
    case ParentEnds => !s.parentDone
  }

  function RemoteCanceled(res: Option<Result>, oe: Option<Side>): RaceResult {
    RaceResult(RemoteSide, Canceled, res, oe)
  }

  function LocalCanceled(res: Option<Result>): RaceResult {
    RaceResult(LocalSide, Canceled, res, None)
  }

  function ApplyRemote(s: State, step: RemoteStep): State
    requires RemoteEnabled(s, step)
  {
    match step
    case CreateContext(created) =>
      if created then s.(remote := RLookup)
      else s.(remote := RSending(RemoteCanceled(Some(LocalError(ContextCreation)), None)), lChCloses := s.lChCloses + 1)
    case Lookup(found) =>
      (match found
       case Miss => s.(remote := RExecuting, lChCloses := s.lChCloses + 1)
       case Hit(ok) => s.(remote := RInspecting(ok), holdoff := HSleeping)
       case Other(ok) => s.(remote := RInspecting(ok), lChCloses := s.lChCloses + 1))
    case ExecuteRemotely(ok) => s.(remote := RExecuted(ok))
    case CheckAfterExecution =>
      s.(remote := if ChildDone(s) then RSending(RemoteCanceled(None, None)) else RInspecting(s.remote.ok))
    case InspectResult =>
      s.(remote := if s.remote.ok then RDownloading else RSending(RemoteCanceled(Some(Executed(false)), None)))
    case Download(ok) => s.(remote := RDownloaded(ok))
    case CheckAfterDownload =>
      s.(remote := RSending(
        if ChildDone(s) then RemoteCanceled(None, None)
        else if !s.remote.ok then RemoteCanceled(Some(Executed(false)), Some(RemoteSide))
        else RaceResult(RemoteSide, Remote, Some(Executed(true)), Some(RemoteSide))))
    case RemoteSend => s.(remote := RSent(s.remote.msg), arrivals := s.arrivals + [s.remote.msg])
  }

  function ApplyLocal(s: State, step: LocalStep): State
    requires LocalEnabled(s, step)
  {
    match step
    case LocalStart => s.(local := LPreparing)
    case LocalSkip => s.(local := LSending(LocalCanceled(None)))
    case LocalPrepared => s.(local := LQueued)
    case LocalAcquire => s.(local := LRunning)
    case LocalAcquireFails(isCanceled) =>
      s.(local := LSending(LocalCanceled(if isCanceled then None else Some(LocalError(LocalQueue)))))
    case LocalEnds(execution) =>
      (match execution
       case Interrupted => s.(local := LSending(LocalCanceled(None)))
       case Broken => s.(local := LSending(LocalCanceled(Some(LocalError(LocalExecution)))))
       case Exited(code) =>
         s.(local := LSending(RaceResult(LocalSide, Local, Some(LocalExit(code)), Some(LocalSide))),
            res := Some(LocalExit(code)), localExit := Some(code)))
    case LocalSend => s.(local := LSent(s.local.msg), arrivals := s.arrivals + [s.local.msg])
  }

  function ApplyMain(s: State, step: MainStep): State
    requires MainEnabled(s, step)
  {
    match step
    case TmpDirFails => s.(main := MDone, res := Some(LocalError(TmpDirCreation)))
    case Spawn => s.(main := MFirst, remote := RCreating, local := LWaiting)
    case ReceiveFirst =>
      var first := s.arrivals[s.taken];
      s.(winner := Some(first), taken := s.taken + 1, main := if first.t.Canceled? then MSecond else MCancel)
    case ParentWinsFirst => s.(main := MDone, res := Some(LocalError(ParentContext)))
    case CancelChild =>
      s.(childCancelled := true, main := if s.winner.value.t.Remote? then MSecond else MSettle)
    case ReceiveSecond =>
      var rr := s.arrivals[s.taken];
      s.(taken := s.taken + 1, main := MSettle,
         numFallbacks := s.numFallbacks + (if s.winner.value.t.Canceled? && rr.t.Local? then 1 else 0),
         winner := if rr.t.Local? then Some(rr) else s.winner)
    case ParentWinsSecond => s.(main := MDone, res := Some(LocalError(ParentContext)))
    case Settle =>
      var w := s.winner.value;
      if w.t.Remote? then s.(main := MMoving, moveBegan := true)
      else s.(main := MDone, oe := w.oe, res := if w.t.Canceled? && w.res.Some? then w.res else s.res)
    case FinishMove(ok) =>
      if ok then s.(main := MDone, oe := s.winner.value.oe, res := s.winner.value.res)
      else s.(main := MDone, res := Some(LocalError(MoveOutputs)))
  }

  function Apply(s: State, step: Step): State
    requires Enabled(s, step)
  {
    match step
    case Main(m) => ApplyMain(s, m)
    case OnRemote(r) => ApplyRemote(s, r)
    case HoldoffOver => s.(holdoff := HOver, lChCloses := s.lChCloses + 1)
    case OnLocal(l) => ApplyLocal(s, l)
    case ParentEnds => s.(parentDone := true)
  }

  /** The state after a run from the start of `race`, or None when some step of the run was not enabled. */
  function Run(run: Trace<Step>): Option<State> {
    match run
    case Start => Some(INIT)
    case Then(before, step) =>
      var s := Run(before);
      if s.Some? && Enabled(s.value, step) then Some(Apply(s.value, step)) else None
  }

  // ---------------------------------------------------------------------------------------------
  // The inductive invariant
  // ---------------------------------------------------------------------------------------------

  predicate Bare(m: RaceResult) {
    m.t.Canceled? && m.res.None?
  }

  /** The local side could not run the action: its queue or the execution itself failed. */
  predicate LocalTrouble(r: Result) {
    r == LocalError(LocalQueue) || r == LocalError(LocalExecution)
  }

  /** Messages a side can ever produce. */
  predicate WellFormed(m: RaceResult) {
    match m.sender
    case RemoteSide =>
      && !m.t.Local? && (m.res.Some? ==> !m.res.value.LocalExit?)
      && (m.t.Remote? ==> m.res == Some(Executed(true)) && m.oe == Some(RemoteSide))
    case LocalSide =>
      && !m.t.Remote? && (m.t.Local? <==> m.res.Some? && m.res.value.LocalExit?)
      && (m.t.Local? ==> m.oe == Some(LocalSide))
      && (m.t.Canceled? ==> m.oe.None? && (m.res.None? || LocalTrouble(m.res.value)))
  }

  function RemoteMsg(s: State): Option<RaceResult> {
    match s.remote case RSending(m) => Some(m) case RSent(m) => Some(m) case _ => None
  }

  function LocalMsg(s: State): Option<RaceResult> {
    match s.local case LSending(m) => Some(m) case LSent(m) => Some(m) case _ => None
  }

  /** Who sent what: the channel's history holds exactly the messages of the sides that are through. */
  predicate ChannelInv(s: State) {
    && s.taken <= |s.arrivals| == (if s.remote.RSent? then 1 else 0) + (if s.local.LSent? then 1 else 0)
    && (s.remote.RSent? ==> s.remote.msg == s.arrivals[0] || (s.local.LSent? && s.remote.msg == s.arrivals[1]))
    && (s.local.LSent? ==> s.local.msg == s.arrivals[0] || (s.remote.RSent? && s.local.msg == s.arrivals[1]))
    && (RemoteMsg(s).Some? ==> RemoteMsg(s).value.sender == RemoteSide && WellFormed(RemoteMsg(s).value))
    && (LocalMsg(s).Some? ==> LocalMsg(s).value.sender == LocalSide && WellFormed(LocalMsg(s).value))
  }

  /** Who may cancel: the child context is cancelled only after a message that is a result was received. */
  predicate CancelInv(s: State) {
    && (s.childCancelled ==> s.taken >= 1 && |s.arrivals| >= 1 && !s.arrivals[0].t.Canceled?)
    && (RemoteMsg(s).Some? && Bare(RemoteMsg(s).value) ==> ChildDone(s))
    && (LocalMsg(s).Some? && Bare(LocalMsg(s).value) ==> ChildDone(s))
    && (|s.arrivals| >= 1 && Bare(s.arrivals[0]) ==> s.parentDone)
  }

  /** What main knows at each point. */
  predicate MainInv(s: State) {
    match s.main
    case MStart => s.taken == 0 && s.winner.None? && s.remote.RIdle? && s.local.LIdle? && s.numFallbacks == 0
    case MFirst => s.taken == 0 && s.winner.None? && s.numFallbacks == 0 && !s.remote.RIdle? && !s.local.LIdle?
    case MCancel =>
      && s.taken == 1 && |s.arrivals| >= 1 && s.winner == Some(s.arrivals[0]) && !s.arrivals[0].t.Canceled?
      && s.numFallbacks == 0 && !s.remote.RIdle? && !s.local.LIdle?
    case MSecond =>
      && s.taken == 1 && |s.arrivals| >= 1 && s.winner == Some(s.arrivals[0]) && !s.arrivals[0].t.Local?
      && (s.arrivals[0].t.Remote? ==> s.childCancelled)
      && s.numFallbacks == 0 && !s.remote.RIdle? && !s.local.LIdle?
    case MSettle => Settled(s) && !s.remote.RIdle? && !s.local.LIdle?
    case MMoving => Settled(s) && s.taken == 2 && s.winner.value.t.Remote? && !s.remote.RIdle? && !s.local.LIdle?
    case MDone => (s.remote.RIdle? <==> s.local.LIdle?)
  }

  /** The selection rule: the first message wins unless the second one is a local result. */
  predicate Settled(s: State) {
    && 1 <= s.taken <= |s.arrivals|
    && (s.taken == 1 ==> s.arrivals[0].t.Local?)
    && s.winner == Some(if s.taken == 2 && s.arrivals[1].t.Local? then s.arrivals[1] else s.arrivals[0])
    && (s.taken == 2 ==> !s.arrivals[0].t.Local?)
    && (!s.arrivals[0].t.Canceled? ==> s.childCancelled)
    && s.numFallbacks == Fallbacks(s)
  }

  function Fallbacks(s: State): nat {
    if s.taken == 2 && |s.arrivals| == 2 && s.arrivals[0].t.Canceled? && s.arrivals[1].t.Local? then 1 else 0
  }

  /** lCh is closed once, by the remote side on every path or by the timer it left behind. */
  predicate SignalInv(s: State) {
    && s.lChCloses <= 1
    && (s.lChCloses == 0 <==> s.remote.RIdle? || s.remote.RCreating? || s.remote.RLookup? || s.holdoff.HSleeping?)
    && (!s.holdoff.HIdle? ==> !s.remote.RIdle? && !s.remote.RCreating? && !s.remote.RLookup?)
  }

  /** The exec root: outputs are moved only once the local side is through without a result. */
  predicate ExecRootInv(s: State) {
    && (s.main.MMoving? ==> s.moveBegan)
    && (s.moveBegan ==> s.local.LSent? && !s.local.msg.t.Local?)
    && (s.localExit.Some? <==> LocalMsg(s).Some? && LocalMsg(s).value.t.Local?)
    && (s.localExit.Some? ==> LocalMsg(s).value.res == Some(LocalExit(s.localExit.value)))
  }

  /** main returned from one of its two selects because the parent context ended. */
  predicate LeftEarly(s: State) {
    s.taken == 0 || (s.taken == 1 && |s.arrivals| >= 1 && !s.arrivals[0].t.Local?)
  }

  /** What the action's fields hold while main is at work and once it has returned. */
  predicate ResultInv(s: State) {
    && (!s.main.MDone? ==>
          s.res == (if s.localExit.Some? then Some(LocalExit(s.localExit.value)) else None) && s.oe.None?)
    && (s.main.MDone? && s.remote.RIdle? ==> s.res == Some(LocalError(TmpDirCreation)) && s.numFallbacks == 0)
    && (s.main.MDone? && !s.remote.RIdle? ==>
          if LeftEarly(s) then s.parentDone && s.res.Some? && s.numFallbacks == 0 else Settled(s) && Published(s))
  }

  /** What `race` leaves in a.res and a.oe for the winner it settled on. */
  predicate Published(s: State) {
    && s.winner.Some?
    && var w := s.winner.value;
      || (s.res == w.res && s.oe == w.oe)
      || (w.t.Remote? && s.res == Some(LocalError(MoveOutputs)) && s.oe.None?)
  }

  predicate Inv(s: State) {
    ChannelInv(s) && CancelInv(s) && MainInv(s) && SignalInv(s) && ExecRootInv(s) && ResultInv(s)
  }

  // One lemma per family of steps keeps each proof small.

  lemma LookupKeepsInv(s: State, found: CacheLookup)
    requires Inv(s) && RemoteEnabled(s, Lookup(found))
    ensures Inv(ApplyRemote(s, Lookup(found)))
  {
  }

  lemma CreateContextKeepsInv(s: State, created: bool)
    requires Inv(s) && RemoteEnabled(s, CreateContext(created))
    ensures Inv(ApplyRemote(s, CreateContext(created)))
  {
  }

  lemma InspectKeepsInv(s: State)
    requires Inv(s) && RemoteEnabled(s, InspectResult)
    ensures Inv(ApplyRemote(s, InspectResult))
  {
  }

  lemma TransferKeepsInv(s: State, step: RemoteStep)
    requires Inv(s) && RemoteEnabled(s, step) && (step.ExecuteRemotely? || step.Download?)
    ensures Inv(ApplyRemote(s, step))
  {
  }

  lemma RemoteCheckKeepsInv(s: State, step: RemoteStep)
    requires Inv(s) && RemoteEnabled(s, step)
    requires step.CheckAfterExecution? || step.CheckAfterDownload?
    ensures Inv(ApplyRemote(s, step))
  {
  }

  lemma RemoteSendKeepsInv(s: State)
    requires Inv(s) && RemoteEnabled(s, RemoteSend)
    ensures Inv(ApplyRemote(s, RemoteSend))
  {
  }

  lemma LocalWorkKeepsInv(s: State, step: LocalStep)
    requires Inv(s) && LocalEnabled(s, step) && !step.LocalEnds? && !step.LocalSend?
    ensures Inv(ApplyLocal(s, step))
  {
  }

  lemma LocalEndKeepsInv(s: State, execution: Execution)
    requires Inv(s) && LocalEnabled(s, LocalEnds(execution))
    ensures Inv(ApplyLocal(s, LocalEnds(execution)))
  {
  }

  lemma LocalSendKeepsInv(s: State)
    requires Inv(s) && LocalEnabled(s, LocalSend)
    ensures Inv(ApplyLocal(s, LocalSend))
  {
  }

  lemma ReceiveKeepsInv(s: State, step: MainStep)
    requires Inv(s) && MainEnabled(s, step) && (step.ReceiveFirst? || step.ReceiveSecond?)
    ensures Inv(ApplyMain(s, step))
  {
  }

  lemma CancelKeepsInv(s: State)
    requires Inv(s) && MainEnabled(s, CancelChild)
    ensures Inv(ApplyMain(s, CancelChild))
  {
  }

  /** What does not depend on main's position or on the fields of the action. */
  lemma SettlingKeepsMessages(s: State, t: State)
    requires ChannelInv(s) && CancelInv(s) && SignalInv(s)
    requires t == s.(main := t.main, moveBegan := t.moveBegan, res := t.res, oe := t.oe)
    ensures ChannelInv(t) && CancelInv(t) && SignalInv(t)
  {
  }

  lemma SettleMoveKeepsInv(s: State)
    requires Inv(s) && MainEnabled(s, Settle) && s.winner.value.t.Remote?
    ensures Inv(ApplyMain(s, Settle))
  {
    var next := ApplyMain(s, Settle);
    SettlingKeepsMessages(s, next);
    assert Settled(next);
  }

  lemma SettlePublishKeepsInv(s: State)
    requires Inv(s) && MainEnabled(s, Settle) && !s.winner.value.t.Remote?
    ensures Inv(ApplyMain(s, Settle))
  {
    var next := ApplyMain(s, Settle);
    SettlingKeepsMessages(s, next);
    assert !LeftEarly(next) && Settled(next);
    assert Published(next);
  }

  lemma SettleKeepsInv(s: State)
    requires Inv(s) && MainEnabled(s, Settle)
    ensures Inv(ApplyMain(s, Settle))
  {
    if s.winner.value.t.Remote? {
      SettleMoveKeepsInv(s);
    } else {
      SettlePublishKeepsInv(s);
    }
  }

  lemma FinishMoveKeepsInv(s: State, moveOk: bool)
    requires Inv(s) && MainEnabled(s, FinishMove(moveOk))
    ensures Inv(ApplyMain(s, FinishMove(moveOk)))
  {
  }

  lemma StartOrLeaveKeepsInv(s: State, step: MainStep)
    requires Inv(s) && MainEnabled(s, step)
    requires step.TmpDirFails? || step.Spawn? || step.ParentWinsFirst? || step.ParentWinsSecond?
    ensures Inv(ApplyMain(s, step))
  {
  }

  lemma MainKeepsInv(s: State, step: MainStep)
    requires Inv(s) && MainEnabled(s, step)
    ensures Inv(ApplyMain(s, step))
  {
    match step
    case ReceiveFirst | ReceiveSecond => ReceiveKeepsInv(s, step);
    case CancelChild => CancelKeepsInv(s);
    case Settle => SettleKeepsInv(s);
    case FinishMove(moveOk) => FinishMoveKeepsInv(s, moveOk);
    case _ => StartOrLeaveKeepsInv(s, step);
  }

  lemma RemoteKeepsInv(s: State, step: RemoteStep)
    requires Inv(s) && RemoteEnabled(s, step)
    ensures Inv(ApplyRemote(s, step))
  {
    match step
    case Lookup(found) => LookupKeepsInv(s, found);
    case RemoteSend => RemoteSendKeepsInv(s);
    case CheckAfterExecution | CheckAfterDownload => RemoteCheckKeepsInv(s, step);
    case CreateContext(created) => CreateContextKeepsInv(s, created);
    case InspectResult => InspectKeepsInv(s);
    case _ => TransferKeepsInv(s, step);
  }

  lemma LocalKeepsInv(s: State, step: LocalStep)
    requires Inv(s) && LocalEnabled(s, step)
    ensures Inv(ApplyLocal(s, step))
  {
    match step
    case LocalEnds(execution) => LocalEndKeepsInv(s, execution);
    case LocalSend => LocalSendKeepsInv(s);
    case _ => LocalWorkKeepsInv(s, step);
  }

  lemma HoldoffKeepsInv(s: State)
    requires Inv(s) && Enabled(s, HoldoffOver)
    ensures Inv(Apply(s, HoldoffOver))
  {
    SameMessagesKeepInv(s, Apply(s, HoldoffOver));
  }

  lemma ParentEndKeepsInv(s: State)
    requires Inv(s) && Enabled(s, ParentEnds)
    ensures Inv(Apply(s, ParentEnds))
  {
    SameMessagesKeepInv(s, Apply(s, ParentEnds));
  }

  /** What does not depend on the timer, the signal or the parent context. */
  lemma SameMessagesKeepInv(s: State, t: State)
    requires ChannelInv(s) && MainInv(s) && ExecRootInv(s)
    requires t == s.(parentDone := t.parentDone, holdoff := t.holdoff, lChCloses := t.lChCloses)
    ensures ChannelInv(t) && MainInv(t) && ExecRootInv(t)
  {
  }

  lemma StepKeepsInv(s: State, step: Step)
    requires Inv(s) && Enabled(s, step)
    ensures Inv(Apply(s, step))
  {
    match step
    case Main(m) => MainKeepsInv(s, m);
    case OnRemote(r) => RemoteKeepsInv(s, r);
    case OnLocal(l) => LocalKeepsInv(s, l);
    case HoldoffOver => HoldoffKeepsInv(s);
    case ParentEnds => ParentEndKeepsInv(s);
  }

  lemma {:induction false} RunKeepsInv(run: Trace<Step>)
    requires Run(run).Some?
    ensures Inv(Run(run).value)
  {
    match run
    case Start =>
    case Then(before, step) =>
      RunKeepsInv(before);
      StepKeepsInv(Run(before).value, step);
  }

  // ---------------------------------------------------------------------------------------------
  // Safety over all runs
  // ---------------------------------------------------------------------------------------------

  /**
   * Once main has begun to move the remote outputs into the exec root, the local side is through: it has
   * delivered its only message, that message is not a local result, no local process runs, and no step of
   * the local side is possible ever again. So a local run that ended with an exit code is never overwritten.
   */
  lemma MoveIsExclusive(run: Trace<Step>, step: LocalStep)
    requires Run(run).Some? && Run(run).value.moveBegan
    ensures Run(run).value.local.LSent? && !Run(run).value.local.msg.t.Local?
    ensures Run(run).value.localExit.None?
    ensures !LocalEnabled(Run(run).value, step)
  {
    RunKeepsInv(run);
  }

  /** While the parent context lives, a local run that ends with an exit code is the result, and nothing else is. */
  lemma LocalExitIsFinal(run: Trace<Step>)
    requires Run(run).Some?
    requires Run(run).value.main.MDone? && !Run(run).value.parentDone
    ensures var s := Run(run).value;
      forall code :: s.localExit == Some(code) <==> s.res == Some(LocalExit(code))
    ensures var s := Run(run).value;
      s.localExit.Some? ==> s.oe == Some(LocalSide) && !s.moveBegan
  {
    RunKeepsInv(run);
    var s := Run(run).value;
    if !s.remote.RIdle? {
      assert Settled(s) && Published(s);
      assert WellFormed(s.winner.value);
    }
  }

  /**
   * `race` returns without a result exactly when it settled on a message that was canceled without one, and
   * that takes an ended parent context; so with a live parent the server's "racing did not produce a result"
   * branch is unreachable.
   */
  lemma NoResultExactly(run: Trace<Step>)
    requires Run(run).Some? && Run(run).value.main.MDone?
    ensures var s := Run(run).value;
      s.res.None? <==> !s.remote.RIdle? && !LeftEarly(s) && s.winner.Some? && Bare(s.winner.value)
    ensures Run(run).value.res.None? ==> Run(run).value.parentDone
  {
    RunKeepsInv(run);
    var s := Run(run).value;
    if !s.remote.RIdle? && !LeftEarly(s) {
      assert Settled(s) && Published(s);
      assert WellFormed(s.winner.value);
    }
  }

  /** Whatever the contexts do, one race adds at most one fallback. */
  lemma FallbackAtMostOnce(run: Trace<Step>)
    requires Run(run).Some?
    ensures Run(run).value.numFallbacks <= 1
  {
    RunKeepsInv(run);
  }

  /**
   * lCh is never closed twice, and exactly once on every path of the remote side, by that side or by the timer
   * it left behind; and a side that is ready to report never blocks on the channel.
   */
  lemma SendersNeverBlock(run: Trace<Step>)
    requires Run(run).Some?
    ensures Run(run).value.lChCloses <= 1
    ensures Finished(Run(run).value) && !Run(run).value.remote.RIdle? ==> Run(run).value.lChCloses == 1
    ensures RemoteMsg(Run(run).value).Some? && !Run(run).value.holdoff.HSleeping? ==> Run(run).value.lChCloses == 1
    ensures Run(run).value.remote.RSending? || Run(run).value.local.LSending? ==> RoomInChannel(Run(run).value)
  {
    RunKeepsInv(run);
  }

  // ---------------------------------------------------------------------------------------------
  // Progress: no run gets stuck, and every run is bounded
  // ---------------------------------------------------------------------------------------------

  /** All goroutines of the race have returned. */
  predicate Finished(s: State) {
    s.main.MDone? && (s.remote.RIdle? || (s.remote.RSent? && s.local.LSent? && !s.holdoff.HSleeping?))
  }

  /** A step that some goroutine can take, as long as the environment answers. */
  function ReadyStep(s: State): Step {
    match s.remote
    case RCreating => OnRemote(CreateContext(true))
    case RLookup => OnRemote(Lookup(Miss))
    case RExecuting => OnRemote(ExecuteRemotely(true))
    case RExecuted(_) => OnRemote(CheckAfterExecution)
    case RInspecting(_) => OnRemote(InspectResult)
    case RDownloading => OnRemote(Download(true))
    case RDownloaded(_) => OnRemote(CheckAfterDownload)
    case RSending(_) => OnRemote(RemoteSend)
    case _ =>
      if s.holdoff.HSleeping? then HoldoffOver
      else match s.local
        case LWaiting => OnLocal(LocalStart)
        case LPreparing => OnLocal(LocalPrepared)
        case LQueued => OnLocal(LocalAcquire)
        case LRunning => OnLocal(LocalEnds(Exited(0)))
        case LSending(_) => OnLocal(LocalSend)
        case _ =>
          match s.main
          case MStart => Main(Spawn)
          case MFirst => Main(ReceiveFirst)
          case MCancel => Main(CancelChild)
          case MSecond => Main(ReceiveSecond)
          case MSettle => Main(Settle)
          case _ => Main(FinishMove(true))
  }

  /** A race that is not over can always go on by a step of its own, without the parent context ending. */
  lemma NeverStuck(run: Trace<Step>)
    requires Run(run).Some? && !Finished(Run(run).value)
    ensures Enabled(Run(run).value, ReadyStep(Run(run).value)) && !ReadyStep(Run(run).value).ParentEnds?
  {
    RunKeepsInv(run);
  }

  function MainRank(pc: MainPc): nat {
    match pc
    case MStart => 6 case MFirst => 5 case MCancel => 4 case MSecond => 3 case MSettle => 2 case MMoving => 1
    case MDone => 0
  }

  function RemoteRank(pc: RemotePc): nat {
    match pc
    case RIdle => 9 case RCreating => 9 case RLookup => 8 case RExecuting => 6 case RExecuted(_) => 5
    case RInspecting(_) => 4 case RDownloading => 3 case RDownloaded(_) => 2 case RSending(_) => 1 case RSent(_) => 0
  }

  function LocalRank(pc: LocalPc): nat {
    match pc
    case LIdle => 5 case LWaiting => 5 case LPreparing => 4 case LQueued => 3 case LRunning => 2
    case LSending(_) => 1 case LSent(_) => 0
  }

  function Rank(s: State): nat {
    MainRank(s.main) + RemoteRank(s.remote) + LocalRank(s.local)
    + (if s.holdoff.HSleeping? then 1 else 0) + (if s.parentDone then 0 else 1)
  }

  lemma RemoteStepDescends(s: State, step: RemoteStep)
    requires RemoteEnabled(s, step)
    ensures Rank(ApplyRemote(s, step)) < Rank(s)
  {
  }

  lemma LocalStepDescends(s: State, step: LocalStep)
    requires LocalEnabled(s, step)
    ensures Rank(ApplyLocal(s, step)) < Rank(s)
  {
  }

  lemma MainStepDescends(s: State, step: MainStep)
    requires MainInv(s) && MainEnabled(s, step)
    ensures Rank(ApplyMain(s, step)) < Rank(s)
  {
  }

  lemma StepDescends(s: State, step: Step)
    requires Inv(s) && Enabled(s, step)
    ensures Rank(Apply(s, step)) < Rank(s)
  {
    match step
    case Main(m) => MainStepDescends(s, m);
    case OnRemote(r) => RemoteStepDescends(s, r);
    case OnLocal(l) => LocalStepDescends(s, l);
    case HoldoffOver =>
    case ParentEnds =>
  }

  /** No run of a race is longer than 21 steps, so together with NeverStuck every race finishes. */
  lemma {:induction false} RunsAreBounded(run: Trace<Step>)
    requires Run(run).Some?
    ensures Length(run) + Rank(Run(run).value) <= Rank(INIT) == 21
  {
    match run
    case Start =>
    case Then(before, step) =>
      RunsAreBounded(before);
      RunKeepsInv(before);
      StepDescends(Run(before).value, step);
  }

  // ---------------------------------------------------------------------------------------------
  // The caller's own code, written as it runs
  // ---------------------------------------------------------------------------------------------

  /** The fields of the action and the counter that the tail of `race` may write. */
  datatype Fields = Fields(res: Option<Result>, oe: Option<Side>, numFallbacks: nat)

  /**
   * The outcome of `race` in terms of the two messages; None stands for a select won by the parent context.
   * The decisive message is a second one that is local, and the first one otherwise.
   */
  function Verdict(f: Fields, first: Option<RaceResult>, second: Option<RaceResult>, moveOk: bool): Fields {
    if first.None? || (!first.value.t.Local? && second.None?) then f.(res := Some(LocalError(ParentContext)))
    else
      var localSecond := !first.value.t.Local? && second.value.t.Local?;
      var w := if localSecond then second.value else first.value;
      var counted := f.numFallbacks + (if localSecond && first.value.t.Canceled? then 1 else 0);
      if w.t.Remote? && !moveOk then Fields(Some(LocalError(MoveOutputs)), f.oe, counted)
      else Fields(if w.t.Remote? || (w.t.Canceled? && w.res.Some?) then w.res else f.res, w.oe, counted)
  }

  class RacingAction {
    var res: Option<Result>
    var oe: Option<Side>
    var numFallbacks: nat

    function Value(): Fields
      reads this
    {
      Fields(res, oe, numFallbacks)
    }

    /** From the first select of `race` to its end. */
    method Decide(first: Option<RaceResult>, second: Option<RaceResult>, moveOk: bool) returns (cancelled: bool)
      modifies this
      ensures Value() == Verdict(old(Value()), first, second, moveOk)
      ensures cancelled <==> first.Some? && !first.value.t.Canceled?
    {
      cancelled := false;
      if first.None? {
        res := Some(LocalError(ParentContext));
        return;
      }
      var winner := first.value;
      if !winner.t.Canceled? {
        cancelled := true;
      }
      if winner.t.Remote? || winner.t.Canceled? {
        if second.None? {
          res := Some(LocalError(ParentContext));
          return;
        }
        var rr := second.value;
        if winner.t.Canceled? && rr.t.Local? {
          numFallbacks := numFallbacks + 1;
        }
        if rr.t.Local? {
          winner := rr;
        }
      }
      if winner.t.Remote? {
        if !moveOk {
          res := Some(LocalError(MoveOutputs));
          return;
        }
        res := winner.res;
      }
      if winner.t.Canceled? && winner.res.Some? {
        res := winner.res;
      }
      oe := winner.oe;
    }
  }

  /**
   * The interleaved race refines the sequential code: when main returned without the parent context ending,
   * its fields are what Decide computes from the messages in the order they arrived.
   */
  lemma RaceRefinesDecide(run: Trace<Step>)
    requires Run(run).Some?
    requires var s := Run(run).value; s.main.MDone? && !s.remote.RIdle? && !s.parentDone
    ensures var s := Run(run).value;
      && 1 <= |s.arrivals|
      && Fields(s.res, s.oe, s.numFallbacks) == Verdict(
        Fields(if s.localExit.Some? then Some(LocalExit(s.localExit.value)) else None, None, 0),
        Some(s.arrivals[0]),
        if |s.arrivals| == 2 then Some(s.arrivals[1]) else None,
        s.res != Some(LocalError(MoveOutputs)))
  {
    RunKeepsInv(run);
    var s := Run(run).value;
    assert Settled(s) && Published(s);
    assert WellFormed(s.arrivals[0]) && (|s.arrivals| == 2 ==> WellFormed(s.arrivals[1]));
    if s.winner.value.t.Local? {
      assert s.localExit.Some?;
    }
  }
}
