/** The worker lifecycle as a state machine: the host's tick loop, any number of stop calls from
    Meta, the cleanup at process exit, crashes and restarts, interleaved at every await. One action
    is one stretch of code between two awaits, or one write landing on disk. Everything the
    surroundings decide is a parameter of the action; an action that is not enabled changes nothing. */
module Lifecycle {
  import opened Prelude
  import opened Events
  import opened Sessions
  import opened Recovery
  import opened Daemon

  /** The files. `instructions` are the ids of all `meta_instruction` envelopes ever sent to the
      worker, `unread` of those no worker has pulled. */
  datatype Disk = Disk(store: Store, counter: Counter, instructions: set<Id>, unread: set<Id>)

  /** What a closeout owner captured on entry. */
  datatype Owner = Owner(session: nat, epoch: nat, injectFailed: bool)

  /** Where the tick loop is. */
  datatype HostPc =
    | Down
    | Idle
    | GatePeeking | AtGate(ids: set<Id>) | Reconciling
    | Allocating | Starting(session: nat) | Spawning(session: nat) | Aborting(session: nat)
    | Injecting | StartDone | StartFailed | CapturePeeking | Capturing(ids: set<Id>)
    | Monitoring
    | FinClosing(owner: Owner)
    | FinEvaluating(owner: Owner, reason: ExitReason)
    | FinEnqueuing(owner: Owner, reason: ExitReason)
    | FinEnqueued(owner: Owner, reason: ExitReason, enqueued: bool)
    | FinTail(owner: Owner, reason: ExitReason)
    | FinCapturePeeking(owner: Owner, reason: ExitReason)
    | FinCapturing(owner: Owner, reason: ExitReason, ids: set<Id>)
    | FinChecking(owner: Owner, reason: ExitReason)
    | FinAppending(owner: Owner, reason: ExitReason)
    | FinDone(owner: Owner)

  datatype StopOutcome = Noop | SoftKillFailed | Dispatched

  datatype StopPc =
    | StopClosing | StopResuming(outcome: StopOutcome) | StopEnqueuing | StopEnqueued
    | StopAppending | StopContinuing | StopReleasing | StopDone

  /** One call of the wrapped `stopWorker`. */
  datatype StopCall = StopCall(pc: StopPc, hadActiveHandle: bool, session: Option<nat>, epoch: nat,
                               interrupt: bool, restart: bool)

  datatype CleanerPc = NotCleaning | Waiting | Taken | CleanAppending(session: nat) | CleanFinishing | Exited

  /** `bootLog` and `bootEnds` mark where the records of the current process begin. */
  datatype World = World(mem: Memory, disk: Disk, host: HostPc, stops: seq<StopCall>, cleaner: CleanerPc,
                         bootLog: nat, bootEnds: nat)

  predicate Live(w: World) {
    !w.host.Down? && !w.cleaner.Exited?
  }

  predicate InFinalize(h: HostPc) {
    || h.FinClosing? || h.FinEvaluating? || h.FinEnqueuing? || h.FinEnqueued? || h.FinTail?
    || h.FinCapturePeeking? || h.FinCapturing? || h.FinChecking? || h.FinAppending? || h.FinDone?
  }

  // ---- writes ----

  function LogEnded(d: Disk, session: nat, reason: ExitReason, readable: bool): Disk {
    d.(store := d.store.(log := AppendedOnce(d.store.log, WorkerEnded(session, reason), readable)))
  }

  function LogStarted(d: Disk, session: nat): Disk {
    d.(store := d.store.(log := Appended(d.store.log, WorkerStarted(session))))
  }

  function SendEnd(d: Disk, session: nat, reason: ExitReason, key: Key, ok: bool): Disk {
    if ok then d.(store := d.store.(ends := d.store.ends + [End(key, session, reason, false, true)])) else d
  }

  // ---- the tick loop ----

  /** No tick begins once cleanup has begun. */
  function HostTick(w: World): World {
    if w.host.Idle? && w.cleaner.NotCleaning? then
      w.(host := if GateIsOpen(w.mem) then GatePeeking else Reconciling)
    else w
  }

  /** A peek at the unread instructions; a failing peek sees none. */
  function HostPeek(w: World, ok: bool): World {
    var ids := if ok then w.disk.unread else {};
    match w.host
    case GatePeeking => w.(host := AtGate(ids))
    case CapturePeeking => w.(host := Capturing(ids))
    case _ => w
  }

  function HostGate(w: World, metaIdle: bool): World {
    if w.host.AtGate? then w.(mem := Gated(w.mem, w.host.ids, metaIdle), host := Reconciling) else w
  }

  function HostReconcile(w: World): World {
    if w.host.Reconciling? then w.(host := if StartsWorker(w.mem) then Allocating else Monitoring) else w
  }

  function HostAllocate(w: World, ok: bool): World {
    if w.host.Allocating? then
      if ok then
        var n := Allocation(w.disk.counter, w.disk.store.log);
        w.(disk := w.disk.(counter := Next(n + 1)), host := Starting(n))
      else w.(host := StartFailed)
    else w
  }

  /** A failing write of the start record ends the tick with an exception, and cleanup follows. */
  function HostAppendStarted(w: World, ok: bool): World {
    if w.host.Starting? then
      if ok then w.(disk := LogStarted(w.disk, w.host.session), host := Spawning(w.host.session))
      else w.(host := Idle, cleaner := Waiting)
    else w
  }

  function HostSpawn(w: World, ok: bool): World {
    if w.host.Spawning? then
      if ok then w.(mem := SessionStarted(w.mem, w.host.session), host := Injecting)
      else w.(host := Aborting(w.host.session))
    else w
  }

  function HostAppendAborted(w: World, readable: bool): World {
    if w.host.Aborting? then
      w.(disk := LogEnded(w.disk, w.host.session, HostInternalError, readable), host := StartFailed)
    else w
  }

  function HostInject(w: World, ok: bool): World {
    if w.host.Injecting? then
      w.(mem := if ok then w.mem else w.mem.(workerInjectFailed := true), host := StartDone)
    else w
  }

  function HostStartDone(w: World): World {
    if w.host.StartDone? then w.(mem := StartCompleted(w.mem), host := Monitoring) else w
  }

  function HostStartFailed(w: World): World {
    if w.host.StartFailed? then w.(mem := w.mem.(wantWorkerStart := false), host := CapturePeeking) else w
  }

  function HostCapture(w: World): World {
    if w.host.Capturing? then w.(mem := FailureCaptured(w.mem, w.host.ids), host := Idle) else w
  }

  /** `ended` says whether the worker's turn is over (or a watchdog fired). */
  function HostMonitor(w: World, ended: bool): World {
    if w.host.Monitoring? then
      if w.mem.workerHandle.Some? && ended && !w.mem.workerFinalizing && w.mem.workerSessionSeq.Some? then
        w.(mem := w.mem.(workerFinalizing := true),
           host := FinClosing(Owner(w.mem.workerSessionSeq.value, w.mem.workerFinalizeEpoch, w.mem.workerInjectFailed)))
      else w.(host := Idle)
    else w
  }

  // ---- finalizeWorker ----

  predicate IsWatchdog(reason: Option<ExitReason>) {
    reason.Some? ==> reason.value in {WatchdogNoProgress, WatchdogToolLoop}
  }

  predicate IsIntent(reason: Option<ExitReason>) {
    reason.Some? ==> reason.value in {DeclareDone, DeclareDeferred}
  }

  function FinClose(w: World, ok: bool, watchdog: Option<ExitReason>, intent: Option<ExitReason>,
                     endReason: SessionEndReason): World {
    if w.host.FinClosing? && IsWatchdog(watchdog) && IsIntent(intent) then
      var o := w.host.owner;
      if !ok || o.epoch != w.mem.workerFinalizeEpoch then w.(host := FinDone(o))
      else
        var reason := FinalReason(o.injectFailed, watchdog, intent, endReason);
        w.(mem := HandleCleared(w.mem),
           host := if IsInternal(reason) then FinTail(o, reason) else FinEvaluating(o, reason))
    else w
  }

  function FinEvaluate(w: World): World {
    if w.host.FinEvaluating? then
      if w.host.owner.epoch != w.mem.workerFinalizeEpoch then w.(host := FinDone(w.host.owner))
      else w.(host := FinEnqueuing(w.host.owner, w.host.reason))
    else w
  }

  function FinEnqueue(w: World, ok: bool, key: Key): World {
    if w.host.FinEnqueuing? then
      w.(disk := SendEnd(w.disk, w.host.owner.session, w.host.reason, key, ok),
         host := FinEnqueued(w.host.owner, w.host.reason, ok))
    else w
  }

  function FinAnnounce(w: World): World {
    if w.host.FinEnqueued? then
      if w.host.owner.epoch != w.mem.workerFinalizeEpoch then w.(host := FinDone(w.host.owner))
      else w.(mem := EndAnnounced(w.mem, w.host.reason, w.host.enqueued), host := FinTail(w.host.owner, w.host.reason))
    else w
  }

  function FinLeaveTail(w: World): World {
    if w.host.FinTail? then
      w.(host := if w.host.owner.injectFailed then FinCapturePeeking(w.host.owner, w.host.reason)
                 else FinChecking(w.host.owner, w.host.reason))
    else w
  }

  function FinPeek(w: World, ok: bool): World {
    if w.host.FinCapturePeeking? then
      w.(host := FinCapturing(w.host.owner, w.host.reason, if ok then w.disk.unread else {}))
    else w
  }

  function FinCapture(w: World): World {
    if w.host.FinCapturing? then
      w.(mem := FailureCaptured(w.mem, w.host.ids), host := FinChecking(w.host.owner, w.host.reason))
    else w
  }

  function FinCheck(w: World): World {
    if w.host.FinChecking? then
      if w.host.owner.epoch != w.mem.workerFinalizeEpoch then w.(host := FinDone(w.host.owner))
      else w.(host := FinAppending(w.host.owner, w.host.reason))
    else w
  }

  function FinAppendEnded(w: World, readable: bool): World {
    if w.host.FinAppending? then
      w.(disk := LogEnded(w.disk, w.host.owner.session, w.host.reason, readable), host := FinDone(w.host.owner))
    else w
  }

  function FinRelease(w: World): World {
    if w.host.FinDone? then
      w.(mem := if w.host.owner.epoch == w.mem.workerFinalizeEpoch then w.mem.(workerFinalizing := false) else w.mem,
         host := Idle)
    else w
  }

  // ---- Meta's tools ----

  function StartWorker(w: World): World {
    if w.mem.workerHandle.None? then w.(mem := StartRequested(w.mem)) else w
  }

  function StopWorker(w: World, interrupt: bool, restart: bool): World {
    if w.mem.workerFinalizing then w
    else if w.mem.workerHandle.Some? then
      w.(mem := w.mem.(workerFinalizing := true),
         stops := w.stops + [StopCall(StopClosing, true, w.mem.workerSessionSeq, w.mem.workerFinalizeEpoch, interrupt, restart)])
    else
      w.(mem := StoppedNothing(w.mem, restart),
         stops := w.stops + [StopCall(StopResuming(Noop), false, w.mem.workerSessionSeq, w.mem.workerFinalizeEpoch, interrupt, restart)])
  }

  function At(w: World, i: nat, pc: StopPc): World
    requires i < |w.stops|
  {
    w.(stops := w.stops[i := w.stops[i].(pc := pc)])
  }

  function StopReason(t: StopCall): ExitReason {
    if t.interrupt then MetaInterrupt else MetaStop
  }

  function StopClose(w: World, i: nat, ok: bool): World {
    if i < |w.stops| && w.stops[i].pc.StopClosing? then
      if ok then At(w, i, StopResuming(Dispatched)).(mem := StoppedWorker(w.mem, w.stops[i].restart))
      else At(w, i, StopResuming(SoftKillFailed))
    else w
  }

  function StopResume(w: World, i: nat): World {
    if i < |w.stops| && w.stops[i].pc.StopResuming? then
      var t := w.stops[i];
      if t.epoch != w.mem.workerFinalizeEpoch then At(w, i, StopReleasing)
      else match t.pc.outcome
        case Noop => At(w, i, StopContinuing)
        case SoftKillFailed => At(w, i, StopReleasing)
        case Dispatched =>
          At(w, i, if t.session.Some? then StopEnqueuing else StopContinuing).(mem := HandleCleared(w.mem))
    else w
  }

  function StopEnqueue(w: World, i: nat, ok: bool, key: Key): World {
    if i < |w.stops| && w.stops[i].pc.StopEnqueuing? && w.stops[i].session.Some? then
      At(w, i, StopEnqueued).(disk := SendEnd(w.disk, w.stops[i].session.value, StopReason(w.stops[i]), key, ok))
    else w
  }

  function StopCheck(w: World, i: nat): World {
    if i < |w.stops| && w.stops[i].pc.StopEnqueued? then
      At(w, i, if w.stops[i].epoch == w.mem.workerFinalizeEpoch then StopAppending else StopContinuing)
    else w
  }

  function StopAppendEnded(w: World, i: nat, readable: bool): World {
    if i < |w.stops| && w.stops[i].pc.StopAppending? && w.stops[i].session.Some? then
      At(w, i, StopContinuing).(disk := LogEnded(w.disk, w.stops[i].session.value, StopReason(w.stops[i]), readable))
    else w
  }

  function StopContinue(w: World, i: nat): World {
    if i < |w.stops| && w.stops[i].pc.StopContinuing? then
      At(w, i, StopReleasing).(mem := Continued(w.mem, w.stops[i].interrupt, w.stops[i].restart))
    else w
  }

  function StopRelease(w: World, i: nat): World {
    if i < |w.stops| && w.stops[i].pc.StopReleasing? then
      At(w, i, StopDone).(mem := if w.stops[i].hadActiveHandle then w.mem.(workerFinalizing := false) else w.mem)
    else w
  }

  function Instruct(w: World, id: Id): World {
    if id in w.disk.instructions then w
    else w.(disk := w.disk.(instructions := w.disk.instructions + {id}, unread := w.disk.unread + {id}))
  }

  /** A worker's exit signal carries the number of its own session. */
  function SendSignal(w: World, signal: Signal): World {
    if signal.session in StartedSeqs(w.disk.store.log) then
      w.(disk := w.disk.(store := w.disk.store.(signals := w.disk.store.signals + [signal])))
    else w
  }

  // ---- cleanup ----

  function BeginCleanup(w: World): World {
    if w.cleaner.NotCleaning? && (w.host.Idle? || InFinalize(w.host)) then w.(cleaner := Waiting) else w
  }

  /** The wait ends when the guard is free or the time is up. */
  function TakeOver(w: World): World {
    if w.cleaner.Waiting? then w.(mem := TakenOver(w.mem), cleaner := Taken) else w
  }

  /** The handle, if any, is closed; then the retained session number decides about the record. */
  function CleanupScan(w: World): World {
    if w.cleaner.Taken? then
      w.(cleaner := if w.mem.workerSessionSeq.Some? then CleanAppending(w.mem.workerSessionSeq.value) else CleanFinishing)
    else w
  }

  function CleanupAppend(w: World, readable: bool): World {
    if w.cleaner.CleanAppending? then
      w.(disk := LogEnded(w.disk, w.cleaner.session, HostShutdown, readable), cleaner := CleanFinishing)
    else w
  }

  function CleanupFinish(w: World): World {
    if w.cleaner.CleanFinishing? then w.(mem := w.mem.(workerHandle := None), cleaner := Exited) else w
  }

  // ---- the process ----

  /** A corrupt event log is set aside before the repair. */
  function SetAside(store: Store, o: Outcome): Store {
    if o.corrupted then store.(log := []) else store
  }

  /** The store after only the first write of the repair. */
  function PartlyRepaired(store: Store, o: Outcome): Store {
    if SignalIsNewer(store) then
      WithEnd(store, LatestSignal(store.signals).value.session, SignalReason(LatestSignal(store.signals).value), o)
    else if EndIsLast(store) then RepairedStore(store, o)
    else if o.corrupted || Unmatched(store.log).None? then store
    else
      var n := Unmatched(store.log).value;
      var durable := EndFor(store.ends, n);
      WithEnded(store, n, if durable.Some? then durable.value.reason else SdkCrash, o)
  }

  function Boot(w: World, running: bool, o: Outcome): World {
    if Live(w) then w
    else
      var found := SetAside(w.disk.store, o);
      var store := if running then RepairedStore(found, o) else found;
      World(FromRecovery(if running then ResultOf(found, o) else NoRepair), w.disk.(store := store),
            Idle, [], NotCleaning, |store.log|, |store.ends|)
  }

  /** Like `Boot`, but the process dies between the two writes of the repair. */
  function BootCrashing(w: World, o: Outcome): World {
    if Live(w) then w else Crash(w).(disk := w.disk.(store := PartlyRepaired(SetAside(w.disk.store, o), o)))
  }

  function Crash(w: World): World {
    w.(host := Down, stops := [], cleaner := NotCleaning, mem := Blank)
  }

  // ---- runs ----

  datatype TickAction =
    | Ticks | Peeks(ok: bool) | PassesGate(metaIdle: bool) | Reconciles
    | Allocates(ok: bool) | WritesStarted(ok: bool) | Spawns(ok: bool) | WritesAborted(readable: bool)
    | Injects(ok: bool) | CompletesStart | AbandonsStart | Captures | Monitors(ended: bool)

  datatype FinalizeAction =
    | ClosesWorker(ok: bool, watchdog: Option<ExitReason>, intent: Option<ExitReason>, endReason: SessionEndReason)
    | Evaluates | EnqueuesEnd(ok: bool, key: Key) | AnnouncesEnd | LeavesTail
    | PeeksInbox(ok: bool) | CapturesBaseline | ChecksEpoch | WritesEnded(readable: bool) | ReleasesGuard

  datatype StopAction =
    | KillReturns(ok: bool) | Resumes | Enqueues(ok: bool, key: Key) | Checks | Appends(readable: bool)
    | Continues | Releases

  datatype CleanupAction = Begins | TakesOver | Scans | Backfills(readable: bool) | Finishes

  datatype Action =
    | TickDoes(tick: TickAction)
    | FinalizeDoes(fin: FinalizeAction)
    | StopDoes(i: nat, stop: StopAction)
    | CleanupDoes(cleanup: CleanupAction)
    | StartWorkerCalled
    | StopWorkerCalled(interrupt: bool, restart: bool)
    | Instructed(id: Id)
    | InstructionsRead(ids: set<Id>)
    | SignalSent(signal: Signal)
    | CounterSpoiled
    | Crashed
    | Booted(running: bool, outcome: Outcome)
    | BootCrashed(outcome: Outcome)

  function StepTick(w: World, a: TickAction): World {
    match a
    case Ticks => HostTick(w)
    case Peeks(ok) => HostPeek(w, ok)
    case PassesGate(metaIdle) => HostGate(w, metaIdle)
    case Reconciles => HostReconcile(w)
    case Allocates(ok) => HostAllocate(w, ok)
    case WritesStarted(ok) => HostAppendStarted(w, ok)
    case Spawns(ok) => HostSpawn(w, ok)
    case WritesAborted(readable) => HostAppendAborted(w, readable)
    case Injects(ok) => HostInject(w, ok)
    case CompletesStart => HostStartDone(w)
    case AbandonsStart => HostStartFailed(w)
    case Captures => HostCapture(w)
    case Monitors(ended) => HostMonitor(w, ended)
  }

  function StepFinalize(w: World, a: FinalizeAction): World {
    match a
    case ClosesWorker(ok, watchdog, intent, endReason) => FinClose(w, ok, watchdog, intent, endReason)
    case Evaluates => FinEvaluate(w)
    case EnqueuesEnd(ok, key) => FinEnqueue(w, ok, key)
    case AnnouncesEnd => FinAnnounce(w)
    case LeavesTail => FinLeaveTail(w)
    case PeeksInbox(ok) => FinPeek(w, ok)
    case CapturesBaseline => FinCapture(w)
    case ChecksEpoch => FinCheck(w)
    case WritesEnded(readable) => FinAppendEnded(w, readable)
    case ReleasesGuard => FinRelease(w)
  }

  function StepStop(w: World, i: nat, a: StopAction): World {
    match a
    case KillReturns(ok) => StopClose(w, i, ok)
    case Resumes => StopResume(w, i)
    case Enqueues(ok, key) => StopEnqueue(w, i, ok, key)
    case Checks => StopCheck(w, i)
    case Appends(readable) => StopAppendEnded(w, i, readable)
    case Continues => StopContinue(w, i)
    case Releases => StopRelease(w, i)
  }

  function StepCleanup(w: World, a: CleanupAction): World {
    match a
    case Begins => BeginCleanup(w)
    case TakesOver => TakeOver(w)
    case Scans => CleanupScan(w)
    case Backfills(readable) => CleanupAppend(w, readable)
    case Finishes => CleanupFinish(w)
  }

  /** Threads of the process run only while it lives; files change and processes start at any time. */
  function Step(w: World, a: Action): World {
    match a
    case TickDoes(t) => if Live(w) then StepTick(w, t) else w
    case FinalizeDoes(f) => if Live(w) then StepFinalize(w, f) else w
    case StopDoes(i, s) => if Live(w) then StepStop(w, i, s) else w
    case CleanupDoes(c) => if Live(w) then StepCleanup(w, c) else w
    case StartWorkerCalled => if Live(w) then StartWorker(w) else w
    case StopWorkerCalled(interrupt, restart) => if Live(w) then StopWorker(w, interrupt, restart) else w
    case Instructed(id) => Instruct(w, id)
    case InstructionsRead(ids) => w.(disk := w.disk.(unread := w.disk.unread - ids))
    case SignalSent(signal) => SendSignal(w, signal)
    case CounterSpoiled => w.(disk := w.disk.(counter := Invalid))
    case Crashed => Crash(w)
    case Booted(running, outcome) => Boot(w, running, outcome)
    case BootCrashed(outcome) => BootCrashing(w, outcome)
  }

  function Run(w: World, actions: seq<Action>): World {
    if actions == [] then w else Step(Run(w, actions[..|actions| - 1]), actions[|actions| - 1])
  }

  lemma {:induction false} RunConcat(w: World, a: seq<Action>, b: seq<Action>)
    ensures Run(w, a + b) == Run(Run(w, a), b)
  {
    if b == [] {
      assert a + b == a;
    } else {
      var n := |b| - 1;
      RunConcat(w, a, b[..n]);
      assert (a + b)[..|a + b| - 1] == a + b[..n];
    }
  }

  /** A new task: no files, no process. */
  const NewTask := World(Blank, Disk(Store([], [], []), Missing, {}, {}), Down, [], NotCleaning, 0, 0)
}
