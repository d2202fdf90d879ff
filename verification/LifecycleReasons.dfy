/** The reasons that the threads announce and record. */
module LifecycleReasons {
  import opened Prelude
  import opened Events
  import opened Sessions
  import opened Recovery
  import opened Daemon
  import opened Lifecycle
  import opened LifecycleMoves

  /** A stop call announces what it was called for ... */
  lemma StopAnnounces(w: World, i: nat, key: Key)
    requires i < |w.stops| && w.stops[i].pc.StopEnqueuing? && w.stops[i].session.Some?
    ensures StepStop(w, i, Enqueues(true, key)).disk.store.ends == w.disk.store.ends +
      [End(key, w.stops[i].session.value, if w.stops[i].interrupt then MetaInterrupt else MetaStop, false, true)]
    ensures StepStop(w, i, Enqueues(false, key)).disk == w.disk
  {}

  /** ... and records the same. */
  lemma StopRecords(w: World, i: nat, readable: bool)
    requires i < |w.stops| && w.stops[i].pc.StopAppending? && w.stops[i].session.Some?
    ensures StepStop(w, i, Appends(readable)).disk.store.log ==
      AppendedOnce(w.disk.store.log,
                   WorkerEnded(w.stops[i].session.value, if w.stops[i].interrupt then MetaInterrupt else MetaStop), readable)
  {}

  /** What `finalizeWorker` found out when it closed the worker ... */
  lemma FinalizeFindsOut(w: World, watchdog: Option<ExitReason>, intent: Option<ExitReason>, endReason: SessionEndReason)
    requires w.host.FinClosing? && w.host.owner.epoch == w.mem.workerFinalizeEpoch && IsWatchdog(watchdog) && IsIntent(intent)
    ensures var after := StepFinalize(w, ClosesWorker(true, watchdog, intent, endReason)).host;
      && after.owner == w.host.owner
      && after.reason == FinalReason(w.host.owner.injectFailed, watchdog, intent, endReason)
      && (after.FinTail? <==> IsInternal(after.reason)) && (after.FinEvaluating? <==> !IsInternal(after.reason))
  {}

  /** ... is what it announces ... */
  lemma FinalizeAnnounces(w: World, key: Key)
    requires w.host.FinEnqueuing?
    ensures StepFinalize(w, EnqueuesEnd(true, key)).disk.store.ends ==
      w.disk.store.ends + [End(key, w.host.owner.session, w.host.reason, false, true)]
    ensures StepFinalize(w, EnqueuesEnd(false, key)).disk == w.disk
  {}

  /** ... and records; in between it keeps the reason. */
  lemma FinalizeRecords(w: World, readable: bool)
    requires w.host.FinAppending?
    ensures StepFinalize(w, WritesEnded(readable)).disk.store.log ==
      AppendedOnce(w.disk.store.log, WorkerEnded(w.host.owner.session, w.host.reason), readable)
  {}

  predicate HasReason(h: HostPc) {
    h.FinEvaluating? || h.FinEnqueuing? || h.FinEnqueued? || h.FinTail? || h.FinCapturePeeking? || h.FinCapturing?
    || h.FinChecking? || h.FinAppending?
  }

  lemma FinalizeKeepsReason(w: World, a: FinalizeAction)
    requires HasReason(w.host) && HasReason(StepFinalize(w, a).host)
    ensures StepFinalize(w, a).host.reason == w.host.reason && StepFinalize(w, a).host.owner == w.host.owner
  {
    FinMoves(w, a);
  }

  /** Cleanup records a shutdown, and a start that was given up an internal error. */
  lemma OtherRecords(w: World, readable: bool)
    ensures var log := w.disk.store.log;
      && (w.cleaner.CleanAppending? ==>
            StepCleanup(w, Backfills(readable)).disk.store.log ==
              AppendedOnce(log, WorkerEnded(w.cleaner.session, HostShutdown), readable))
      && (w.host.Aborting? ==>
            StepTick(w, WritesAborted(readable)).disk.store.log ==
              AppendedOnce(log, WorkerEnded(w.host.session, HostInternalError), readable))
  {}

  // ---- the end of a process ----

  /** In every run a process that has cleaned up holds no worker any more. */
  lemma {:induction false} CleanupReleases(actions: seq<Action>)
    ensures Run(NewTask, actions).cleaner.Exited? ==> Run(NewTask, actions).mem.workerHandle.None?
  {
    if actions != [] {
      var n := |actions| - 1;
      CleanupReleases(actions[..n]);
      StepReleases(Run(NewTask, actions[..n]), actions[n]);
    }
  }

  lemma StepReleases(w: World, a: Action)
    requires w.cleaner.Exited? ==> w.mem.workerHandle.None?
    ensures Step(w, a).cleaner.Exited? ==> Step(w, a).mem.workerHandle.None?
  {
    if Live(w) {
      match a
      case TickDoes(t) => TickMoves(w, t);
      case FinalizeDoes(f) => FinMoves(w, f);
      case StopDoes(i, s) => StopMoves(w, i, s);
      case StopWorkerCalled(interrupt, restart) => CallMoves(w, interrupt, restart);
      case StartWorkerCalled => StartCallMoves(w);
      case SignalSent(signal) => SignalMoves(w, signal);
      case CleanupDoes(c) => CleanupStepReleases(w, c);
      case _ =>
    }
  }

  lemma CleanupStepReleases(w: World, c: CleanupAction)
    requires Live(w)
    ensures StepCleanup(w, c).cleaner.Exited? ==> StepCleanup(w, c).mem.workerHandle.None?
  {
    match c
    case Begins =>
    case TakesOver =>
    case Scans =>
    case Backfills(_) =>
    case Finishes =>
  }
}
