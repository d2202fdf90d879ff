/** Which wait is on, and what ends it. */
module Waits {
  import opened Prelude
  import opened Sessions
  import opened Events
  import opened Recovery
  import opened Daemon
  import opened Lifecycle

  // ---- after a closeout ----

  /** Ends that Meta has to decide about: a watchdog fired, the worker declared its intent, or the runtime
      says that the session came to its own end. */
  predicate EndedByItself(watchdog: Option<ExitReason>, intent: Option<ExitReason>, endReason: SessionEndReason) {
    watchdog.Some? || intent.Some? || endReason in {SessionNaturalEnd, WorkerDeclaredDone, WorkerDeclaredDeferred}
  }

  /** Which of the two waits a closeout sets, from what it saw. */
  lemma CloseoutWaits(m: Memory, watchdog: Option<ExitReason>, intent: Option<ExitReason>, endReason: SessionEndReason,
                      unread: set<Id>)
    requires IsWatchdog(watchdog) && IsIntent(intent) && !m.workerInjectFailed
    requires !m.workerCompletionPending && !m.sessionEndPending
    ensures var after := FinalEffect(m, FinalReason(false, watchdog, intent, endReason), true, unread);
      && (after.workerCompletionPending <==> EndedByItself(watchdog, intent, endReason))
      && (after.sessionEndPending <==>
            !EndedByItself(watchdog, intent, endReason) && endReason in {FatalRuntimeError, SessionEndReason.Unknown})
      && after == m.(workerHandle := None, workerInjectFailed := false,
                     workerCompletionPending := after.workerCompletionPending, sessionEndPending := after.sessionEndPending)
  {
    var reason := FinalReason(false, watchdog, intent, endReason);
    CloseoutReason(watchdog, intent, endReason);
    if watchdog.None? && intent.None? {
      match endReason
      case SessionNaturalEnd =>
      case WorkerDeclaredDone =>
      case WorkerDeclaredDeferred =>
      case FatalRuntimeError =>
      case HostClose =>
      case HostCloseForced =>
      case Unknown =>
    }
  }

  /** The reason that is announced: the watchdog's, else the declared one, else what the runtime says. */
  lemma CloseoutReason(watchdog: Option<ExitReason>, intent: Option<ExitReason>, endReason: SessionEndReason)
    ensures watchdog.Some? ==> FinalReason(false, watchdog, intent, endReason) == watchdog.value
    ensures watchdog.None? && intent.Some? ==> FinalReason(false, watchdog, intent, endReason) == intent.value
    ensures FinalReason(false, None, None, SessionNaturalEnd) == NaturalCompletion
    ensures FinalReason(false, None, None, WorkerDeclaredDone) == DeclareDone
    ensures FinalReason(false, None, None, WorkerDeclaredDeferred) == DeclareDeferred
    ensures FinalReason(false, None, None, FatalRuntimeError) == SdkCrash
    ensures FinalReason(false, None, None, SessionEndReason.Unknown) == SdkCrash
    ensures FinalReason(false, None, None, HostClose) == HostShutdown
    ensures FinalReason(false, None, None, HostCloseForced) == HostShutdown
    ensures FinalReason(true, watchdog, intent, endReason) == HostInternalError
  {}

  /** No end is announced exactly if the first message failed, or the host itself closed the session. */
  lemma InternalIff(injectFailed: bool, watchdog: Option<ExitReason>, intent: Option<ExitReason>, endReason: SessionEndReason)
    requires IsWatchdog(watchdog) && IsIntent(intent)
    ensures IsInternal(FinalReason(injectFailed, watchdog, intent, endReason)) <==>
      injectFailed || (watchdog.None? && intent.None? && endReason in {HostClose, HostCloseForced})
  {
    match endReason
    case SessionNaturalEnd =>
    case WorkerDeclaredDone =>
    case WorkerDeclaredDeferred =>
    case FatalRuntimeError =>
    case HostClose =>
    case HostCloseForced =>
    case Unknown =>
  }

  /** If the end could not be announced, nothing is waited for but what was before. */
  lemma UnannouncedWaits(m: Memory, reason: ExitReason, unread: set<Id>)
    requires !m.workerInjectFailed
    ensures FinalEffect(m, reason, false, unread) == m.(workerHandle := None)
  {}

  /** After a failed first message the failed start is waited about, with the instructions seen so far. */
  lemma FailedMessageWaits(m: Memory, unread: set<Id>, enqueued: bool)
    requires m.workerInjectFailed
    ensures FinalEffect(m, HostInternalError, enqueued, unread) ==
      m.(workerHandle := None, workerInjectFailed := false, workerStartFailedPending := true, baseline := Some(unread))
  {}

  // ---- after a stop call ----

  /** All that a stop call changes, with a worker or without one. */
  lemma StopWaits(m: Memory, interrupt: bool, restart: bool)
    ensures var after := StopEffect(m, interrupt, restart);
      && !after.workerCompletionPending
      && (after.metaStopNoRestart <==> !interrupt && !restart)
      && (after.metaInterruptDefaultContinue <==> interrupt)
      && (after.sessionEndPending <==> m.workerHandle.Some? && m.sessionEndPending && (interrupt || !restart))
      && (after.wantWorkerStart <==> m.wantWorkerStart || (restart && !interrupt))
  {
    if interrupt {
    } else if restart {
    } else {
    }
  }

  lemma StopKeepsRest(m: Memory, interrupt: bool, restart: bool)
    ensures SameStart(m, StopEffect(m, interrupt, restart))
  {
    if interrupt {
    } else if restart {
    } else {
    }
  }

  /** Nothing about failed starts, the guard or the epoch has changed, and there is no worker. */
  predicate SameStart(m: Memory, after: Memory) {
    && after.workerHandle.None? && after.workerSessionSeq == m.workerSessionSeq
    && after.workerStartFailedPending == m.workerStartFailedPending && after.baseline == m.baseline
    && after.workerFinalizing == m.workerFinalizing && after.workerFinalizeEpoch == m.workerFinalizeEpoch
    && (m.workerHandle.None? ==> after.workerInjectFailed == m.workerInjectFailed)
  }

  // ---- the gate ----

  /** An instruction counts if it is not one that was there when the start failed. */
  predicate SomeCounts(m: Memory, ids: set<Id>) {
    exists id :: id in ids && (m.workerStartFailedPending && m.baseline.Some? ==> id !in m.baseline.value)
  }

  /** All that the gate does: a counted instruction ends every wait and asks for a worker; otherwise an
      interrupt is continued if Meta is idle; otherwise nothing happens. */
  lemma GateOpens(m: Memory, ids: set<Id>, idle: bool)
    ensures var after := Gated(m, ids, idle);
      if SomeCounts(m, ids) then
        after == m.(workerCompletionPending := false, sessionEndPending := false, metaStopNoRestart := false,
                    metaInterruptDefaultContinue := false, workerStartFailedPending := false, baseline := None,
                    wantWorkerStart := true)
      else if m.metaInterruptDefaultContinue && idle then
        after == m.(metaInterruptDefaultContinue := false, wantWorkerStart := true)
      else after == m
  {
    if IsTrigger(m, ids) {
      var id :| id in ids && (m.workerStartFailedPending && m.baseline.Some? ==> id !in m.baseline.value);
    }
  }

  /** While Meta is busy an interrupted worker is not replaced. */
  lemma InterruptWaitsForIdle(m: Memory)
    requires !m.wantWorkerStart
    ensures !StartsWorker(Gated(StopEffect(m, true, false), {}, false))
    ensures StartsWorker(Gated(StopEffect(m, true, false), {}, true))
  {
    StopWaits(m, true, false);
    StopKeepsRest(m, true, false);
    GateOpens(StopEffect(m, true, false), {}, false);
    GateOpens(StopEffect(m, true, false), {}, true);
  }

  // ---- starting ----

  /** A tick starts a worker if there is none, and either one is wished for or none was ever started and
      nothing is waited for. */
  lemma StartsIff(m: Memory)
    ensures StartsWorker(m) <==>
      m.workerHandle.None? && (m.wantWorkerStart || (
        && m.workerSessionSeq.None? && !m.workerCompletionPending && !m.sessionEndPending && !m.metaStopNoRestart
        && !m.metaInterruptDefaultContinue && !m.workerStartFailedPending))
  {}

  /** A start that went through leaves the worker and no wait; `start_worker` leaves the wish and no wait. */
  lemma StartWaits(m: Memory, n: nat)
    ensures StartCompleted(SessionStarted(m, n)) ==
      Blank.(workerHandle := Some(n), workerSessionSeq := Some(n), workerFinalizing := m.workerFinalizing,
             workerFinalizeEpoch := m.workerFinalizeEpoch)
    ensures StartRequested(m) ==
      Blank.(workerHandle := m.workerHandle, workerSessionSeq := m.workerSessionSeq, wantWorkerStart := true,
             workerInjectFailed := m.workerInjectFailed, workerFinalizing := m.workerFinalizing,
             workerFinalizeEpoch := m.workerFinalizeEpoch)
  {}

  // ---- intents ----

  /** Which calls carry an intent. */
  lemma IntentTable()
    ensures IntentOf(CalledDeclareDone) == Some(DeclareDone)
    ensures IntentOf(CalledEscalate(true)) == Some(DeclareDeferred)
    ensures IntentOf(CalledEscalate(false)) == None && IntentOf(CalledOther) == None
  {}
}
