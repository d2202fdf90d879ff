/** What a restarted host does: it is where the closeout that the crash cut short would have put it. */
module Restart {
  import opened Prelude
  import opened Events
  import opened Sessions
  import opened Recovery
  import opened RecoveryConverges
  import opened RecoveryExact
  import opened Daemon

  // ---- which end is restored ----

  /** Recovery takes the end `e` from the bus as the last word about a worker. */
  predicate Restores(store: Store, o: Outcome, e: End) {
    && !SignalIsNewer(store)
    && if EndIsLast(store) then LatestEnd(store.ends) == Some(e)
       else !o.corrupted && Unmatched(store.log).Some? && EndFor(store.ends, Unmatched(store.log).value) == Some(e)
  }

  /** A host with worker `n` running and nothing waited for. */
  function Running(n: nat): Memory {
    Blank.(workerHandle := Some(n), workerSessionSeq := Some(n))
  }

  lemma RunningIsStarted(n: nat)
    ensures Running(n) == StartCompleted(SessionStarted(Blank, n))
  {}

  /** A host that has lost worker `n` and nothing else. */
  function Alone(n: nat): Memory {
    Blank.(workerSessionSeq := Some(n))
  }

  // ---- where the host is after the restart ----

  /** A stop whose record was cut off: as after the undisturbed stop, and no worker is started by itself. */
  lemma RestartedAfterStop(store: Store, o: Outcome, e: End)
    requires Restores(store, o, e) && e.reason.MetaStop?
    ensures FromRecovery(ResultOf(store, o)) == StopEffect(Running(e.session), false, false)
    ensures FromRecovery(ResultOf(store, o)) == Alone(e.session).(metaStopNoRestart := true)
  {}

  /** The permission to restart is nowhere on disk: the restarted host is where an undisturbed stop would
      have left it exactly if there was none. */
  lemma RestartPermissionIsLost(store: Store, o: Outcome, e: End, restart: bool)
    requires Restores(store, o, e) && e.reason.MetaStop?
    ensures FromRecovery(ResultOf(store, o)) == StopEffect(Running(e.session), false, restart) <==> !restart
    ensures StartsWorker(StopEffect(Running(e.session), false, restart)) <==> restart
  {
    RestartedAfterStop(store, o, e);
    if restart { assert StopEffect(Running(e.session), false, true).wantWorkerStart; }
  }

  /** An interrupt: as after the undisturbed interrupt. */
  lemma RestartedAfterInterrupt(store: Store, o: Outcome, e: End)
    requires Restores(store, o, e) && e.reason.MetaInterrupt?
    ensures FromRecovery(ResultOf(store, o)) == StopEffect(Running(e.session), true, false)
    ensures FromRecovery(ResultOf(store, o)) == Alone(e.session).(metaInterruptDefaultContinue := true)
  {}

  /** A worker that ended by itself, by its own word or by a watchdog: as after the undisturbed closeout. */
  lemma RestartedAfterEnd(store: Store, o: Outcome, e: End)
    requires Restores(store, o, e)
    requires e.reason in {NaturalCompletion, DeclareDeferred, DeclareDone, WatchdogNoProgress, WatchdogToolLoop}
    ensures FromRecovery(ResultOf(store, o)) == FinalEffect(Running(e.session), e.reason, true, {})
    ensures FromRecovery(ResultOf(store, o)) == Alone(e.session).(workerCompletionPending := true)
  {}

  /** A crash: only the end is waited about. */
  lemma RestartedAfterCrash(store: Store, o: Outcome, e: End)
    requires Restores(store, o, e)
    requires e.reason in {SdkCrash, SubprocessCrash, HostInternalError, HostShutdown}
    ensures FromRecovery(ResultOf(store, o)) == Alone(e.session).(sessionEndPending := true)
    ensures e.reason in {SdkCrash, SubprocessCrash} ==>
      FromRecovery(ResultOf(store, o)) == FinalEffect(Running(e.session), e.reason, true, {})
  {}

  /** The same without an end on the bus: the newest unmatched worker has crashed. */
  lemma RestartedAfterUnreportedCrash(store: Store, o: Outcome)
    requires !SignalIsNewer(store) && !EndIsLast(store) && !o.corrupted && Unmatched(store.log).Some?
    requires EndFor(store.ends, Unmatched(store.log).value).None?
    ensures FromRecovery(ResultOf(store, o)) == Alone(Unmatched(store.log).value).(sessionEndPending := true)
  {}

  /** An exit signal that nobody answered yet is answered like the closeout would have. */
  lemma RestartedAfterSignal(store: Store, o: Outcome)
    requires SignalIsNewer(store) && o.enqueueOk
    ensures var s := LatestSignal(store.signals).value;
      && FromRecovery(ResultOf(store, o)) == Alone(s.session).(workerCompletionPending := true)
      && FromRecovery(ResultOf(store, o)) ==
           FinalEffect(Running(s.session), if s.kind.CompletionClaim? then DeclareDone else DeclareDeferred, true, {})
  {}

  /** Only after an interrupt the restarted host starts a worker by itself, once Meta is idle. */
  lemma OnlyInterruptContinues(store: Store, o: Outcome, e: End)
    requires Restores(store, o, e)
    ensures StartsWorker(Gated(FromRecovery(ResultOf(store, o)), {}, true)) <==> e.reason.MetaInterrupt?
    ensures !StartsWorker(Gated(FromRecovery(ResultOf(store, o)), {}, false))
  {
    match e.reason
    case MetaStop => RestartedAfterStop(store, o, e);
    case MetaInterrupt => RestartedAfterInterrupt(store, o, e);
    case SdkCrash => RestartedAfterCrash(store, o, e);
    case SubprocessCrash => RestartedAfterCrash(store, o, e);
    case HostInternalError => RestartedAfterCrash(store, o, e);
    case HostShutdown => RestartedAfterCrash(store, o, e);
    case _ => RestartedAfterEnd(store, o, e);
  }

  // ---- what the repair writes ----

  /** The reason of the end that a run enqueues: what the signal says, or a crash. */
  lemma EnqueuedReason(store: Store, o: Outcome)
    requires EnqueuedFor(store, o).Some?
    ensures o.enqueueOk
    ensures var after := RepairedStore(store, o).ends;
      && after[..|after| - 1] == store.ends
      && after[|after| - 1].key == o.key && !after[|after| - 1].failed && after[|after| - 1].readable
      && after[|after| - 1].reason ==
           (if !SignalIsNewer(store) then SdkCrash
            else if LatestSignal(store.signals).value.kind.CompletionClaim? then DeclareDone else DeclareDeferred)
  {}

  function ReasonOf(r: RepairResult): Option<ExitReason> {
    match r
    case NoRepair => None
    case SynthesizedEnd(_, reason) => Some(reason)
    case CrashPending(_, reason, _) => Some(reason)
  }

  /** The record that a run writes carries the worker and the reason that it answers with. */
  lemma RecordedReason(store: Store, o: Outcome)
    requires !o.corrupted && AnsweredBy(ResultOf(store, o)).Some?
    ensures var n, reason := AnsweredBy(ResultOf(store, o)).value, ReasonOf(ResultOf(store, o)).value;
      RepairedStore(store, o).log == AppendedOnce(store.log, WorkerEnded(n, reason), o.appendOk)
  {
    if !SignalIsNewer(store) && !EndIsLast(store) {
      var durable := EndFor(store.ends, Unmatched(store.log).value);
      assert durable.Some? ==> durable.value.session == Unmatched(store.log).value;
    }
  }

  /** A write that fails leaves its file alone, and only that. */
  lemma FailedWritesLeave(store: Store, o: Outcome)
    ensures !o.enqueueOk ==> RepairedStore(store, o).ends == store.ends
    ensures !o.appendOk ==> RepairedStore(store, o).log == store.log
    ensures RepairedStore(store, o.(appendOk := true)).ends == RepairedStore(store, o.(appendOk := false)).ends
    ensures RepairedStore(store, o.(enqueueOk := true)).log == RepairedStore(store, o.(enqueueOk := false)).log
  {}

  // ---- which signal and which end are the latest ----

  /** Later means created later, or at the same time with the greater number. */
  predicate IsLater(a: Key, b: Key) {
    a.createdAt > b.createdAt || (a.createdAt == b.createdAt && a.stateSeq > b.stateSeq)
  }

  /** A completion claim or a deferred escalation that did not fail and can be read. */
  predicate SignalsExit(s: Signal) {
    !s.failed && s.readable && s.kind in {CompletionClaim, Escalation(true)}
  }

  lemma LatestSignalIs(signals: seq<Signal>)
    ensures LatestSignal(signals).None? <==> forall s :: s in signals ==> !SignalsExit(s)
    ensures LatestSignal(signals).Some? ==>
      && LatestSignal(signals).value in signals && SignalsExit(LatestSignal(signals).value)
      && forall s :: s in signals && SignalsExit(s) ==> !IsLater(s.key, LatestSignal(signals).value.key)
  {
    forall s | s in signals ensures SignalsExit(s) <==> IsActiveSignal(s) {
      match s.kind
      case CompletionClaim =>
      case Escalation(_) =>
    }
  }

  lemma NewestEndIs(ends: seq<End>)
    ensures NewestEnd(ends).None? <==> forall e :: e in ends ==> e.failed
    ensures NewestEnd(ends).Some? ==>
      && NewestEnd(ends).value in ends && !NewestEnd(ends).value.failed
      && forall e :: e in ends && !e.failed ==> !IsLater(e.key, NewestEnd(ends).value.key)
  {}

  lemma EndForIs(ends: seq<End>, n: nat)
    ensures EndFor(ends, n).None? <==> forall e :: e in ends && !e.failed && e.readable ==> e.session != n
    ensures EndFor(ends, n).Some? ==>
      var best := EndFor(ends, n).value;
      && best in ends && !best.failed && best.readable && best.session == n
      && forall e :: e in ends && !e.failed && e.readable && e.session == n ==> !IsLater(e.key, best.key)
  {
    forall e | e in ends ensures IsEndOf(e, n) <==> !e.failed && e.readable && e.session == n {}
  }
}
