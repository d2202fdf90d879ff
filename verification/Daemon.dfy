/** The host's in-memory worker state and what each await-to-await segment does to it
    (`src/host/daemon.ts`, `src/host/agent_control.ts`). */
module Daemon {
  import opened Prelude
  import opened Events
  import opened Sessions
  import opened Recovery

  /** An envelope id. */
  type Id = nat

  /** The fields of `DaemonState` (and of its `orchestration` part) that decide about workers. The
      handle is the number of the active worker; `workerSessionSeq` outlives it. */
  datatype Memory = Memory(
    workerHandle: Option<nat>,
    workerSessionSeq: Option<nat>,
    wantWorkerStart: bool,
    workerCompletionPending: bool,
    sessionEndPending: bool,
    metaStopNoRestart: bool,
    metaInterruptDefaultContinue: bool,
    workerStartFailedPending: bool,
    baseline: Option<set<Id>>,
    workerInjectFailed: bool,
    workerFinalizing: bool,
    workerFinalizeEpoch: nat)

  /** One of the four flags that say "Meta must react first". */
  predicate AwaitsMeta(m: Memory) {
    m.workerCompletionPending || m.sessionEndPending || m.metaStopNoRestart || m.metaInterruptDefaultContinue
  }

  /** The inbox gate looks at the worker's inbox in these states. */
  predicate GateIsOpen(m: Memory) {
    AwaitsMeta(m) || m.workerStartFailedPending
  }

  predicate FirstStart(m: Memory) {
    m.workerSessionSeq.None? && !AwaitsMeta(m) && !m.workerStartFailedPending
  }

  /** The condition under which a tick starts a worker. */
  predicate StartsWorker(m: Memory) {
    m.workerHandle.None? && (m.wantWorkerStart || FirstStart(m))
  }

  /** Every waiting state is left: the four flags and the state of a failed start. */
  function WaitingLeft(m: Memory, want: bool): Memory {
    m.(workerCompletionPending := false, sessionEndPending := false,
       metaStopNoRestart := false, metaInterruptDefaultContinue := false,
       workerStartFailedPending := false, baseline := None, wantWorkerStart := want)
  }

  // ---- Meta's tools ----

  function StartRequested(m: Memory): Memory {
    WaitingLeft(m, true)
  }

  /** `stop_worker` without an active worker. */
  function StoppedNothing(m: Memory, restart: bool): Memory {
    m.(workerCompletionPending := false, sessionEndPending := false,
       metaInterruptDefaultContinue := false, metaStopNoRestart := !restart)
  }

  /** `stop_worker` after the worker was closed: `sessionEndPending` is left alone. */
  function StoppedWorker(m: Memory, restart: bool): Memory {
    m.(workerCompletionPending := false, metaInterruptDefaultContinue := false, metaStopNoRestart := !restart)
  }

  /** The continuation that a successful stop leads to. */
  function Continued(m: Memory, interrupt: bool, restart: bool): Memory {
    if interrupt then m.(metaStopNoRestart := false, metaInterruptDefaultContinue := true)
    else if restart then m.(sessionEndPending := false, wantWorkerStart := true)
    else m
  }

  function HandleCleared(m: Memory): Memory {
    m.(workerHandle := None, workerInjectFailed := false)
  }

  // ---- the tick ----

  /** Outside the failed-start state any unread instruction counts, in it only a new one. */
  predicate IsTrigger(m: Memory, instructions: set<Id>) {
    if m.workerStartFailedPending && m.baseline.Some?
    then exists id :: id in instructions && id !in m.baseline.value
    else instructions != {}
  }

  function Gated(m: Memory, instructions: set<Id>, metaIdle: bool): Memory {
    if IsTrigger(m, instructions) then WaitingLeft(m, true)
    else if m.metaInterruptDefaultContinue && metaIdle
    then m.(metaInterruptDefaultContinue := false, wantWorkerStart := true)
    else m
  }

  function SessionStarted(m: Memory, session: nat): Memory {
    m.(workerHandle := Some(session), workerSessionSeq := Some(session), workerInjectFailed := false)
  }

  function StartCompleted(m: Memory): Memory {
    WaitingLeft(m, false)
  }

  function FailureCaptured(m: Memory, instructions: set<Id>): Memory {
    m.(workerStartFailedPending := true, baseline := Some(instructions))
  }

  // ---- closing a worker ----

  /** Why `finalizeWorker` says that a closed worker ended. */
  function FinalReason(injectFailed: bool, watchdog: Option<ExitReason>, intent: Option<ExitReason>,
                       endReason: SessionEndReason): ExitReason {
    if injectFailed then HostInternalError
    else if watchdog.Some? then watchdog.value
    else if intent.Some? then intent.value
    else MapSessionEndReason(endReason)
  }

  /** After the `worker_session_end` envelope was (or was not) written. */
  function EndAnnounced(m: Memory, reason: ExitReason, enqueued: bool): Memory {
    if !enqueued then m
    else if IsActiveExit(reason) then m.(workerCompletionPending := true)
    else m.(sessionEndPending := true)
  }

  /** The takeover by cleanup: on a timeout the epoch is bumped, and the guard is held from now on. */
  function TakenOver(m: Memory): Memory {
    m.(workerFinalizeEpoch := m.workerFinalizeEpoch + (if m.workerFinalizing then 1 else 0),
       workerFinalizing := true)
  }

  // ---- startup ----

  const Blank := Memory(None, None, false, false, false, false, false, false, None, false, false, 0)

  function FromRecovery(r: RepairResult): Memory {
    match r
    case NoRepair => Blank
    case SynthesizedEnd(n, _) => Blank.(workerCompletionPending := true, workerSessionSeq := Some(n))
    case CrashPending(n, _, wait) =>
      var m := Blank.(workerSessionSeq := Some(n));
      match wait
      case SessionEndPending => m.(sessionEndPending := true)
      case MetaInterruptDefaultContinue => m.(metaInterruptDefaultContinue := true)
      case MetaStopNoRestart => m.(metaStopNoRestart := true)
  }

  function IdSet(ids: seq<Id>): set<Id> {
    set id | id in ids
  }

  class DaemonState {
    var workerHandle: Option<nat>
    var workerSessionSeq: Option<nat>
    var wantWorkerStart: bool
    var workerCompletionPending: bool
    var sessionEndPending: bool
    var metaStopNoRestart: bool
    var metaInterruptDefaultContinue: bool
    var workerStartFailedPending: bool
    var baseline: Option<set<Id>>
    var workerInjectFailed: bool
    var workerFinalizing: bool
    var workerFinalizeEpoch: nat

    ghost function View(): Memory
      reads this
    {
      Memory(workerHandle, workerSessionSeq, wantWorkerStart, workerCompletionPending, sessionEndPending,
             metaStopNoRestart, metaInterruptDefaultContinue, workerStartFailedPending, baseline,
             workerInjectFailed, workerFinalizing, workerFinalizeEpoch)
    }

    /** A new process, with the waiting state that recovery found. */
    constructor (r: RepairResult)
      ensures View() == FromRecovery(r)
    {
      workerHandle, workerSessionSeq, wantWorkerStart := None, None, false;
      workerCompletionPending, sessionEndPending := false, false;
      metaStopNoRestart, metaInterruptDefaultContinue := false, false;
      workerStartFailedPending, baseline, workerInjectFailed := false, None, false;
      workerFinalizing, workerFinalizeEpoch := false, 0;
      new;
      match r {
        case NoRepair =>
        case SynthesizedEnd(n, _) =>
          workerCompletionPending := true;
          workerSessionSeq := Some(n);
        case CrashPending(n, _, wait) =>
          if wait.MetaInterruptDefaultContinue? { metaInterruptDefaultContinue := true; }
          else if wait.MetaStopNoRestart? { metaStopNoRestart := true; }
          else { sessionEndPending := true; }
          workerSessionSeq := Some(n);
      }
    }

    method RequestWorkerStart()
      modifies this
      ensures View() == StartRequested(old(View()))
      ensures !GateIsOpen(View()) && (workerHandle.None? ==> StartsWorker(View()))
    {
      workerCompletionPending := false;
      metaStopNoRestart := false;
      sessionEndPending := false;
      metaInterruptDefaultContinue := false;
      wantWorkerStart := true;
      workerStartFailedPending := false;
      baseline := None;
    }

    /** Entry of the wrapped `stopWorker`, up to its first await. While another closeout is under way
        the call does nothing; with a worker it becomes the owner of the closeout; without one only
        the flags change. */
    method EnterStop(restart: bool) returns (noop: bool, session: Option<nat>, hadActiveHandle: bool, epoch: nat)
      modifies this
      ensures noop <==> old(workerFinalizing)
      ensures noop ==> View() == old(View())
      ensures !noop ==> session == old(workerSessionSeq) && epoch == old(workerFinalizeEpoch)
      ensures !noop ==> hadActiveHandle == old(workerHandle).Some?
      ensures !noop && hadActiveHandle ==> View() == old(View()).(workerFinalizing := true)
      ensures !noop && !hadActiveHandle ==> View() == StoppedNothing(old(View()), restart)
    {
      if workerFinalizing { return true, workerSessionSeq, false, workerFinalizeEpoch; }
      session, hadActiveHandle, epoch, noop := workerSessionSeq, workerHandle.Some?, workerFinalizeEpoch, false;
      if hadActiveHandle {
        workerFinalizing := true;
      } else {
        workerCompletionPending := false;
        sessionEndPending := false;
        metaInterruptDefaultContinue := false;
        metaStopNoRestart := !restart;
      }
    }

    method AfterStopClosed(restart: bool)
      modifies this
      ensures View() == StoppedWorker(old(View()), restart)
    {
      workerCompletionPending := false;
      metaInterruptDefaultContinue := false;
      metaStopNoRestart := !restart;
    }

    method ClearHandle()
      modifies this
      ensures View() == HandleCleared(old(View()))
    {
      workerHandle := None;
      workerInjectFailed := false;
    }

    method ContinueAfterStop(interrupt: bool, restart: bool)
      modifies this
      ensures View() == Continued(old(View()), interrupt, restart)
      ensures interrupt ==> AwaitsMeta(View())
      ensures !interrupt && restart && workerHandle.None? ==> StartsWorker(View())
    {
      if interrupt {
        metaStopNoRestart := false;
        metaInterruptDefaultContinue := true;
      } else if restart {
        sessionEndPending := false;
        wantWorkerStart := true;
      }
    }

    /** The inbox gate, after the peek: `unread` holds the ids of the unread instructions. */
    method ReconcileWorkerCompletionPending(unread: seq<Id>, metaIdle: bool)
      modifies this
      ensures View() == Gated(old(View()), IdSet(unread), metaIdle)
    {
      var triggering := false;
      if workerStartFailedPending && baseline.Some? {
        for i := 0 to |unread|
          invariant triggering <==> exists j :: 0 <= j < i && unread[j] !in baseline.value
        {
          if unread[i] !in baseline.value { triggering := true; }
        }
      } else {
        triggering := |unread| > 0;
      }
      assert triggering <==> IsTrigger(View(), IdSet(unread)) by {
        if |unread| > 0 { assert unread[0] in IdSet(unread); }
      }
      if triggering {
        workerCompletionPending := false;
        sessionEndPending := false;
        metaStopNoRestart := false;
        metaInterruptDefaultContinue := false;
        workerStartFailedPending := false;
        baseline := None;
        wantWorkerStart := true;
        return;
      }
      if metaInterruptDefaultContinue && metaIdle {
        metaInterruptDefaultContinue := false;
        wantWorkerStart := true;
      }
    }

    method OnSessionStarted(session: nat)
      modifies this
      ensures View() == SessionStarted(old(View()), session)
    {
      workerHandle := Some(session);
      workerSessionSeq := Some(session);
      workerInjectFailed := false;
    }

    method OnStartCompleted()
      modifies this
      ensures View() == StartCompleted(old(View()))
    {
      wantWorkerStart := false;
      workerStartFailedPending := false;
      baseline := None;
      sessionEndPending := false;
      metaInterruptDefaultContinue := false;
      workerCompletionPending := false;
      metaStopNoRestart := false;
    }

    method CaptureWorkerStartFailedBaseline(unread: seq<Id>)
      modifies this
      ensures View() == FailureCaptured(old(View()), IdSet(unread))
      ensures forall later: set<Id> :: IsTrigger(View(), later) <==> exists id :: id in later && id !in unread
    {
      workerStartFailedPending := true;
      baseline := Some(IdSet(unread));
    }

    /** Entry of `finalizeWorker`, up to the close: a second closeout never starts. */
    method EnterFinalize() returns (entered: bool, epoch: nat)
      modifies this
      ensures entered <==> !old(workerFinalizing) && old(workerHandle).Some? && old(workerSessionSeq).Some?
      ensures entered ==> epoch == old(workerFinalizeEpoch) && View() == old(View()).(workerFinalizing := true)
      ensures !entered ==> View() == if old(workerFinalizing) then old(View()) else HandleCleared(old(View()))
    {
      if workerFinalizing { return false, workerFinalizeEpoch; }
      if workerHandle.None? || workerSessionSeq.None? {
        workerHandle := None;
        workerInjectFailed := false;
        return false, workerFinalizeEpoch;
      }
      workerFinalizing := true;
      return true, workerFinalizeEpoch;
    }

    method AfterEndEnqueued(reason: ExitReason, enqueued: bool)
      modifies this
      ensures View() == EndAnnounced(old(View()), reason, enqueued)
    {
      if IsActiveExit(reason) && enqueued {
        workerCompletionPending := true;
      } else if enqueued {
        sessionEndPending := true;
      }
    }

    /** The `finally` of `finalizeWorker`: a superseded owner leaves the guard alone. */
    method LeaveFinalize(epoch: nat)
      modifies this
      ensures View() == if epoch == old(workerFinalizeEpoch) then old(View()).(workerFinalizing := false) else old(View())
      ensures epoch != workerFinalizeEpoch ==> workerFinalizing == old(workerFinalizing)
    {
      if workerFinalizeEpoch == epoch { workerFinalizing := false; }
    }

    /** The `finally` of `stopWorker`: it compares no epoch. */
    method LeaveStop(hadActiveHandle: bool)
      modifies this
      ensures View() == if hadActiveHandle then old(View()).(workerFinalizing := false) else old(View())
      ensures hadActiveHandle ==> !workerFinalizing
    {
      if hadActiveHandle { workerFinalizing := false; }
    }

    /** `cleanupAndExit` after its wait; `timedOut` is the guard as the wait left it. */
    method TakeOverCloseout() returns (timedOut: bool)
      modifies this
      ensures timedOut == old(workerFinalizing) && View() == TakenOver(old(View()))
      ensures workerFinalizing && (timedOut ==> workerFinalizeEpoch > old(workerFinalizeEpoch))
    {
      timedOut := workerFinalizing;
      if timedOut { workerFinalizeEpoch := workerFinalizeEpoch + 1; }
      workerFinalizing := true;
    }

    /** The wrapped `stopWorker` with nothing in between its parts; `closes` says that closing worked. */
    method StopWorker(interrupt: bool, restart: bool, closes: bool) returns (noop: bool)
      modifies this
      ensures noop <==> old(workerFinalizing)
      ensures View() == if noop || (old(workerHandle).Some? && !closes) then old(View())
                        else StopEffect(old(View()), interrupt, restart)
    {
      ghost var m := View();
      var session, hadActiveHandle, epoch;
      noop, session, hadActiveHandle, epoch := EnterStop(restart);
      if noop { return; }
      if hadActiveHandle && !closes {
        LeaveStop(hadActiveHandle);
        ReleaseUndoesGuard(m);
        return;
      }
      if hadActiveHandle {
        assert View() == Guarded(m);
        SettleStop(restart);
        StoppingIgnoresGuard(m, restart);
      }
      ContinueAfterStop(interrupt, restart);
      ContinuingIgnoresGuard(HandleCleared(StoppedWorker(m, restart)), interrupt, restart);
      ContinuingIgnoresGuard(StoppedNothing(m, restart), interrupt, restart);
      ReleaseUndoesGuard(StopEffect(m, interrupt, restart));
      LeaveStop(hadActiveHandle);
    }

    /** What a stop call does once the worker is closed. */
    method SettleStop(restart: bool)
      modifies this
      ensures View() == HandleCleared(StoppedWorker(old(View()), restart))
    {
      AfterStopClosed(restart);
      ClearHandle();
    }

    /** What `finalizeWorker` does once the worker is closed. */
    method Settle(reason: ExitReason, enqueued: bool, unread: seq<Id>)
      modifies this
      ensures View() == FinalEffect(old(View()), reason, enqueued, IdSet(unread))
    {
      var injectFailed := workerInjectFailed;
      ClearHandle();
      if !IsInternal(reason) { AfterEndEnqueued(reason, enqueued); }
      if injectFailed { CaptureWorkerStartFailedBaseline(unread); }
    }

    /** `finalizeWorker` with nothing in between its parts. */
    method FinalizeWorker(closes: bool, reason: ExitReason, enqueued: bool, unread: seq<Id>) returns (entered: bool)
      requires workerHandle.Some? && workerSessionSeq.Some?
      modifies this
      ensures entered <==> !old(workerFinalizing)
      ensures View() == if entered && closes then FinalEffect(old(View()), reason, enqueued, IdSet(unread)) else old(View())
    {
      ghost var m := View();
      var epoch;
      entered, epoch := EnterFinalize();
      if !entered { return; }
      assert View() == Guarded(m);
      ghost var after := m;
      if closes {
        Settle(reason, enqueued, unread);
        after := FinalEffect(m, reason, enqueued, IdSet(unread));
        SettlingIgnoresGuard(m, reason, enqueued, IdSet(unread));
      }
      ReleaseUndoesGuard(after);
      LeaveFinalize(epoch);
      assert View() == Released(Guarded(after));
    }
  }

  function Guarded(m: Memory): Memory {
    m.(workerFinalizing := true)
  }

  function Released(m: Memory): Memory {
    m.(workerFinalizing := false)
  }

  predicate SameGuard(m: Memory, after: Memory) {
    after.workerFinalizing == m.workerFinalizing && after.workerFinalizeEpoch == m.workerFinalizeEpoch
  }

  lemma ClearingIgnoresGuard(m: Memory)
    ensures HandleCleared(Guarded(m)) == Guarded(HandleCleared(m)) && SameGuard(m, HandleCleared(m))
  {}

  lemma AnnouncingIgnoresGuard(m: Memory, reason: ExitReason, enqueued: bool)
    ensures EndAnnounced(Guarded(m), reason, enqueued) == Guarded(EndAnnounced(m, reason, enqueued))
    ensures SameGuard(m, EndAnnounced(m, reason, enqueued))
  {
    if enqueued && IsActiveExit(reason) {} else {}
  }

  lemma CapturingIgnoresGuard(m: Memory, ids: set<Id>)
    ensures FailureCaptured(Guarded(m), ids) == Guarded(FailureCaptured(m, ids)) && SameGuard(m, FailureCaptured(m, ids))
  {}

  lemma StoppingIgnoresGuard(m: Memory, restart: bool)
    ensures HandleCleared(StoppedWorker(Guarded(m), restart)) == Guarded(HandleCleared(StoppedWorker(m, restart)))
    ensures SameGuard(m, HandleCleared(StoppedWorker(m, restart))) && SameGuard(m, StoppedNothing(m, restart))
  {}

  lemma ContinuingIgnoresGuard(m: Memory, interrupt: bool, restart: bool)
    ensures Continued(Guarded(m), interrupt, restart) == Guarded(Continued(m, interrupt, restart))
    ensures SameGuard(m, Continued(m, interrupt, restart))
  {}

  /** The guard plays no part in what `finalizeWorker` does in between. */
  lemma SettlingIgnoresGuard(m: Memory, reason: ExitReason, enqueued: bool, unread: set<Id>)
    ensures FinalEffect(Guarded(m), reason, enqueued, unread) == Guarded(FinalEffect(m, reason, enqueued, unread))
    ensures SameGuard(m, FinalEffect(m, reason, enqueued, unread))
  {
    ClearingIgnoresGuard(m);
    var cleared := HandleCleared(m);
    AnnouncingIgnoresGuard(cleared, reason, enqueued);
    CapturingIgnoresGuard(if IsInternal(reason) then cleared else EndAnnounced(cleared, reason, enqueued), unread);
  }

  lemma ReleaseUndoesGuard(m: Memory)
    ensures !m.workerFinalizing ==> Released(Guarded(m)) == m
    ensures Guarded(m).workerFinalizeEpoch == m.workerFinalizeEpoch
  {}

  /** What an undisturbed stop call leaves behind. */
  function StopEffect(m: Memory, interrupt: bool, restart: bool): Memory {
    Continued(if m.workerHandle.Some? then HandleCleared(StoppedWorker(m, restart)) else StoppedNothing(m, restart),
              interrupt, restart)
  }

  /** What an undisturbed `finalizeWorker` leaves behind. */
  function FinalEffect(m: Memory, reason: ExitReason, enqueued: bool, unread: set<Id>): Memory {
    var cleared := HandleCleared(m);
    var announced := if IsInternal(reason) then cleared else EndAnnounced(cleared, reason, enqueued);
    if m.workerInjectFailed then FailureCaptured(announced, unread) else announced
  }

  /** An interrupted worker is replaced as soon as Meta is idle ... */
  lemma InterruptContinues(m: Memory, restart: bool)
    ensures var after := StopEffect(m, true, restart);
      && after.workerHandle.None? && after.workerSessionSeq == m.workerSessionSeq
      && forall ids :: StartsWorker(Gated(after, ids, true))
  {
    var after := StopEffect(m, true, restart);
    assert after.workerHandle.None? && after.metaInterruptDefaultContinue;
  }

  /** ... a restarted one at once ... */
  lemma RestartContinues(m: Memory)
    ensures var after := StopEffect(m, false, true);
      after.workerHandle.None? && after.workerSessionSeq == m.workerSessionSeq && StartsWorker(after)
  {}

  /** ... and a stopped one not before an instruction arrives. */
  lemma StopStays(m: Memory)
    requires !m.wantWorkerStart
    ensures var after := StopEffect(m, false, false);
      forall ids, idle :: StartsWorker(Gated(after, ids, idle)) <==> IsTrigger(after, ids)
  {
    var after := StopEffect(m, false, false);
    assert after.metaStopNoRestart && !after.metaInterruptDefaultContinue && !after.wantWorkerStart;
  }

  /** What is announced, or was a failed start, is waited for: no worker is started before an
      instruction arrives, and after a failed start before a new one does. */
  lemma FinalizeSettles(m: Memory, reason: ExitReason, enqueued: bool, unread: set<Id>)
    requires !m.wantWorkerStart && !m.metaInterruptDefaultContinue && m.workerSessionSeq.Some?
    requires m.workerInjectFailed || (enqueued && !IsInternal(reason))
    ensures var after := FinalEffect(m, reason, enqueued, unread);
      && after.workerHandle.None? && GateIsOpen(after)
      && (forall ids, idle :: StartsWorker(Gated(after, ids, idle)) <==> IsTrigger(after, ids))
      && (m.workerInjectFailed ==> forall ids :: IsTrigger(after, ids) <==> exists id :: id in ids && id !in unread)
  {}

  /** A worker that was started and never ended before the restart is not silently replaced by the
      first tick, unless its exit signal was found and the envelope for it could not be written. */
  lemma CrashedWorkerIsNotReplaced(store: Store, o: Outcome)
    requires !o.corrupted && Unmatched(store.log).Some?
    ensures StartsWorker(FromRecovery(ResultOf(store, o))) <==> SignalIsNewer(store) && !o.enqueueOk
  {
    RestoredIsNotFirstStart(ResultOf(store, o));
  }

  /** A worker that recovery reports is not replaced at the first tick; without a report the first
      tick starts a worker. */
  lemma RestoredIsNotFirstStart(r: RepairResult)
    ensures StartsWorker(FromRecovery(r)) <==> r.NoRepair?
    ensures !r.NoRepair? ==> AwaitsMeta(FromRecovery(r)) && FromRecovery(r).workerSessionSeq.Some?
  {}
}
