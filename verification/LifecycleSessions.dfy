/** Which sessions the files and the threads speak about, and the sessions a takeover abandons. */
module LifecycleSessions {
  import opened Prelude
  import opened Events
  import opened Sessions
  import opened Recovery
  import opened Daemon
  import opened Lifecycle
  import opened LifecycleLog
  import opened LifecycleMoves
  import opened LifecycleOwners
  import opened LifecycleFence
  import opened LifecyclePairing

  predicate IsStarted(w: World, n: nat) {
    n in StartedSeqs(w.disk.store.log)
  }

  /** Nothing on disk is about a session that was never started. */
  predicate FilesKnown(store: Store) {
    && (forall n :: n in EndedSeqs(store.log) ==> n in StartedSeqs(store.log))
    && (forall e :: e in store.ends ==> e.session in StartedSeqs(store.log))
    && (forall s :: s in store.signals ==> s.session in StartedSeqs(store.log))
  }

  /** Nor is anything in memory. */
  predicate ThreadsKnown(w: World) {
    && (w.mem.workerSessionSeq.Some? ==> IsStarted(w, w.mem.workerSessionSeq.value))
    && (w.host.Spawning? || w.host.Aborting? ==> IsStarted(w, w.host.session))
    && (forall i :: 0 <= i < |w.stops| && w.stops[i].session.Some? ==> IsStarted(w, w.stops[i].session.value))
  }

  predicate Known(w: World) {
    FilesKnown(w.disk.store) && (Live(w) ==> ThreadsKnown(w))
  }

  lemma EndedKnown(store: Store, session: nat, reason: ExitReason, o: Outcome)
    requires FilesKnown(store) && session in StartedSeqs(store.log)
    ensures FilesKnown(WithEnded(store, session, reason, o))
    ensures StartedSeqs(WithEnded(store, session, reason, o).log) == StartedSeqs(store.log)
  {
    EndedAfter(store.log, session, reason, o.appendOk);
  }

  lemma EndKnown(store: Store, session: nat, reason: ExitReason, o: Outcome)
    requires FilesKnown(store) && session in StartedSeqs(store.log)
    ensures FilesKnown(WithEnd(store, session, reason, o))
    ensures WithEnd(store, session, reason, o).log == store.log
  {}

  lemma StartKeepsKnown(w: World, ok: bool)
    requires FilesKnown(w.disk.store) && ThreadsKnown(w) && EndsOnce(w.disk.store.log)
    ensures FilesKnown(HostAppendStarted(w, ok).disk.store) && ThreadsKnown(HostAppendStarted(w, ok))
  {
    if w.host.Starting? { PlainKeepsEndsOnce(w.disk.store.log, WorkerStarted(w.host.session)); }
  }

  lemma TickKeepsFilesKnown(w: World, a: TickAction)
    requires FilesKnown(w.disk.store) && ThreadsKnown(w) && !a.WritesStarted?
    ensures FilesKnown(StepTick(w, a).disk.store)
  {
    match a
    case Ticks =>
    case Peeks(_) =>
    case PassesGate(_) =>
    case Reconciles =>
    case Allocates(_) =>
    case Spawns(_) =>
    case WritesAborted(readable) =>
      if w.host.Aborting? { EndedAfter(w.disk.store.log, w.host.session, HostInternalError, readable); }
    case Injects(_) =>
    case CompletesStart =>
    case AbandonsStart =>
    case Captures =>
    case Monitors(_) =>
  }

  lemma TickMovedKeepsThreadsKnown(w: World, after: World)
    requires ThreadsKnown(w) && TickMoved(w, after) && NothingNew(w, after)
    requires after.host.Spawning? ==> after.host == w.host
    ensures ThreadsKnown(after)
  {}

  lemma TickKeepsKnown(w: World, a: TickAction)
    requires FilesKnown(w.disk.store) && ThreadsKnown(w) && EndsOnce(w.disk.store.log)
    ensures FilesKnown(StepTick(w, a).disk.store) && ThreadsKnown(StepTick(w, a))
  {
    if a.WritesStarted? {
      StartKeepsKnown(w, a.ok);
    } else {
      TickMoves(w, a);
      TickStartsNothing(w, a);
      TickKeepsFilesKnown(w, a);
      if StepTick(w, a) != w { TickMovedKeepsThreadsKnown(w, StepTick(w, a)); }
    }
  }

  lemma FinalizeKeepsKnown(w: World, a: FinalizeAction)
    requires FilesKnown(w.disk.store) && ThreadsKnown(w) && OwnersCurrent(w)
    ensures FilesKnown(StepFinalize(w, a).disk.store) && ThreadsKnown(StepFinalize(w, a))
  {
    FinalizeKeepsFilesKnown(w, a);
    FinMoves(w, a);
  }

  lemma FinalizeKeepsFilesKnown(w: World, a: FinalizeAction)
    requires FilesKnown(w.disk.store) && ThreadsKnown(w) && OwnersCurrent(w)
    ensures FilesKnown(StepFinalize(w, a).disk.store)
    ensures StartedSeqs(StepFinalize(w, a).disk.store.log) == StartedSeqs(w.disk.store.log)
  {
    match a
    case ClosesWorker(_, _, _, _) =>
    case Evaluates =>
    case EnqueuesEnd(_, _) =>
    case AnnouncesEnd =>
    case LeavesTail =>
    case PeeksInbox(_) =>
    case CapturesBaseline =>
    case ChecksEpoch =>
    case WritesEnded(readable) =>
      if w.host.FinAppending? { EndedAfter(w.disk.store.log, w.host.owner.session, w.host.reason, readable); }
    case ReleasesGuard =>
  }

  lemma StopKeepsKnown(w: World, i: nat, a: StopAction)
    requires FilesKnown(w.disk.store) && ThreadsKnown(w)
    ensures FilesKnown(StepStop(w, i, a).disk.store) && ThreadsKnown(StepStop(w, i, a))
  {
    StopKeepsFilesKnown(w, i, a);
    StopMoves(w, i, a);
    if StepStop(w, i, a) != w { StopMovedKeepsThreadsKnown(w, i, StepStop(w, i, a)); }
  }

  lemma StopMovedKeepsThreadsKnown(w: World, i: nat, after: World)
    requires ThreadsKnown(w) && StopMoved(w, i, after)
    requires StartedSeqs(after.disk.store.log) == StartedSeqs(w.disk.store.log)
    ensures ThreadsKnown(after)
  {}

  lemma StopKeepsFilesKnown(w: World, i: nat, a: StopAction)
    requires FilesKnown(w.disk.store) && ThreadsKnown(w)
    ensures FilesKnown(StepStop(w, i, a).disk.store)
    ensures StartedSeqs(StepStop(w, i, a).disk.store.log) == StartedSeqs(w.disk.store.log)
  {
    match a
    case KillReturns(_) =>
    case Resumes =>
    case Enqueues(_, _) =>
    case Checks =>
    case Appends(readable) =>
      if i < |w.stops| && w.stops[i].session.Some? {
        EndedAfter(w.disk.store.log, w.stops[i].session.value, StopReason(w.stops[i]), readable);
      }
    case Continues =>
    case Releases =>
  }

  lemma CleanupKeepsKnown(w: World, a: CleanupAction)
    requires FilesKnown(w.disk.store) && ThreadsKnown(w) && OwnersCurrent(w)
    ensures FilesKnown(StepCleanup(w, a).disk.store) && ThreadsKnown(StepCleanup(w, a))
  {
    if a.Backfills? && w.cleaner.CleanAppending? {
      EndedAfter(w.disk.store.log, w.cleaner.session, HostShutdown, a.readable);
    }
  }

  lemma CallKeepsKnown(w: World, interrupt: bool, restart: bool)
    requires ThreadsKnown(w)
    ensures StopWorker(w, interrupt, restart).disk == w.disk && ThreadsKnown(StopWorker(w, interrupt, restart))
  {
    CallMoves(w, interrupt, restart);
  }

  lemma OthersKeepKnown(w: World, a: Action)
    requires Known(w) && !IsWorkerThread(a) && !a.CleanupDoes? && !a.StopWorkerCalled? && !a.Booted? && !a.BootCrashed?
    ensures Known(Step(w, a))
  {
    match a
    case StartWorkerCalled =>
    case Instructed(_) =>
    case InstructionsRead(_) =>
    case SignalSent(_) =>
    case CounterSpoiled =>
    case Crashed =>
  }

  lemma RepairKeepsKnown(store: Store, o: Outcome)
    requires FilesKnown(store)
    ensures FilesKnown(RepairedStore(store, o)) && FilesKnown(PartlyRepaired(store, o))
    ensures StartedSeqs(RepairedStore(store, o).log) == StartedSeqs(store.log)
  {
    if SignalIsNewer(store) {
      var s := LatestSignal(store.signals).value;
      EndKnown(store, s.session, SignalReason(s), o);
      EndedKnown(WithEnd(store, s.session, SignalReason(s), o), s.session, SignalReason(s), o);
    } else if EndIsLast(store) {
      var e := LatestEnd(store.ends).value;
      EndedKnown(store, e.session, e.reason, o);
    } else if !o.corrupted && Unmatched(store.log).Some? {
      CrashKeepsKnown(store, o, Unmatched(store.log).value);
    }
  }

  lemma CrashKeepsKnown(store: Store, o: Outcome, n: nat)
    requires FilesKnown(store) && !o.corrupted && Unmatched(store.log) == Some(n)
    requires !SignalIsNewer(store) && !EndIsLast(store)
    ensures FilesKnown(RepairedStore(store, o)) && FilesKnown(PartlyRepaired(store, o))
    ensures StartedSeqs(RepairedStore(store, o).log) == StartedSeqs(store.log)
  {
    var durable := EndFor(store.ends, n);
    var reason := if durable.Some? then durable.value.reason else SdkCrash;
    EndedKnown(store, n, reason, o);
    EndKnown(WithEnded(store, n, reason, o), n, reason, o);
  }

  lemma RestoredIsStarted(store: Store, o: Outcome)
    requires FilesKnown(store)
    ensures var last := FromRecovery(ResultOf(store, o)).workerSessionSeq;
      last.Some? ==> last.value in StartedSeqs(store.log)
  {}

  lemma StepKeepsKnown(w: World, a: Action)
    requires Known(w) && EndsOnce(w.disk.store.log) && (Live(w) ==> OwnersCurrent(w)) && !IsSetAside(a)
    ensures Known(Step(w, a))
  {
    match a
    case TickDoes(t) => if Live(w) { TickKeepsKnown(w, t); }
    case FinalizeDoes(f) => if Live(w) { FinalizeKeepsKnown(w, f); }
    case StopDoes(i, s) => if Live(w) { StopKeepsKnown(w, i, s); }
    case CleanupDoes(c) => if Live(w) { CleanupKeepsKnown(w, c); }
    case StopWorkerCalled(interrupt, restart) => if Live(w) { CallKeepsKnown(w, interrupt, restart); }
    case Booted(running, o) => RepairKeepsKnown(w.disk.store, o); RestoredIsStarted(w.disk.store, o);
    case BootCrashed(o) => RepairKeepsKnown(w.disk.store, o);
    case _ => OthersKeepKnown(w, a);
  }

  // ---- until cleanup takes over, a session that is looked after has no end record ----

  predicate NotEnded(w: World, n: nat) {
    n !in EndedSeqs(w.disk.store.log)
  }

  predicate HostsOpen(w: World) {
    && (w.mem.workerHandle.Some? ==> NotEnded(w, w.mem.workerHandle.value))
    && (w.host.Spawning? || w.host.Aborting? ==> NotEnded(w, w.host.session))
    && (InFinalize(w.host) && !w.host.FinDone? ==> NotEnded(w, w.host.owner.session))
    && (InFinalize(w.host) && !w.host.FinDone? && !w.host.FinClosing? ==>
          w.mem.workerHandle != Some(w.host.owner.session))
  }

  predicate StopsOpen(w: World) {
    forall i :: 0 <= i < |w.stops| && IsClosing(w.stops[i]) && w.stops[i].session.Some? ==>
      && NotEnded(w, w.stops[i].session.value)
      && (!BeforeClear(w.stops[i]) ==>
            && w.mem.workerHandle != w.stops[i].session
            && w.host != Spawning(w.stops[i].session.value)
            && w.host != Aborting(w.stops[i].session.value))
  }

  /** No record is written before the closeout that it belongs to writes it. */
  predicate Open(w: World) {
    Live(w) && !PastTakeover(w) ==> HostsOpen(w) && StopsOpen(w)
  }

  lemma StartKeepsOpen(w: World, ok: bool)
    requires NumbersFresh(w) && EndsOnce(w.disk.store.log) && HandleSound(w)
    requires FilesKnown(w.disk.store) && ThreadsKnown(w) && HostsOpen(w) && StopsOpen(w)
    ensures HostsOpen(HostAppendStarted(w, ok)) && StopsOpen(HostAppendStarted(w, ok))
  {
    if w.host.Starting? { PlainKeepsEndsOnce(w.disk.store.log, WorkerStarted(w.host.session)); }
  }

  lemma AbortKeepsOpen(w: World, readable: bool)
    requires HandleSound(w) && HostsOpen(w) && StopsOpen(w)
    ensures HostsOpen(HostAppendAborted(w, readable)) && StopsOpen(HostAppendAborted(w, readable))
  {
    if w.host.Aborting? { EndedAfter(w.disk.store.log, w.host.session, HostInternalError, readable); }
  }

  predicate LogSame(w: World, after: World) {
    after.disk.store.log == w.disk.store.log
  }

  lemma TickMovedKeepsOpen(w: World, after: World)
    requires HandleSound(w) && HostsOpen(w) && StopsOpen(w) && TickMoved(w, after) && LogSame(w, after)
    requires after.host.Spawning? ==> after.host == w.host
    ensures HostsOpen(after) && StopsOpen(after)
  {}

  lemma TickLeavesLog(w: World, a: TickAction)
    requires !a.WritesStarted? && !a.WritesAborted?
    ensures LogSame(w, StepTick(w, a))
  {
    match a
    case Ticks =>
    case Peeks(_) =>
    case PassesGate(_) =>
    case Reconciles =>
    case Allocates(_) =>
    case Spawns(_) =>
    case Injects(_) =>
    case CompletesStart =>
    case AbandonsStart =>
    case Captures =>
    case Monitors(_) =>
  }

  lemma TickKeepsOpen(w: World, a: TickAction)
    requires HandleSound(w) && HostsOpen(w) && StopsOpen(w) && !a.WritesStarted? && !a.WritesAborted?
    ensures HostsOpen(StepTick(w, a)) && StopsOpen(StepTick(w, a))
  {
    TickMoves(w, a);
    TickLeavesLog(w, a);
    TickStartsNothing(w, a);
    if StepTick(w, a) != w { TickMovedKeepsOpen(w, StepTick(w, a)); }
  }

  lemma FinMovedKeepsOpen(w: World, after: World)
    requires HandleSound(w) && OneOwner(w) && HostsOpen(w) && StopsOpen(w) && FinMoved(w, after) && LogSame(w, after)
    ensures HostsOpen(after) && StopsOpen(after)
  {}

  lemma FinAppendKeepsOpen(w: World, readable: bool)
    requires HandleSound(w) && OneOwner(w) && OwnersCurrent(w) && HostsOpen(w) && StopsOpen(w) && w.host.FinAppending?
    ensures HostsOpen(FinAppendEnded(w, readable)) && StopsOpen(FinAppendEnded(w, readable))
  {
    EndedAfter(w.disk.store.log, w.host.owner.session, w.host.reason, readable);
  }

  lemma FinalizeKeepsOpen(w: World, a: FinalizeAction)
    requires HandleSound(w) && OneOwner(w) && OwnersCurrent(w) && HostsOpen(w) && StopsOpen(w)
    ensures HostsOpen(StepFinalize(w, a)) && StopsOpen(StepFinalize(w, a))
  {
    if a.WritesEnded? && w.host.FinAppending? {
      FinAppendKeepsOpen(w, a.readable);
    } else {
      FinMoves(w, a);
      FinalizeLeavesLog(w, a);
      if StepFinalize(w, a) != w { FinMovedKeepsOpen(w, StepFinalize(w, a)); }
    }
  }

  lemma StopMovedKeepsOpen(w: World, i: nat, after: World)
    requires HandleSound(w) && OneOwner(w) && HostsOpen(w) && StopsOpen(w) && StopMoved(w, i, after) && LogSame(w, after)
    ensures HostsOpen(after) && StopsOpen(after)
  {
    assert StopIsShaped(w.stops[i]);
  }

  lemma StopAppendKeepsOpen(w: World, i: nat, readable: bool)
    requires HandleSound(w) && OneOwner(w) && HostsOpen(w) && StopsOpen(w)
    requires i < |w.stops| && w.stops[i].pc.StopAppending? && w.stops[i].session.Some?
    ensures HostsOpen(StopAppendEnded(w, i, readable)) && StopsOpen(StopAppendEnded(w, i, readable))
  {
    EndedAfter(w.disk.store.log, w.stops[i].session.value, StopReason(w.stops[i]), readable);
    assert StopIsShaped(w.stops[i]) && Owns(w.stops[i]);
    assert forall j :: 0 <= j < |w.stops| && j != i ==> !Owns(w.stops[j]);
  }

  lemma StopKeepsOpen(w: World, i: nat, a: StopAction)
    requires HandleSound(w) && OneOwner(w) && HostsOpen(w) && StopsOpen(w)
    ensures HostsOpen(StepStop(w, i, a)) && StopsOpen(StepStop(w, i, a))
  {
    if a.Appends? {
      if i < |w.stops| && w.stops[i].pc.StopAppending? && w.stops[i].session.Some? { StopAppendKeepsOpen(w, i, a.readable); }
    } else {
      StopMoves(w, i, a);
      StopLeavesLog(w, i, a);
      if StepStop(w, i, a) != w { StopMovedKeepsOpen(w, i, StepStop(w, i, a)); }
    }
  }

  lemma CleanupKeepsOpen(w: World, a: CleanupAction)
    requires Open(w)
    ensures Open(StepCleanup(w, a))
  {
    match a
    case Begins =>
    case TakesOver =>
    case Scans =>
    case Backfills(_) =>
    case Finishes =>
  }

  lemma OthersKeepOpen(w: World, a: Action)
    requires Open(w) && (Live(w) ==> HandleSound(w)) && !IsWorkerThread(a)
    ensures Open(Step(w, a))
  {
    match a
    case CleanupDoes(c) => CleanupKeepsOpen(w, c);
    case StartWorkerCalled =>
    case StopWorkerCalled(interrupt, restart) => CallMoves(w, interrupt, restart);
    case Instructed(_) =>
    case InstructionsRead(_) =>
    case SignalSent(_) =>
    case CounterSpoiled =>
    case Crashed =>
    case Booted(running, o) => if !Live(w) { BootIsOpen(w, running, o); }
    case BootCrashed(_) =>
  }

  lemma BootIsOpen(w: World, running: bool, o: Outcome)
    requires !Live(w)
    ensures Open(Boot(w, running, o))
  {}

  lemma ThreadsKeepOpen(w: World, a: Action)
    requires Live(w) && !PastTakeover(w) && Sound(w) && Known(w) && HostsOpen(w) && StopsOpen(w) && IsWorkerThread(a)
    ensures HostsOpen(Step(w, a)) && StopsOpen(Step(w, a))
  {
    match a
    case TickDoes(t) =>
      if t.WritesStarted? { StartKeepsOpen(w, t.ok); }
      else if t.WritesAborted? { AbortKeepsOpen(w, t.readable); }
      else { TickKeepsOpen(w, t); }
    case FinalizeDoes(f) => FinalizeKeepsOpen(w, f);
    case StopDoes(i, s) => StopKeepsOpen(w, i, s);
  }

  /** No thread but cleanup itself takes over. */
  lemma ThreadsLeaveCleaner(w: World, a: Action)
    requires IsWorkerThread(a) && (Live(w) ==> OwnersCurrent(w))
    ensures PastTakeover(Step(w, a)) <==> PastTakeover(w)
    ensures !Live(w) ==> Step(w, a) == w
  {}

  lemma StepKeepsOpen(w: World, a: Action)
    requires Sound(w) && Known(w) && Open(w)
    ensures Open(Step(w, a))
  {
    if !IsWorkerThread(a) {
      OthersKeepOpen(w, a);
    } else {
      ThreadsLeaveCleaner(w, a);
      if Live(w) && !PastTakeover(w) { ThreadsKeepOpen(w, a); }
    }
  }

  /** In every run in which the log is never set aside, everything on disk and in memory is about
      started sessions, and until cleanup takes over no session that is still looked after is ended. */
  lemma {:induction false} SessionsAccountedFor(actions: seq<Action>)
    requires forall k :: 0 <= k < |actions| ==> !IsSetAside(actions[k])
    ensures var w := Run(NewTask, actions); Sound(w) && Known(w) && Open(w)
  {
    if actions != [] {
      var n := |actions| - 1;
      var w := Run(NewTask, actions[..n]);
      SessionsAccountedFor(actions[..n]);
      StepKeepsSound(w, actions[n]);
      StepKeepsKnown(w, actions[n]);
      StepKeepsOpen(w, actions[n]);
    }
  }

  // ---- what a takeover leaves behind stays unmatched ----

  /** The stop call `i` has cleared the handle of session `n`, has not begun to write its record, and
      another worker was started since. */
  predicate TooLate(w: World, i: nat, n: nat) {
    && i < |w.stops| && StopCloses(w.stops[i], n)
    && (w.stops[i].pc.StopEnqueuing? || w.stops[i].pc.StopEnqueued?)
    && w.mem.workerSessionSeq != Some(n)
  }

  lemma TakeoverAbandons(w: World, i: nat, n: nat)
    requires Live(w) && Sound(w) && Known(w) && Open(w) && w.cleaner.Waiting? && TooLate(w, i, n)
    ensures Abandoned(TakeOver(w), n)
  {
    assert Owns(w.stops[i]);
    forall j | 0 <= j < |w.stops| && w.stops[j].session == Some(n)
      ensures !w.stops[j].pc.StopAppending? && (w.stops[j].pc.StopEnqueuing? || w.stops[j].pc.StopEnqueued? ==> j == i)
    {
      assert StopIsShaped(w.stops[j]);
      if Owns(w.stops[j]) { assert j == i; }
    }
  }

  /** Such a session never gets its record: whatever the process still does, it stays unmatched. */
  lemma {:induction false} LeftBehindStaysUnmatched(w: World, i: nat, n: nat, actions: seq<Action>)
    requires Live(w) && Sound(w) && Known(w) && Open(w) && w.cleaner.Waiting? && TooLate(w, i, n)
    requires forall k :: 0 <= k < |actions| ==> IsOfProcess(actions[k])
    requires Live(Run(TakeOver(w), actions))
    ensures Sound(Run(TakeOver(w), actions)) && Abandoned(Run(TakeOver(w), actions), n)
    ensures IsUnmatched(Run(TakeOver(w), actions).disk.store.log, n)
  {
    if actions == [] {
      TakeoverAbandons(w, i, n);
      StepKeepsSound(w, CleanupDoes(TakesOver));
    } else {
      var k := |actions| - 1;
      var prior := Run(TakeOver(w), actions[..k]);
      if !Live(prior) { DeadStaysDead(prior, actions[k]); }
      LeftBehindStaysUnmatched(w, i, n, actions[..k]);
      StepKeepsSound(prior, actions[k]);
      AbandonedStays(prior, actions[k], n);
    }
  }
}
