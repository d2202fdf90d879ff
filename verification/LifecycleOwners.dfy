/** The closeout of a worker has one owner at a time, and announces its end once. */
module LifecycleOwners {
  import opened Prelude
  import opened Events
  import opened Sessions
  import opened Recovery
  import opened Daemon
  import opened Lifecycle
  import opened LifecycleLog
  import opened LifecycleMoves

  /** A stop call that closes a worker and has not let go of the guard. */
  predicate Owns(t: StopCall) {
    t.hadActiveHandle && !t.pc.StopDone?
  }

  /** The points a stop call can be at, depending on whether it found a worker. */
  predicate StopIsShaped(t: StopCall) {
    if t.hadActiveHandle then t.pc != StopResuming(Noop)
    else t.pc == StopResuming(Noop) || t.pc.StopContinuing? || t.pc.StopReleasing? || t.pc.StopDone?
  }

  /** At most one closeout is under way, and it holds the guard, superseded or not. */
  predicate OneOwner(w: World) {
    && (forall i :: 0 <= i < |w.stops| ==> StopIsShaped(w.stops[i]))
    && (forall i :: 0 <= i < |w.stops| && Owns(w.stops[i]) ==> w.mem.workerFinalizing && !InFinalize(w.host))
    && (forall i, j :: 0 <= i < j < |w.stops| ==> !(Owns(w.stops[i]) && Owns(w.stops[j])))
    && (InFinalize(w.host) ==> w.mem.workerFinalizing)
  }

  lemma TickMovedKeepsOneOwner(w: World, after: World)
    requires OneOwner(w) && TickMoved(w, after)
    ensures OneOwner(after)
  {}

  lemma FinMovedKeepsOneOwner(w: World, after: World)
    requires OneOwner(w) && FinMoved(w, after)
    ensures OneOwner(after)
  {}

  lemma StopMovedKeepsOneOwner(w: World, i: nat, after: World)
    requires OneOwner(w) && StopMoved(w, i, after)
    ensures OneOwner(after)
  {}

  lemma CallKeepsOneOwner(w: World, interrupt: bool, restart: bool)
    requires OneOwner(w)
    ensures OneOwner(StopWorker(w, interrupt, restart))
  {
    CallMoves(w, interrupt, restart);
  }

  lemma TickKeepsOneOwner(w: World, a: TickAction)
    requires OneOwner(w)
    ensures OneOwner(StepTick(w, a))
  {
    TickMoves(w, a);
    if StepTick(w, a) != w { TickMovedKeepsOneOwner(w, StepTick(w, a)); }
  }

  lemma FinalizeKeepsOneOwner(w: World, a: FinalizeAction)
    requires OneOwner(w)
    ensures OneOwner(StepFinalize(w, a))
  {
    FinMoves(w, a);
    if StepFinalize(w, a) != w { FinMovedKeepsOneOwner(w, StepFinalize(w, a)); }
  }

  lemma StopKeepsOneOwner(w: World, i: nat, a: StopAction)
    requires OneOwner(w)
    ensures OneOwner(StepStop(w, i, a))
  {
    StopMoves(w, i, a);
    if StepStop(w, i, a) != w { StopMovedKeepsOneOwner(w, i, StepStop(w, i, a)); }
  }

  lemma CleanupKeepsOneOwner(w: World, a: CleanupAction)
    requires OneOwner(w)
    ensures OneOwner(StepCleanup(w, a))
  {
    match a
    case Begins =>
    case TakesOver =>
    case Scans =>
    case Backfills(_) =>
    case Finishes =>
  }

  lemma SurroundingsKeepOneOwner(w: World, a: Action)
    requires OneOwner(w) && IsSurrounding(a)
    ensures OneOwner(Step(w, a))
  {
    if Live(Step(w, a)) { SurroundingMoves(w, a); } else { DeathKeepsOneOwner(w, a); }
  }

  lemma DeathKeepsOneOwner(w: World, a: Action)
    requires OneOwner(w) && IsSurrounding(a) && !Live(Step(w, a))
    ensures OneOwner(Step(w, a))
  {
    match a
    case StartWorkerCalled =>
    case Instructed(_) =>
    case InstructionsRead(_) =>
    case SignalSent(_) =>
    case CounterSpoiled =>
    case Crashed =>
    case Booted(_, _) =>
    case BootCrashed(_) =>
  }

  lemma StepKeepsOneOwner(w: World, a: Action)
    requires OneOwner(w)
    ensures OneOwner(Step(w, a))
  {
    match a
    case TickDoes(t) => TickKeepsOneOwner(w, t);
    case FinalizeDoes(f) => FinalizeKeepsOneOwner(w, f);
    case StopDoes(i, s) => StopKeepsOneOwner(w, i, s);
    case StopWorkerCalled(interrupt, restart) => CallKeepsOneOwner(w, interrupt, restart);
    case CleanupDoes(c) => CleanupKeepsOneOwner(w, c);
    case _ => SurroundingsKeepOneOwner(w, a);
  }

  lemma {:induction false} MutualExclusion(actions: seq<Action>)
    ensures OneOwner(Run(NewTask, actions))
  {
    if actions != [] {
      var n := |actions| - 1;
      MutualExclusion(actions[..n]);
      StepKeepsOneOwner(Run(NewTask, actions[..n]), actions[n]);
    }
  }

  // ---- the handle ----

  /** The stop call has not yet cleared the handle. */
  predicate BeforeClear(t: StopCall) {
    t.hadActiveHandle && (t.pc.StopClosing? || t.pc.StopResuming?)
  }

  /** Who holds which session: the owner of a closeout holds the active worker until it clears the
      handle, and no worker is started while there is one. */
  predicate HandleSound(w: World) {
    HostHolds(w) && StopsHold(w)
  }

  predicate HostHolds(w: World) {
    && (w.mem.workerHandle.Some? ==> w.mem.workerSessionSeq == w.mem.workerHandle)
    && (InStart(w.host) ==> w.mem.workerHandle.None?)
    && (w.host.FinClosing? ==> w.mem.workerHandle == Some(w.host.owner.session))
  }

  predicate StopsHold(w: World) {
    forall i :: 0 <= i < |w.stops| && w.stops[i].hadActiveHandle ==>
      w.stops[i].session.Some? && (BeforeClear(w.stops[i]) ==> w.mem.workerHandle == w.stops[i].session)
  }

  lemma TickMovedKeepsHandleSound(w: World, after: World)
    requires HandleSound(w) && TickMoved(w, after)
    ensures HandleSound(after)
  {}

  lemma FinMovedKeepsHandleSound(w: World, after: World)
    requires OneOwner(w) && HandleSound(w) && FinMoved(w, after)
    ensures HandleSound(after)
  {}

  lemma StopMovedKeepsHandleSound(w: World, i: nat, after: World)
    requires OneOwner(w) && HandleSound(w) && StopMoved(w, i, after)
    ensures HandleSound(after)
  {}

  lemma TickKeepsHandleSound(w: World, a: TickAction)
    requires HandleSound(w)
    ensures HandleSound(StepTick(w, a))
  {
    TickMoves(w, a);
    if StepTick(w, a) != w { TickMovedKeepsHandleSound(w, StepTick(w, a)); }
  }

  lemma FinalizeKeepsHandleSound(w: World, a: FinalizeAction)
    requires OneOwner(w) && HandleSound(w)
    ensures HandleSound(StepFinalize(w, a))
  {
    FinMoves(w, a);
    if StepFinalize(w, a) != w { FinMovedKeepsHandleSound(w, StepFinalize(w, a)); }
  }

  lemma StopKeepsHandleSound(w: World, i: nat, a: StopAction)
    requires OneOwner(w) && HandleSound(w)
    ensures HandleSound(StepStop(w, i, a))
  {
    StopMoves(w, i, a);
    if StepStop(w, i, a) != w { StopMovedKeepsHandleSound(w, i, StepStop(w, i, a)); }
  }

  predicate IsWorkerThread(a: Action) {
    a.TickDoes? || a.FinalizeDoes? || a.StopDoes?
  }

  lemma CleanupKeepsHandleSound(w: World, a: CleanupAction)
    requires HandleSound(w)
    ensures StepCleanup(w, a).cleaner.Exited? || HandleSound(StepCleanup(w, a))
  {
    match a
    case Begins =>
    case TakesOver =>
    case Scans =>
    case Backfills(_) =>
    case Finishes =>
  }

  lemma CallKeepsHandleSound(w: World, interrupt: bool, restart: bool)
    requires HandleSound(w)
    ensures HandleSound(StopWorker(w, interrupt, restart))
  {
    CallMoves(w, interrupt, restart);
  }

  lemma SurroundingsKeepHandleSound(w: World, a: Action)
    requires (Live(w) ==> HandleSound(w)) && IsSurrounding(a)
    ensures Live(Step(w, a)) ==> HandleSound(Step(w, a))
  {
    if Live(Step(w, a)) { SurroundingMoves(w, a); }
  }

  lemma StepKeepsHandleSound(w: World, a: Action)
    requires OneOwner(w) && (Live(w) ==> HandleSound(w))
    ensures Live(Step(w, a)) ==> HandleSound(Step(w, a))
  {
    match a
    case TickDoes(t) => if Live(w) { TickKeepsHandleSound(w, t); }
    case FinalizeDoes(f) => if Live(w) { FinalizeKeepsHandleSound(w, f); }
    case StopDoes(i, s) => if Live(w) { StopKeepsHandleSound(w, i, s); }
    case CleanupDoes(c) => if Live(w) { CleanupKeepsHandleSound(w, c); }
    case StopWorkerCalled(interrupt, restart) => if Live(w) { CallKeepsHandleSound(w, interrupt, restart); }
    case _ => SurroundingsKeepHandleSound(w, a);
  }

  // ---- the epoch ----

  /** Until cleanup takes over every owner is current; the owner in the tick loop closes the last
      started worker; once cleanup has begun the tick loop does nothing but finish its closeout. */
  predicate OwnersCurrent(w: World) {
    && (w.cleaner.NotCleaning? || w.cleaner.Waiting? ==>
          && (InFinalize(w.host) ==> w.host.owner.epoch == w.mem.workerFinalizeEpoch)
          && (forall i :: 0 <= i < |w.stops| && Owns(w.stops[i]) ==> w.stops[i].epoch == w.mem.workerFinalizeEpoch))
    && (InFinalize(w.host) ==> w.mem.workerSessionSeq == Some(w.host.owner.session))
    && (!w.cleaner.NotCleaning? ==> w.host.Idle? || InFinalize(w.host))
    && (w.cleaner.CleanAppending? ==> w.mem.workerSessionSeq == Some(w.cleaner.session))
  }

  lemma TickMovedKeepsOwnersCurrent(w: World, after: World)
    requires OwnersCurrent(w) && TickMoved(w, after)
    ensures OwnersCurrent(after)
  {}

  lemma FinMovedKeepsOwnersCurrent(w: World, after: World)
    requires OwnersCurrent(w) && FinMoved(w, after)
    ensures OwnersCurrent(after)
  {}

  lemma StopMovedKeepsOwnersCurrent(w: World, i: nat, after: World)
    requires OwnersCurrent(w) && StopMoved(w, i, after)
    ensures OwnersCurrent(after)
  {}

  lemma TickKeepsOwnersCurrent(w: World, a: TickAction)
    requires OwnersCurrent(w)
    ensures OwnersCurrent(StepTick(w, a))
  {
    TickMoves(w, a);
    if StepTick(w, a) != w { TickMovedKeepsOwnersCurrent(w, StepTick(w, a)); }
  }

  lemma FinalizeKeepsOwnersCurrent(w: World, a: FinalizeAction)
    requires OwnersCurrent(w)
    ensures OwnersCurrent(StepFinalize(w, a))
  {
    FinMoves(w, a);
    if StepFinalize(w, a) != w { FinMovedKeepsOwnersCurrent(w, StepFinalize(w, a)); }
  }

  lemma StopKeepsOwnersCurrent(w: World, i: nat, a: StopAction)
    requires OwnersCurrent(w)
    ensures OwnersCurrent(StepStop(w, i, a))
  {
    StopMoves(w, i, a);
    if StepStop(w, i, a) != w { StopMovedKeepsOwnersCurrent(w, i, StepStop(w, i, a)); }
  }

  lemma SurroundingsKeepOwnersCurrent(w: World, a: Action)
    requires (Live(w) ==> OwnersCurrent(w)) && IsSurrounding(a)
    ensures Live(Step(w, a)) ==> OwnersCurrent(Step(w, a))
  {
    if Live(Step(w, a)) { SurroundingMoves(w, a); }
  }

  lemma CallKeepsOwnersCurrent(w: World, interrupt: bool, restart: bool)
    requires OwnersCurrent(w)
    ensures OwnersCurrent(StopWorker(w, interrupt, restart))
  {
    CallMoves(w, interrupt, restart);
  }

  lemma CleanupKeepsOwnersCurrent(w: World, a: CleanupAction)
    requires OwnersCurrent(w)
    ensures OwnersCurrent(StepCleanup(w, a))
  {
    match a
    case Begins =>
    case TakesOver =>
    case Scans =>
    case Backfills(_) =>
    case Finishes =>
  }

  lemma StepKeepsOwnersCurrent(w: World, a: Action)
    requires Live(w) ==> OwnersCurrent(w)
    ensures Live(Step(w, a)) ==> OwnersCurrent(Step(w, a))
  {
    match a
    case TickDoes(t) => if Live(w) { TickKeepsOwnersCurrent(w, t); }
    case FinalizeDoes(f) => if Live(w) { FinalizeKeepsOwnersCurrent(w, f); }
    case StopDoes(i, s) => if Live(w) { StopKeepsOwnersCurrent(w, i, s); }
    case CleanupDoes(c) => if Live(w) { CleanupKeepsOwnersCurrent(w, c); }
    case StopWorkerCalled(interrupt, restart) => if Live(w) { CallKeepsOwnersCurrent(w, interrupt, restart); }
    case _ => SurroundingsKeepOwnersCurrent(w, a);
  }

  // ---- one end per session and process ----

  function SessionsOf(ends: seq<End>): (s: seq<nat>)
    ensures |s| == |ends| && forall i :: 0 <= i < |s| ==> s[i] == ends[i].session
  {
    seq(|ends|, i requires 0 <= i < |ends| => ends[i].session)
  }

  /** The sessions whose end the current process has announced, in order. */
  function Announced(w: World): seq<nat> {
    if w.bootEnds <= |w.disk.store.ends| then SessionsOf(w.disk.store.ends[w.bootEnds..]) else []
  }

  /** A started session that is not announced yet. */
  predicate Unannounced(w: World, n: nat) {
    n in StartedSeqs(w.disk.store.log) && n !in Announced(w)
  }

  /** Whatever can still be announced has not been, and no two threads hold the same session. */
  predicate AnnouncedOnce(w: World) {
    && w.bootEnds <= |w.disk.store.ends|
    && Distinct(Announced(w))
    && (forall n :: n in Announced(w) ==> n in StartedSeqs(w.disk.store.log))
    && (w.mem.workerHandle.Some? ==> Unannounced(w, w.mem.workerHandle.value))
    && (w.host.Spawning? ==> Unannounced(w, w.host.session))
    && (w.host.FinEvaluating? || w.host.FinEnqueuing? ==>
          Unannounced(w, w.host.owner.session) && w.mem.workerHandle != Some(w.host.owner.session))
    && (forall i :: 0 <= i < |w.stops| && w.stops[i].pc.StopEnqueuing? && w.stops[i].session.Some? ==>
          && Unannounced(w, w.stops[i].session.value)
          && w.mem.workerHandle != w.stops[i].session
          && w.host != Spawning(w.stops[i].session.value))
  }

  lemma AnnounceOne(w: World, session: nat, reason: ExitReason, key: Key, ok: bool)
    requires w.bootEnds <= |w.disk.store.ends|
    ensures var d := SendEnd(w.disk, session, reason, key, ok);
            Announced(w.(disk := d)) == Announced(w) + (if ok then [session] else [])
  {
    var ends := w.disk.store.ends;
    var e := End(key, session, reason, false, true);
    assert (ends + [e])[w.bootEnds..] == ends[w.bootEnds..] + [e];
    assert SessionsOf(ends[w.bootEnds..] + [e]) == SessionsOf(ends[w.bootEnds..]) + [session];
  }

  /** Nothing was started and nothing announced. */
  predicate NothingNew(w: World, after: World) {
    && StartedSeqs(after.disk.store.log) == StartedSeqs(w.disk.store.log)
    && after.disk.store.ends == w.disk.store.ends
  }

  lemma TickMovedKeepsAnnounced(w: World, after: World)
    requires HandleSound(w) && AnnouncedOnce(w) && TickMoved(w, after) && NothingNew(w, after)
    requires after.host.Spawning? ==> w.host == after.host
    ensures AnnouncedOnce(after)
  {
    assert Announced(after) == Announced(w);
  }

  lemma FinMovedKeepsAnnounced(w: World, after: World)
    requires HandleSound(w) && AnnouncedOnce(w) && FinMoved(w, after) && NothingNew(w, after)
    ensures AnnouncedOnce(after)
  {
    assert Announced(after) == Announced(w);
  }

  lemma StopMovedKeepsAnnounced(w: World, i: nat, after: World)
    requires OneOwner(w) && HandleSound(w) && AnnouncedOnce(w) && StopMoved(w, i, after) && NothingNew(w, after)
    ensures AnnouncedOnce(after)
  {
    assert Announced(after) == Announced(w);
    assert StopIsShaped(w.stops[i]);
  }

  lemma TickStartsNothing(w: World, a: TickAction)
    requires !a.WritesStarted?
    ensures NothingNew(w, StepTick(w, a)) && (StepTick(w, a).host.Spawning? ==> StepTick(w, a).host == w.host)
  {
    match a
    case Ticks =>
    case Peeks(_) =>
    case PassesGate(_) =>
    case Reconciles =>
    case Allocates(_) =>
    case Spawns(_) =>
    case WritesAborted(readable) =>
      if w.host.Aborting? { EndedAfter(w.disk.store.log, w.host.session, HostInternalError, readable); }
    case Injects(_) =>
    case CompletesStart =>
    case AbandonsStart =>
    case Captures =>
    case Monitors(_) =>
  }

  lemma TickKeepsAnnounced(w: World, a: TickAction)
    requires HandleSound(w) && AnnouncedOnce(w) && !a.WritesStarted?
    ensures AnnouncedOnce(StepTick(w, a))
  {
    TickMoves(w, a);
    TickStartsNothing(w, a);
    if StepTick(w, a) != w { TickMovedKeepsAnnounced(w, StepTick(w, a)); }
  }

  lemma StartKeepsAnnounced(w: World, ok: bool)
    requires OneOwner(w) && HandleSound(w) && AnnouncedOnce(w) && NumbersFresh(w) && EndsOnce(w.disk.store.log)
    ensures AnnouncedOnce(HostAppendStarted(w, ok))
  {
    if w.host.Starting? {
      PlainKeepsEndsOnce(w.disk.store.log, WorkerStarted(w.host.session));
    }
  }

  lemma FinEnqueueKeepsAnnounced(w: World, ok: bool, key: Key)
    requires OneOwner(w) && AnnouncedOnce(w) && w.host.FinEnqueuing?
    ensures AnnouncedOnce(FinEnqueue(w, ok, key))
  {
    AnnounceOne(w, w.host.owner.session, w.host.reason, key, ok);
    DistinctSnoc(Announced(w), w.host.owner.session);
  }

  lemma FinalizeStartsNothing(w: World, a: FinalizeAction)
    requires !(a.EnqueuesEnd? && w.host.FinEnqueuing?)
    ensures NothingNew(w, StepFinalize(w, a))
  {
    match a
    case ClosesWorker(_, _, _, _) =>
    case Evaluates =>
    case EnqueuesEnd(_, _) =>
    case AnnouncesEnd =>
    case LeavesTail =>
    case PeeksInbox(_) =>
    case CapturesBaseline =>
    case ChecksEpoch =>
    case WritesEnded(readable) =>
      if w.host.FinAppending? { EndedAfter(w.disk.store.log, w.host.owner.session, w.host.reason, readable); }
    case ReleasesGuard =>
  }

  lemma FinalizeKeepsAnnounced(w: World, a: FinalizeAction)
    requires OneOwner(w) && HandleSound(w) && AnnouncedOnce(w)
    ensures AnnouncedOnce(StepFinalize(w, a))
  {
    if a.EnqueuesEnd? && w.host.FinEnqueuing? {
      FinEnqueueKeepsAnnounced(w, a.ok, a.key);
    } else {
      FinMoves(w, a);
      FinalizeStartsNothing(w, a);
      if StepFinalize(w, a) != w { FinMovedKeepsAnnounced(w, StepFinalize(w, a)); }
    }
  }

  lemma StopEnqueueKeepsAnnounced(w: World, i: nat, ok: bool, key: Key)
    requires OneOwner(w) && AnnouncedOnce(w)
    requires i < |w.stops| && w.stops[i].pc.StopEnqueuing? && w.stops[i].session.Some?
    ensures AnnouncedOnce(StopEnqueue(w, i, ok, key))
  {
    var n := w.stops[i].session.value;
    AnnounceOne(w, n, StopReason(w.stops[i]), key, ok);
    DistinctSnoc(Announced(w), n);
  }

  lemma AppendStartsNothing(w: World, i: nat, readable: bool)
    ensures NothingNew(w, StopAppendEnded(w, i, readable))
  {
    if i < |w.stops| && w.stops[i].session.Some? {
      EndedAfter(w.disk.store.log, w.stops[i].session.value, StopReason(w.stops[i]), readable);
    }
  }

  lemma StopStartsNothing(w: World, i: nat, a: StopAction)
    requires !(a.Enqueues? && i < |w.stops| && w.stops[i].pc.StopEnqueuing? && w.stops[i].session.Some?)
    ensures NothingNew(w, StepStop(w, i, a))
  {
    match a
    case KillReturns(_) =>
    case Resumes =>
    case Enqueues(_, _) =>
    case Checks =>
    case Appends(readable) => AppendStartsNothing(w, i, readable);
    case Continues =>
    case Releases =>
  }

  lemma StopKeepsAnnounced(w: World, i: nat, a: StopAction)
    requires OneOwner(w) && HandleSound(w) && AnnouncedOnce(w)
    ensures AnnouncedOnce(StepStop(w, i, a))
  {
    if a.Enqueues? && i < |w.stops| && w.stops[i].pc.StopEnqueuing? && w.stops[i].session.Some? {
      StopEnqueueKeepsAnnounced(w, i, a.ok, a.key);
    } else {
      StopMoves(w, i, a);
      StopStartsNothing(w, i, a);
      if StepStop(w, i, a) != w { StopMovedKeepsAnnounced(w, i, StepStop(w, i, a)); }
    }
  }

  lemma CleanupKeepsAnnounced(w: World, a: CleanupAction)
    requires AnnouncedOnce(w)
    ensures AnnouncedOnce(StepCleanup(w, a))
  {
    if a.Backfills? && w.cleaner.CleanAppending? {
      EndedAfter(w.disk.store.log, w.cleaner.session, HostShutdown, a.readable);
    }
  }

  lemma CallKeepsAnnounced(w: World, interrupt: bool, restart: bool)
    requires AnnouncedOnce(w)
    ensures AnnouncedOnce(StopWorker(w, interrupt, restart))
  {}

  lemma BootAnnouncesNothing(w: World, running: bool, o: Outcome)
    requires !Live(w)
    ensures AnnouncedOnce(Boot(w, running, o))
  {}

  lemma SurroundingsKeepAnnounced(w: World, a: Action)
    requires !a.TickDoes? && !a.FinalizeDoes? && !a.StopDoes? && !a.CleanupDoes? && !a.StopWorkerCalled? && !a.Booted?
    requires !w.host.Down? ==> AnnouncedOnce(w)
    ensures !Step(w, a).host.Down? ==> AnnouncedOnce(Step(w, a))
  {}

  lemma StepKeepsAnnounced(w: World, a: Action)
    requires OneOwner(w) && EndsOnce(w.disk.store.log) && NumbersFresh(w)
    requires (Live(w) ==> HandleSound(w)) && (!w.host.Down? ==> AnnouncedOnce(w))
    ensures !Step(w, a).host.Down? ==> AnnouncedOnce(Step(w, a))
  {
    match a
    case TickDoes(t) =>
      if Live(w) {
        if t.WritesStarted? { StartKeepsAnnounced(w, t.ok); } else { TickKeepsAnnounced(w, t); }
      }
    case FinalizeDoes(f) => if Live(w) { FinalizeKeepsAnnounced(w, f); }
    case StopDoes(i, s) => if Live(w) { StopKeepsAnnounced(w, i, s); }
    case CleanupDoes(c) => if Live(w) { CleanupKeepsAnnounced(w, c); }
    case StopWorkerCalled(interrupt, restart) => if Live(w) { CallKeepsAnnounced(w, interrupt, restart); }
    case Booted(running, o) => if !Live(w) { BootAnnouncesNothing(w, running, o); }
    case _ => SurroundingsKeepAnnounced(w, a);
  }

  /** What holds at every point of every run. */
  predicate Sound(w: World) {
    && OneOwner(w)
    && EndsOnce(w.disk.store.log)
    && NumbersFresh(w)
    && (Live(w) ==> HandleSound(w) && OwnersCurrent(w))
    && (!w.host.Down? ==> AnnouncedOnce(w))
  }

  lemma StepKeepsSound(w: World, a: Action)
    requires Sound(w)
    ensures Sound(Step(w, a))
  {
    StepKeepsOneOwner(w, a);
    StepKeepsEndsOnce(w, a);
    StepKeepsNumbersFresh(w, a);
    StepKeepsHandleSound(w, a);
    StepKeepsOwnersCurrent(w, a);
    StepKeepsAnnounced(w, a);
  }

  /** In every run, each process announces the end of a session at most once, through whichever of
      the closeout paths and however they interleave; and only of sessions that were started. */
  lemma {:induction false} OneAnnouncementPerSession(actions: seq<Action>)
    ensures var w := Run(NewTask, actions);
            && Sound(w)
            && (!w.host.Down? ==> Distinct(Announced(w)))
            && (!w.host.Down? ==> forall n :: n in Announced(w) ==> n in StartedSeqs(w.disk.store.log))
  {
    if actions != [] {
      var n := |actions| - 1;
      OneAnnouncementPerSession(actions[..n]);
      StepKeepsSound(Run(NewTask, actions[..n]), actions[n]);
    }
  }
}
