/** How one stretch of each thread moves the lifecycle, without the files: the control points, the
    handle and the guard. Invariants about owners need no more than this. */
module LifecycleMoves {
  import opened Prelude
  import opened Events
  import opened Sessions
  import opened Recovery
  import opened Daemon
  import opened Lifecycle

  // ---- stop calls ----

  predicate SameCall(t: StopCall, u: StopCall) {
    && u.hadActiveHandle == t.hadActiveHandle && u.session == t.session && u.epoch == t.epoch
    && u.interrupt == t.interrupt && u.restart == t.restart
  }

  /** The next control point of a stop call; `current` is the epoch at this moment. */
  predicate StopAdvances(t: StopCall, pc: StopPc, current: nat) {
    match t.pc
    case StopClosing => pc == StopResuming(Dispatched) || pc == StopResuming(SoftKillFailed)
    case StopResuming(o) =>
      if t.epoch != current || o.SoftKillFailed? then pc.StopReleasing?
      else if o.Noop? || t.session.None? then pc.StopContinuing?
      else pc.StopEnqueuing?
    case StopEnqueuing => pc.StopEnqueued?
    case StopEnqueued => if t.epoch == current then pc.StopAppending? else pc.StopContinuing?
    case StopAppending => pc.StopContinuing?
    case StopContinuing => pc.StopReleasing?
    case StopReleasing => pc.StopDone?
    case StopDone => false
  }

  /** The stop call takes the handle away. */
  predicate Clears(t: StopCall, current: nat) {
    t.pc == StopResuming(Dispatched) && t.epoch == current
  }

  predicate StopTouches(t: StopCall, before: Memory, after: Memory) {
    && after.workerSessionSeq == before.workerSessionSeq && after.workerFinalizeEpoch == before.workerFinalizeEpoch
    && after.workerStartFailedPending == before.workerStartFailedPending && after.baseline == before.baseline
    && after.workerFinalizing == (before.workerFinalizing && !(t.pc.StopReleasing? && t.hadActiveHandle))
    && (if Clears(t, before.workerFinalizeEpoch) then after.workerHandle.None? && !after.workerInjectFailed
        else after.workerHandle == before.workerHandle && after.workerInjectFailed == before.workerInjectFailed)
  }

  predicate StopMoved(w: World, i: nat, after: World) {
    && i < |w.stops| == |after.stops|
    && after.host == w.host && after.cleaner == w.cleaner && after.bootEnds == w.bootEnds
    && (forall j :: 0 <= j < |w.stops| && j != i ==> after.stops[j] == w.stops[j])
    && SameCall(w.stops[i], after.stops[i])
    && StopAdvances(w.stops[i], after.stops[i].pc, w.mem.workerFinalizeEpoch)
    && StopTouches(w.stops[i], w.mem, after.mem)
  }

  lemma KillMoves(w: World, i: nat, ok: bool)
    ensures StopClose(w, i, ok) == w || StopMoved(w, i, StopClose(w, i, ok))
  {}

  lemma ResumeMoves(w: World, i: nat)
    ensures StopResume(w, i) == w || StopMoved(w, i, StopResume(w, i))
  {
    if i < |w.stops| && w.stops[i].pc.StopResuming? {
      match w.stops[i].pc.outcome
      case Noop =>
      case SoftKillFailed =>
      case Dispatched =>
    }
  }

  lemma WriteMoves(w: World, i: nat, ok: bool, key: Key)
    ensures StopEnqueue(w, i, ok, key) == w || StopMoved(w, i, StopEnqueue(w, i, ok, key))
    ensures StopCheck(w, i) == w || StopMoved(w, i, StopCheck(w, i))
    ensures StopAppendEnded(w, i, ok) == w || StopMoved(w, i, StopAppendEnded(w, i, ok))
  {}

  lemma LastMoves(w: World, i: nat)
    ensures StopContinue(w, i) == w || StopMoved(w, i, StopContinue(w, i))
    ensures StopRelease(w, i) == w || StopMoved(w, i, StopRelease(w, i))
  {}

  lemma StopMoves(w: World, i: nat, a: StopAction)
    ensures StepStop(w, i, a) == w || StopMoved(w, i, StepStop(w, i, a))
  {
    match a
    case KillReturns(ok) => KillMoves(w, i, ok);
    case Resumes => ResumeMoves(w, i);
    case Enqueues(ok, key) => WriteMoves(w, i, ok, key);
    case Checks => WriteMoves(w, i, true, Key(0, 0));
    case Appends(readable) => WriteMoves(w, i, readable, Key(0, 0));
    case Continues => LastMoves(w, i);
    case Releases => LastMoves(w, i);
  }

  /** A new stop call that is not turned away. */
  predicate CallMoved(w: World, interrupt: bool, restart: bool, after: World) {
    && !w.mem.workerFinalizing && after.disk == w.disk
    && after.host == w.host && after.cleaner == w.cleaner && after.bootEnds == w.bootEnds
    && |after.stops| == |w.stops| + 1
    && (forall j :: 0 <= j < |w.stops| ==> after.stops[j] == w.stops[j])
    && IsNewCall(w, interrupt, restart, after.stops[|w.stops|])
    && after.mem.workerHandle == w.mem.workerHandle && after.mem.workerSessionSeq == w.mem.workerSessionSeq
    && after.mem.workerFinalizeEpoch == w.mem.workerFinalizeEpoch
    && after.mem.workerInjectFailed == w.mem.workerInjectFailed
    && after.mem.workerFinalizing == w.mem.workerHandle.Some?
  }

  predicate IsNewCall(w: World, interrupt: bool, restart: bool, t: StopCall) {
    && t.hadActiveHandle == w.mem.workerHandle.Some?
    && t.pc == (if t.hadActiveHandle then StopClosing else StopResuming(Noop))
    && t.session == w.mem.workerSessionSeq && t.epoch == w.mem.workerFinalizeEpoch
    && t.interrupt == interrupt && t.restart == restart
  }

  lemma CallOnWorkerMoves(w: World, interrupt: bool, restart: bool)
    requires !w.mem.workerFinalizing && w.mem.workerHandle.Some?
    ensures CallMoved(w, interrupt, restart, StopWorker(w, interrupt, restart))
  {
    var t := StopCall(StopClosing, true, w.mem.workerSessionSeq, w.mem.workerFinalizeEpoch, interrupt, restart);
    assert StopWorker(w, interrupt, restart).stops == w.stops + [t];
  }

  lemma CallOnNothingMoves(w: World, interrupt: bool, restart: bool)
    requires !w.mem.workerFinalizing && w.mem.workerHandle.None?
    ensures CallMoved(w, interrupt, restart, StopWorker(w, interrupt, restart))
  {
    var t := StopCall(StopResuming(Noop), false, w.mem.workerSessionSeq, w.mem.workerFinalizeEpoch, interrupt, restart);
    assert StopWorker(w, interrupt, restart).stops == w.stops + [t];
  }

  lemma CallMoves(w: World, interrupt: bool, restart: bool)
    ensures var after := StopWorker(w, interrupt, restart);
      if w.mem.workerFinalizing then after == w else CallMoved(w, interrupt, restart, after)
  {
    if w.mem.workerFinalizing {
    } else if w.mem.workerHandle.Some? {
      CallOnWorkerMoves(w, interrupt, restart);
    } else {
      CallOnNothingMoves(w, interrupt, restart);
    }
  }

  // ---- finalizeWorker ----

  predicate FinAdvances(h: HostPc, k: HostPc, current: nat) {
    match h
    case FinClosing(o) =>
      || k == FinDone(o)
      || (o.epoch == current && k.FinEvaluating? && k.owner == o && !IsInternal(k.reason))
      || (o.epoch == current && k.FinTail? && k.owner == o && IsInternal(k.reason))
    case FinEvaluating(o, r) => k == if o.epoch == current then FinEnqueuing(o, r) else FinDone(o)
    case FinEnqueuing(o, r) => k.FinEnqueued? && k.owner == o && k.reason == r
    case FinEnqueued(o, r, _) => k == if o.epoch == current then FinTail(o, r) else FinDone(o)
    case FinTail(o, r) => k == if o.injectFailed then FinCapturePeeking(o, r) else FinChecking(o, r)
    case FinCapturePeeking(o, r) => k.FinCapturing? && k.owner == o && k.reason == r
    case FinCapturing(o, r, _) => k == FinChecking(o, r)
    case FinChecking(o, r) => k == if o.epoch == current then FinAppending(o, r) else FinDone(o)
    case FinAppending(o, r) => k == FinDone(o)
    case FinDone(o) => k.Idle?
    case _ => false
  }

  predicate FinMoved(w: World, after: World) {
    && InFinalize(w.host) && after.stops == w.stops && after.cleaner == w.cleaner && after.bootEnds == w.bootEnds
    && FinAdvances(w.host, after.host, w.mem.workerFinalizeEpoch)
    && after.mem.workerSessionSeq == w.mem.workerSessionSeq
    && after.mem.workerFinalizeEpoch == w.mem.workerFinalizeEpoch
    && after.mem.workerFinalizing ==
         (w.mem.workerFinalizing && !(w.host.FinDone? && w.host.owner.epoch == w.mem.workerFinalizeEpoch))
    && (if w.host.FinClosing? && !after.host.FinDone? then after.mem.workerHandle.None? && !after.mem.workerInjectFailed
        else after.mem.workerHandle == w.mem.workerHandle && after.mem.workerInjectFailed == w.mem.workerInjectFailed)
  }

  lemma CloseMoves(w: World, ok: bool, watchdog: Option<ExitReason>, intent: Option<ExitReason>, endReason: SessionEndReason)
    ensures var after := FinClose(w, ok, watchdog, intent, endReason); after == w || FinMoved(w, after)
  {}

  lemma EnqueueMoves(w: World, ok: bool, key: Key)
    ensures FinEvaluate(w) == w || FinMoved(w, FinEvaluate(w))
    ensures FinEnqueue(w, ok, key) == w || FinMoved(w, FinEnqueue(w, ok, key))
  {}

  lemma AnnounceMoves(w: World)
    ensures FinAnnounce(w) == w || FinMoved(w, FinAnnounce(w))
  {
    if w.host.FinEnqueued? { AnnouncementTouches(w.mem, w.host.reason, w.host.enqueued); }
  }

  lemma AnnouncementTouches(m: Memory, reason: ExitReason, enqueued: bool)
    ensures var after := EndAnnounced(m, reason, enqueued);
      && after.workerSessionSeq == m.workerSessionSeq && after.workerFinalizeEpoch == m.workerFinalizeEpoch
      && after.workerFinalizing == m.workerFinalizing && after.workerHandle == m.workerHandle
      && after.workerInjectFailed == m.workerInjectFailed
  {
    if enqueued {
      if IsActiveExit(reason) {} else {}
    }
  }

  lemma TailMoves(w: World, ok: bool)
    ensures FinLeaveTail(w) == w || FinMoved(w, FinLeaveTail(w))
    ensures FinPeek(w, ok) == w || FinMoved(w, FinPeek(w, ok))
    ensures FinCapture(w) == w || FinMoved(w, FinCapture(w))
  {}

  lemma RecordMoves(w: World, ok: bool)
    ensures FinCheck(w) == w || FinMoved(w, FinCheck(w))
    ensures FinAppendEnded(w, ok) == w || FinMoved(w, FinAppendEnded(w, ok))
    ensures FinRelease(w) == w || FinMoved(w, FinRelease(w))
  {}

  lemma FinMoves(w: World, a: FinalizeAction)
    ensures StepFinalize(w, a) == w || FinMoved(w, StepFinalize(w, a))
  {
    match a
    case ClosesWorker(ok, watchdog, intent, endReason) => CloseMoves(w, ok, watchdog, intent, endReason);
    case Evaluates => EnqueueMoves(w, true, Key(0, 0));
    case EnqueuesEnd(ok, key) => EnqueueMoves(w, ok, key);
    case AnnouncesEnd => AnnounceMoves(w);
    case LeavesTail => TailMoves(w, true);
    case PeeksInbox(ok) => TailMoves(w, ok);
    case CapturesBaseline => TailMoves(w, true);
    case ChecksEpoch => RecordMoves(w, true);
    case WritesEnded(readable) => RecordMoves(w, readable);
    case ReleasesGuard => RecordMoves(w, true);
  }

  // ---- the tick ----

  /** The tick loop is starting a worker that has no handle yet. */
  predicate InStart(h: HostPc) {
    h.Allocating? || h.Starting? || h.Spawning? || h.Aborting? || h.StartFailed? || h.CapturePeeking? || h.Capturing?
  }

  /** The tick loop enters the closeout of the worker that is active. */
  predicate EntersFinalize(w: World, after: World) {
    && w.host.Monitoring? && after.host.FinClosing?
    && !w.mem.workerFinalizing && after.mem.workerFinalizing && w.mem.workerHandle.Some?
    && after.host.owner.epoch == w.mem.workerFinalizeEpoch
    && w.mem.workerSessionSeq == Some(after.host.owner.session)
    && after.host.owner.injectFailed == w.mem.workerInjectFailed
  }

  predicate TickMoved(w: World, after: World) {
    && !InFinalize(w.host) && after.stops == w.stops && after.bootEnds == w.bootEnds && !after.host.Down?
    && after.mem.workerFinalizeEpoch == w.mem.workerFinalizeEpoch
    && (w.host.Idle? ==> w.cleaner.NotCleaning?)
    && (after.cleaner == w.cleaner || (w.host.Starting? && after.host.Idle? && after.cleaner.Waiting?))
    && (if InFinalize(after.host) then EntersFinalize(w, after) else after.mem.workerFinalizing == w.mem.workerFinalizing)
    && (InStart(after.host) ==> InStart(w.host) || (w.host.Reconciling? && w.mem.workerHandle.None?))
    && (after.host.Spawning? ==> w.host == Starting(after.host.session))
    && (after.host.Aborting? ==> w.host == Spawning(after.host.session))
    && (w.host.Spawning? ==> after.host.Injecting? || after.host == Aborting(w.host.session))
    && (if w.host.Spawning? && after.host.Injecting?
        then after.mem.workerHandle == after.mem.workerSessionSeq == Some(w.host.session)
        else after.mem.workerHandle == w.mem.workerHandle && after.mem.workerSessionSeq == w.mem.workerSessionSeq)
  }

  lemma GateMoves(w: World, b: bool)
    ensures HostTick(w) == w || TickMoved(w, HostTick(w))
    ensures HostPeek(w, b) == w || TickMoved(w, HostPeek(w, b))
    ensures HostGate(w, b) == w || TickMoved(w, HostGate(w, b))
  {}

  lemma ReconcileMoves(w: World, b: bool)
    ensures HostReconcile(w) == w || TickMoved(w, HostReconcile(w))
    ensures HostAllocate(w, b) == w || TickMoved(w, HostAllocate(w, b))
    ensures HostMonitor(w, b) == w || TickMoved(w, HostMonitor(w, b))
  {}

  lemma StartMoves(w: World, b: bool)
    ensures HostAppendStarted(w, b) == w || TickMoved(w, HostAppendStarted(w, b))
    ensures HostSpawn(w, b) == w || TickMoved(w, HostSpawn(w, b))
    ensures HostAppendAborted(w, b) == w || TickMoved(w, HostAppendAborted(w, b))
  {}

  lemma InjectMoves(w: World, b: bool)
    ensures HostInject(w, b) == w || TickMoved(w, HostInject(w, b))
    ensures HostStartDone(w) == w || TickMoved(w, HostStartDone(w))
  {}

  lemma FailureMoves(w: World)
    ensures HostStartFailed(w) == w || TickMoved(w, HostStartFailed(w))
    ensures HostCapture(w) == w || TickMoved(w, HostCapture(w))
  {}

  lemma TickMoves(w: World, a: TickAction)
    ensures StepTick(w, a) == w || TickMoved(w, StepTick(w, a))
  {
    match a
    case Ticks => GateMoves(w, true);
    case Peeks(ok) => GateMoves(w, ok);
    case PassesGate(metaIdle) => GateMoves(w, metaIdle);
    case Reconciles => ReconcileMoves(w, true);
    case Allocates(ok) => ReconcileMoves(w, ok);
    case WritesStarted(ok) => StartMoves(w, ok);
    case Spawns(ok) => StartMoves(w, ok);
    case WritesAborted(readable) => StartMoves(w, readable);
    case Injects(ok) => InjectMoves(w, ok);
    case CompletesStart => InjectMoves(w, true);
    case AbandonsStart => FailureMoves(w);
    case Captures => FailureMoves(w);
    case Monitors(ended) => ReconcileMoves(w, ended);
  }

  // ---- everything else but cleanup and stop calls ----

  predicate IsSurrounding(a: Action) {
    !a.TickDoes? && !a.FinalizeDoes? && !a.StopDoes? && !a.CleanupDoes? && !a.StopWorkerCalled?
  }

  /** A restart, or a change that concerns no closeout. */
  predicate SurroundingMoved(w: World, after: World) {
    if Live(w) then
      && after.host == w.host && after.stops == w.stops && after.cleaner == w.cleaner && after.bootEnds == w.bootEnds
      && after.mem.workerHandle == w.mem.workerHandle && after.mem.workerSessionSeq == w.mem.workerSessionSeq
      && after.mem.workerFinalizeEpoch == w.mem.workerFinalizeEpoch
      && after.mem.workerFinalizing == w.mem.workerFinalizing
      && after.mem.workerInjectFailed == w.mem.workerInjectFailed
    else
      && after.host.Idle? && after.stops == [] && after.cleaner.NotCleaning?
      && after.mem.workerHandle.None? && !after.mem.workerFinalizing
  }

  lemma StartCallMoves(w: World)
    requires Live(w)
    ensures SurroundingMoved(w, StartWorker(w))
  {}

  lemma SignalMoves(w: World, signal: Signal)
    requires Live(w)
    ensures SurroundingMoved(w, SendSignal(w, signal))
  {}

  lemma BootMoves(w: World, running: bool, o: Outcome)
    requires !Live(w)
    ensures SurroundingMoved(w, Boot(w, running, o))
  {}

  lemma SurroundingMoves(w: World, a: Action)
    requires IsSurrounding(a) && Live(Step(w, a))
    ensures SurroundingMoved(w, Step(w, a))
  {
    match a
    case StartWorkerCalled => if Live(w) { StartCallMoves(w); }
    case Instructed(_) =>
    case InstructionsRead(_) =>
    case SignalSent(signal) => if Live(w) { SignalMoves(w, signal); }
    case CounterSpoiled =>
    case Crashed =>
    case Booted(running, o) => if !Live(w) { BootMoves(w, running, o); }
    case BootCrashed(_) =>
  }

  // ---- what a thread leaves alone ----

  /** Only a record that lands changes the log. */
  lemma StopLeavesLog(w: World, i: nat, a: StopAction)
    requires !a.Appends?
    ensures StepStop(w, i, a).disk.store.log == w.disk.store.log
  {
    match a
    case KillReturns(_) =>
    case Resumes =>
    case Enqueues(_, _) =>
    case Checks =>
    case Continues =>
    case Releases =>
  }

  lemma StopLeavesEnds(w: World, i: nat, a: StopAction)
    requires !a.Enqueues?
    ensures StepStop(w, i, a).disk.store.ends == w.disk.store.ends
  {
    match a
    case KillReturns(_) =>
    case Resumes =>
    case Checks =>
    case Appends(_) =>
    case Continues =>
    case Releases =>
  }

  lemma FinalizeLeavesLog(w: World, a: FinalizeAction)
    requires !(a.WritesEnded? && w.host.FinAppending?)
    ensures StepFinalize(w, a).disk.store.log == w.disk.store.log
  {
    match a
    case ClosesWorker(_, _, _, _) =>
    case Evaluates =>
    case EnqueuesEnd(_, _) =>
    case AnnouncesEnd =>
    case LeavesTail =>
    case PeeksInbox(_) =>
    case CapturesBaseline =>
    case ChecksEpoch =>
    case WritesEnded(_) =>
    case ReleasesGuard =>
  }

  lemma FinalizeLeavesEnds(w: World, a: FinalizeAction)
    requires !(a.EnqueuesEnd? && w.host.FinEnqueuing?)
    ensures StepFinalize(w, a).disk.store.ends == w.disk.store.ends
  {
    match a
    case ClosesWorker(_, _, _, _) =>
    case Evaluates =>
    case EnqueuesEnd(_, _) =>
    case AnnouncesEnd =>
    case LeavesTail =>
    case PeeksInbox(_) =>
    case CapturesBaseline =>
    case ChecksEpoch =>
    case WritesEnded(_) =>
    case ReleasesGuard =>
  }
}
