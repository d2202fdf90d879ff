/** Between two workers the host always knows what it waits for, so a new instruction from Meta leads
    to a new worker; and the one way in which it can forget. */
module LifecycleNoStall {
  import opened Prelude
  import opened Events
  import opened Sessions
  import opened Recovery
  import opened Daemon
  import opened Lifecycle
  import opened LifecycleLog
  import opened LifecycleMoves
  import opened LifecycleOwners

  /** A start is wanted, or the inbox gate is open. */
  predicate Waits(m: Memory) {
    m.wantWorkerStart || GateIsOpen(m)
  }

  /** The tick loop is about to enter a waiting state. */
  predicate HostWillWait(h: HostPc) {
    || h.CapturePeeking? || h.Capturing?
    || h.FinEvaluating? || h.FinEnqueuing? || h.FinEnqueued?
    || ((h.FinTail? || h.FinCapturePeeking? || h.FinCapturing?) && h.owner.injectFailed)
  }

  /** The stop call has had its effect on the worker and will still set a continuation. */
  predicate WillContinue(t: StopCall) {
    && (t.interrupt || t.restart)
    && (t.pc == StopResuming(Noop) || t.pc == StopResuming(Dispatched) || t.pc.StopEnqueuing? || t.pc.StopEnqueued?
        || t.pc.StopAppending? || t.pc.StopContinuing?)
  }

  predicate SomeStopWillContinue(w: World) {
    exists i :: 0 <= i < |w.stops| && WillContinue(w.stops[i])
  }

  /** A plain stop whose worker is closed but whose handle is not yet cleared. */
  predicate ClosedForGood(t: StopCall) {
    t.pc == StopResuming(Dispatched) && !t.interrupt && !t.restart
  }

  predicate WillWait(w: World) {
    Waits(w.mem) || HostWillWait(w.host) || SomeStopWillContinue(w)
  }

  /** After a worker has run and none is active, the host waits for something or is about to. */
  predicate KnowsWhatItWaitsFor(w: World) {
    && (w.mem.workerSessionSeq.Some? && w.mem.workerHandle.None? ==> WillWait(w))
    && (forall i :: 0 <= i < |w.stops| && ClosedForGood(w.stops[i]) ==> Waits(w.mem))
  }

  /** Before the worker's handle is set, the wish to start it is still there; afterwards its number is. */
  predicate StartIsWanted(w: World) {
    && (w.host.Allocating? || w.host.Starting? || w.host.Spawning? || w.host.Aborting? || w.host.StartFailed? ==>
          w.mem.wantWorkerStart || w.mem.workerSessionSeq.None?)
    && (w.host.Injecting? || w.host.StartDone? ==> w.mem.workerSessionSeq.Some?)
  }

  /** No owner was ever superseded, and no envelope of an end was lost. */
  predicate NothingLost(w: World) {
    && (InFinalize(w.host) ==> w.host.owner.epoch == w.mem.workerFinalizeEpoch)
    && (forall i :: 0 <= i < |w.stops| ==> w.stops[i].epoch == w.mem.workerFinalizeEpoch)
    && (w.host.FinEnqueued? ==> w.host.enqueued)
    && (w.host.FinEvaluating? || w.host.FinEnqueuing? || w.host.FinEnqueued? ==> !w.host.owner.injectFailed)
  }

  predicate Awake(w: World) {
    KnowsWhatItWaitsFor(w) && StartIsWanted(w) && NothingLost(w)
  }

  /** Enqueues succeed, closing a worker never reports a close by the host, no takeover by timeout. */
  predicate Benign(w: World, a: Action) {
    && (a.FinalizeDoes? && a.fin.EnqueuesEnd? ==> a.fin.ok)
    && (a.FinalizeDoes? && a.fin.ClosesWorker? ==>
          a.fin.watchdog.Some? || a.fin.intent.Some? || (!a.fin.endReason.HostClose? && !a.fin.endReason.HostCloseForced?))
    && (a.CleanupDoes? && a.cleanup.TakesOver? ==> !w.mem.workerFinalizing)
  }

  /** `startWorker` returns while the worker it started is already closed or as good as closed by a
      stop call that sets no continuation any more: its flags are about to be wiped. */
  predicate WipesStop(w: World, a: Action) {
    && a == TickDoes(CompletesStart) && w.host.StartDone?
    && ((w.mem.workerHandle.None? && !SomeStopWillContinue(w))
        || exists i :: 0 <= i < |w.stops| && ClosedForGood(w.stops[i]))
  }

  // ---- step by step ----

  lemma SameStops(w: World, after: World)
    requires after.stops == w.stops
    ensures SomeStopWillContinue(after) <==> SomeStopWillContinue(w)
  {
    if SomeStopWillContinue(w) {
      var i :| 0 <= i < |w.stops| && WillContinue(w.stops[i]);
      assert WillContinue(after.stops[i]);
    }
    if SomeStopWillContinue(after) {
      var i :| 0 <= i < |after.stops| && WillContinue(after.stops[i]);
      assert WillContinue(w.stops[i]);
    }
  }

  /** A worker that is closed for good still has its handle, so none is being started. */
  lemma ClosedForGoodHolds(w: World, i: nat)
    requires OneOwner(w) && HandleSound(w) && i < |w.stops| && ClosedForGood(w.stops[i])
    ensures w.mem.workerHandle.Some? && !InStart(w.host)
  {
    assert StopIsShaped(w.stops[i]) && BeforeClear(w.stops[i]);
  }

  lemma TickKeepsAwake(w: World, a: TickAction)
    requires Awake(w) && HandleSound(w) && OneOwner(w) && !a.CompletesStart?
    ensures Awake(StepTick(w, a))
  {
    var after := StepTick(w, a);
    SameStops(w, after);
    TickKeepsWaiting(w, a);
    if after.mem.workerHandle.None? { TickKeepsSession(w, a); }
    TickKeepsWish(w, a);
    forall i | 0 <= i < |after.stops| && ClosedForGood(after.stops[i]) ensures Waits(after.mem) {
      ClosedForGoodHolds(w, i);
    }
  }

  /** A tick gives up a wait only to start a worker, or because starting one failed. */
  lemma TickKeepsWaiting(w: World, a: TickAction)
    requires StartIsWanted(w) && !a.CompletesStart? && (w.mem.workerHandle.Some? ==> !InStart(w.host))
    ensures Waits(w.mem) && !InStart(w.host) ==> Waits(StepTick(w, a).mem)
    ensures Waits(w.mem) || HostWillWait(w.host) ==> Waits(StepTick(w, a).mem) || HostWillWait(StepTick(w, a).host)
  {}

  lemma TickKeepsSession(w: World, a: TickAction)
    requires StepTick(w, a).mem.workerHandle.None?
    ensures StepTick(w, a).mem.workerSessionSeq == w.mem.workerSessionSeq && w.mem.workerHandle.None?
  {
    TickMoves(w, a);
  }

  lemma TickKeepsWish(w: World, a: TickAction)
    requires StartIsWanted(w)
    ensures StartIsWanted(StepTick(w, a))
  {}

  lemma CompletesStartIff(w: World)
    requires Awake(w) && w.host.StartDone?
    ensures Awake(HostStartDone(w)) <==> !WipesStop(w, TickDoes(CompletesStart))
  {
    SameStops(w, HostStartDone(w));
  }

  /** Clearing the handle comes with a promise to wait, and the promise is kept. */
  lemma FinalizeKeepsWaiting(w: World, a: FinalizeAction)
    requires NothingLost(w) && Benign(w, FinalizeDoes(a))
    ensures var after := StepFinalize(w, a);
      && (Waits(w.mem) ==> Waits(after.mem))
      && (HostWillWait(w.host) ==> HostWillWait(after.host) || Waits(after.mem))
      && (after.mem.workerHandle == w.mem.workerHandle || HostWillWait(after.host))
      && after.mem.workerSessionSeq == w.mem.workerSessionSeq
  {
    match a
    case ClosesWorker(_, _, _, _) =>
    case Evaluates =>
    case EnqueuesEnd(_, _) =>
    case AnnouncesEnd =>
    case LeavesTail =>
    case PeeksInbox(_) =>
    case CapturesBaseline =>
    case ChecksEpoch =>
    case WritesEnded(_) =>
    case ReleasesGuard =>
  }

  lemma FinalizeLosesNothing(w: World, a: FinalizeAction)
    requires NothingLost(w) && Benign(w, FinalizeDoes(a))
    ensures var after := StepFinalize(w, a);
      && NothingLost(after) && (InFinalize(w.host) || after.host == w.host)
      && (InFinalize(w.host) ==> InFinalize(after.host) || after.host.Idle?)
  {
    match a
    case ClosesWorker(_, _, _, _) =>
    case Evaluates =>
    case EnqueuesEnd(_, _) =>
    case AnnouncesEnd =>
    case LeavesTail =>
    case PeeksInbox(_) =>
    case CapturesBaseline =>
    case ChecksEpoch =>
    case WritesEnded(_) =>
    case ReleasesGuard =>
  }

  lemma FinalizeKeepsAwake(w: World, a: FinalizeAction)
    requires Awake(w) && Benign(w, FinalizeDoes(a))
    ensures Awake(StepFinalize(w, a))
  {
    SameStops(w, StepFinalize(w, a));
    FinalizeKeepsWaiting(w, a);
    FinalizeLosesNothing(w, a);
  }

  lemma StopKeepsAwake(w: World, i: nat, a: StopAction)
    requires Awake(w) && OneOwner(w) && i < |w.stops|
    ensures Awake(StepStop(w, i, a))
  {
    var after := StepStop(w, i, a);
    StopMove(w, i, a);
    if SomeStopWillContinue(w) {
      var j :| 0 <= j < |w.stops| && WillContinue(w.stops[j]);
      assert j != i ==> WillContinue(after.stops[j]);
      if j == i { assert WillContinue(after.stops[i]) || Waits(after.mem); }
    }
  }

  /** What one stretch of a stop call does to the wait. */
  lemma StopMove(w: World, i: nat, a: StopAction)
    requires i < |w.stops| && StopIsShaped(w.stops[i]) && NothingLost(w)
    requires ClosedForGood(w.stops[i]) ==> Waits(w.mem)
    ensures var after := StepStop(w, i, a);
      && after.host == w.host && |after.stops| == |w.stops|
      && (forall j :: 0 <= j < |w.stops| && j != i ==> after.stops[j] == w.stops[j])
      && after.stops[i].epoch == w.stops[i].epoch && after.mem.workerFinalizeEpoch == w.mem.workerFinalizeEpoch
      && (WillContinue(w.stops[i]) ==> WillContinue(after.stops[i]) || Waits(after.mem))
      && (ClosedForGood(after.stops[i]) ==> Waits(after.mem))
      && (after.mem.wantWorkerStart || !w.mem.wantWorkerStart)
      && after.mem.workerSessionSeq == w.mem.workerSessionSeq
  {}

  lemma NoneIsClosedForGood(w: World)
    requires OneOwner(w) && !w.mem.workerFinalizing
    ensures forall i :: 0 <= i < |w.stops| ==> !ClosedForGood(w.stops[i])
  {
    forall i | 0 <= i < |w.stops| ensures !ClosedForGood(w.stops[i]) {
      assert StopIsShaped(w.stops[i]) && !Owns(w.stops[i]);
    }
  }

  lemma CallKeepsAwake(w: World, interrupt: bool, restart: bool)
    requires Awake(w) && OneOwner(w)
    ensures Awake(StopWorker(w, interrupt, restart))
  {
    var after := StopWorker(w, interrupt, restart);
    if after.stops != w.stops {
      var t := after.stops[|w.stops|];
      if SomeStopWillContinue(w) {
        var j :| 0 <= j < |w.stops| && WillContinue(w.stops[j]);
        assert WillContinue(after.stops[j]);
      }
      assert w.mem.workerHandle.None? ==> WillContinue(t) || Waits(after.mem);
      NoneIsClosedForGood(w);
    }
  }

  lemma OthersKeepAwake(w: World, a: Action)
    requires (Live(w) ==> Awake(w)) && Benign(w, a) && !IsWorkerThread(a) && !a.StopWorkerCalled?
    ensures Live(Step(w, a)) ==> Awake(Step(w, a))
  {
    if Live(w) && Live(Step(w, a)) && !a.Booted? { SameStops(w, Step(w, a)); }
  }

  /** With benign surroundings the host stays awake at every step but one, and forgets what it waits
      for exactly at that one. */
  lemma ForgetsIff(w: World, a: Action)
    requires Live(w) && Sound(w) && Awake(w) && Benign(w, a)
    ensures Live(Step(w, a)) ==> (Awake(Step(w, a)) <==> !WipesStop(w, a))
  {
    match a
    case TickDoes(t) =>
      if t.CompletesStart? {
        if w.host.StartDone? { CompletesStartIff(w); }
      } else {
        TickKeepsAwake(w, t);
      }
    case FinalizeDoes(f) => FinalizeKeepsAwake(w, f);
    case StopDoes(i, s) => if i < |w.stops| { StopKeepsAwake(w, i, s); }
    case StopWorkerCalled(interrupt, restart) => CallKeepsAwake(w, interrupt, restart);
    case _ => OthersKeepAwake(w, a);
  }

  // ---- over runs ----

  /** The tick loop is inside `startWorker`, up to the point where its caller clears the flags. */
  predicate InStartWorker(h: HostPc) {
    h.Allocating? || h.Starting? || h.Spawning? || h.Aborting? || h.Injecting? || h.StartDone?
  }

  /** No stop call arrives while a worker is being started. */
  predicate Polite(w: World, a: Action) {
    a.StopWorkerCalled? ==> !InStartWorker(w.host)
  }

  /** So the worker that is being started cannot be closed before its start has completed. */
  predicate StartUndisturbed(w: World) {
    w.host.Injecting? || w.host.StartDone? ==>
      w.mem.workerHandle.Some? && forall i :: 0 <= i < |w.stops| ==> !BeforeClear(w.stops[i])
  }

  lemma TickKeepsUndisturbed(w: World, a: TickAction)
    requires StartUndisturbed(w) && HandleSound(w)
    ensures StartUndisturbed(StepTick(w, a))
  {
    if w.host.Spawning? {
      forall i | 0 <= i < |w.stops| ensures !BeforeClear(w.stops[i]) { assert w.mem.workerHandle.None?; }
    }
  }

  lemma StopKeepsUndisturbed(w: World, i: nat, a: StopAction)
    requires StartUndisturbed(w) && OneOwner(w)
    ensures StartUndisturbed(StepStop(w, i, a))
  {
    if i < |w.stops| { assert StopIsShaped(w.stops[i]); }
  }

  lemma FinalizeKeepsUndisturbed(w: World, a: FinalizeAction)
    requires StartUndisturbed(w)
    ensures StartUndisturbed(StepFinalize(w, a))
  {}

  lemma StepKeepsUndisturbed(w: World, a: Action)
    requires Sound(w) && (Live(w) ==> StartUndisturbed(w) && OwnersCurrent(w)) && Polite(w, a)
    ensures Live(Step(w, a)) ==> StartUndisturbed(Step(w, a))
  {
    match a
    case TickDoes(t) => if Live(w) { TickKeepsUndisturbed(w, t); }
    case FinalizeDoes(f) => if Live(w) { FinalizeKeepsUndisturbed(w, f); }
    case StopDoes(i, s) => if Live(w) { StopKeepsUndisturbed(w, i, s); }
    case _ =>
  }

  lemma UndisturbedWipesNothing(w: World, a: Action)
    requires StartUndisturbed(w) && OneOwner(w)
    ensures !WipesStop(w, a)
  {
    if w.host.StartDone? {
      forall i | 0 <= i < |w.stops| ensures !ClosedForGood(w.stops[i]) { assert StopIsShaped(w.stops[i]); }
    }
  }

  predicate IsGentle(w: World, actions: seq<Action>) {
    forall k :: 0 <= k < |actions| ==>
      && Benign(Run(w, actions[..k]), actions[k]) && Polite(Run(w, actions[..k]), actions[k])
  }

  lemma GentlePrefix(w: World, actions: seq<Action>, n: nat)
    requires IsGentle(w, actions) && n <= |actions|
    ensures IsGentle(w, actions[..n])
  {
    forall k | 0 <= k < n ensures actions[..n][..k] == actions[..k] {}
  }

  /** In every run in which enqueues succeed, no close is reported as the host's own, no owner is
      superseded and no stop call arrives inside `startWorker`, and through any crashes and restarts:
      once a worker has run and none is active or being closed, the host waits for something. */
  lemma {:induction false} HostStaysAwake(actions: seq<Action>)
    requires IsGentle(NewTask, actions)
    ensures var w := Run(NewTask, actions);
      Sound(w) && (Live(w) ==> Awake(w) && StartUndisturbed(w))
  {
    if actions != [] {
      var n := |actions| - 1;
      var w := Run(NewTask, actions[..n]);
      GentlePrefix(NewTask, actions, n);
      HostStaysAwake(actions[..n]);
      assert Benign(w, actions[n]) && Polite(w, actions[n]);
      StepKeepsSound(w, actions[n]);
      StepKeepsUndisturbed(w, actions[n]);
      if Live(w) {
        UndisturbedWipesNothing(w, actions[n]);
        ForgetsIff(w, actions[n]);
      } else {
        OthersOrDead(w, actions[n]);
      }
    }
  }

  lemma OthersOrDead(w: World, a: Action)
    requires !Live(w) && Benign(w, a)
    ensures Live(Step(w, a)) ==> Awake(Step(w, a))
  {
    if !IsWorkerThread(a) && !a.StopWorkerCalled? { OthersKeepAwake(w, a); }
  }

  // ---- and then an instruction starts a worker ----

  /** The worker's inbox holds an instruction that the gate counts. */
  predicate HasFreshInstruction(w: World) {
    exists id :: id in w.disk.unread && !(w.mem.workerStartFailedPending && w.mem.baseline.Some? && id in w.mem.baseline.value)
  }

  /** From such a state the next tick begins to start a worker. */
  lemma InstructionStartsWorker(w: World, metaIdle: bool)
    requires Live(w) && w.host.Idle? && w.cleaner.NotCleaning? && w.mem.workerHandle.None?
    requires Waits(w.mem) && HasFreshInstruction(w)
    ensures var atGate := StepTick(StepTick(w, Ticks), Peeks(true));
      StepTick(StepTick(atGate, PassesGate(metaIdle)), Reconciles).host.Allocating?
  {
    var id :| id in w.disk.unread && !(w.mem.workerStartFailedPending && w.mem.baseline.Some? && id in w.mem.baseline.value);
    if GateIsOpen(w.mem) { assert IsTrigger(w.mem, w.disk.unread); }
  }

  // ---- the way to forget ----

  /** A worker has run, none is active or on the way, and nothing is waited for. */
  predicate Stalled(w: World) {
    && Live(w) && (w.host.Idle? || w.host.Reconciling? || w.host.Monitoring?)
    && w.mem.workerSessionSeq.Some? && w.mem.workerHandle.None? && !Waits(w.mem)
    && (forall i :: 0 <= i < |w.stops| ==> w.stops[i].pc.StopDone?)
  }

  /** Then no instruction and no tick starts a worker: only another tool call or a restart helps. */
  lemma StalledStays(w: World, a: Action)
    requires Stalled(w) && !a.StartWorkerCalled? && !a.StopWorkerCalled? && !a.Crashed?
    ensures Live(Step(w, a)) ==> Stalled(Step(w, a))
  {
    match a
    case TickDoes(t) => TickStaysStalled(w, t);
    case FinalizeDoes(f) =>
    case StopDoes(i, s) =>
    case _ =>
  }

  lemma TickStaysStalled(w: World, a: TickAction)
    requires Stalled(w)
    ensures Stalled(StepTick(w, a))
  {}
}
