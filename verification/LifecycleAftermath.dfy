/** What the threads can still do after cleanup has taken over, later stop calls included. */
module LifecycleAftermath {
  import opened Prelude
  import opened Events
  import opened Sessions
  import opened Recovery
  import opened Daemon
  import opened Lifecycle
  import opened LifecycleMoves
  import opened LifecycleOwners
  import opened LifecycleFence
  import opened LifecyclePairing
  import opened LifecycleTraces

  // ---- a stale owner begins no write ----

  /** A stop call of an earlier epoch. */
  predicate IsStale(w: World, i: nat) {
    i < |w.stops| && w.stops[i].epoch < w.mem.workerFinalizeEpoch
  }

  predicate StopAnnounces(w: World, i: nat) {
    i < |w.stops| && w.stops[i].pc.StopEnqueuing?
  }

  predicate StopRecords(w: World, i: nat) {
    i < |w.stops| && w.stops[i].pc.StopAppending?
  }

  /** It stays stale, and a write that it is not in the middle of never begins. */
  predicate StopStaysOut(w: World, i: nat, after: World) {
    && i < |w.stops| && IsStale(after, i) && after.stops[i].session == w.stops[i].session
    && (StopAnnounces(after, i) ==> StopAnnounces(w, i))
    && (StopRecords(after, i) ==> StopRecords(w, i))
  }

  predicate StopsAreLeft(w: World, after: World) {
    w.stops <= after.stops && after.mem.workerFinalizeEpoch >= w.mem.workerFinalizeEpoch
  }

  lemma LeftStopsStayOut(w: World, i: nat, after: World)
    requires IsStale(w, i) && StopsAreLeft(w, after)
    ensures StopStaysOut(w, i, after)
  {}

  lemma StaleStopMoves(w: World, i: nat, j: nat, a: StopAction)
    requires IsStale(w, i)
    ensures StopStaysOut(w, i, StepStop(w, j, a))
  {
    StopMoves(w, j, a);
  }

  lemma TickLeavesStops(w: World, a: TickAction)
    ensures StopsAreLeft(w, StepTick(w, a))
  {
    TickMoves(w, a);
  }

  lemma FinalizeLeavesStops(w: World, a: FinalizeAction)
    ensures StopsAreLeft(w, StepFinalize(w, a))
  {
    FinMoves(w, a);
  }

  lemma CallLeavesStops(w: World, interrupt: bool, restart: bool)
    ensures StopsAreLeft(w, StopWorker(w, interrupt, restart))
  {
    CallMoves(w, interrupt, restart);
  }

  lemma CleanupLeavesStops(w: World, a: CleanupAction)
    ensures StopsAreLeft(w, StepCleanup(w, a))
  {
    match a
    case Begins =>
    case TakesOver =>
    case Scans =>
    case Backfills(_) =>
    case Finishes =>
  }

  lemma OthersLeaveStops(w: World, a: Action)
    requires IsOfProcess(a) && !a.StopDoes?
    ensures StopsAreLeft(w, Step(w, a))
  {
    match a
    case TickDoes(t) => TickLeavesStops(w, t);
    case FinalizeDoes(f) => FinalizeLeavesStops(w, f);
    case StopWorkerCalled(interrupt, restart) => CallLeavesStops(w, interrupt, restart);
    case CleanupDoes(c) => CleanupLeavesStops(w, c);
    case _ =>
  }

  lemma StaleStopStep(w: World, i: nat, a: Action)
    requires IsStale(w, i) && IsOfProcess(a)
    ensures StopStaysOut(w, i, Step(w, a))
  {
    if a.StopDoes? {
      StaleStopMoves(w, i, a.i, a.stop);
    } else {
      OthersLeaveStops(w, a);
      LeftStopsStayOut(w, i, Step(w, a));
    }
  }

  /** Once the epoch has moved on, a stop call begins no announcement and no record, whatever the
      process does, other stop calls included. */
  lemma {:induction false} StaleStopWritesNothing(w: World, i: nat, actions: seq<Action>)
    requires IsStale(w, i) && forall k :: 0 <= k < |actions| ==> IsOfProcess(actions[k])
    ensures StopStaysOut(w, i, Run(w, actions))
  {
    if actions != [] {
      var n := |actions| - 1;
      StaleStopWritesNothing(w, i, actions[..n]);
      StaleStopStep(Run(w, actions[..n]), i, actions[n]);
    }
  }

  /** `finalizeWorker` is past a takeover, or over. */
  predicate HostIsStale(w: World) {
    && PastTakeover(w)
    && (w.host.Idle? || (InFinalize(w.host) && w.host.owner.epoch < w.mem.workerFinalizeEpoch))
  }

  predicate HostStaysOut(w: World, after: World) {
    && HostIsStale(after)
    && (after.host.FinEnqueuing? ==> w.host.FinEnqueuing?)
    && (after.host.FinAppending? ==> w.host.FinAppending?)
  }

  lemma CleanupStays(w: World, a: CleanupAction)
    requires PastTakeover(w)
    ensures var after := StepCleanup(w, a);
      PastTakeover(after) && after.host == w.host && after.mem.workerFinalizeEpoch == w.mem.workerFinalizeEpoch
      && after.mem.workerFinalizing == w.mem.workerFinalizing && after.stops == w.stops
      && after.disk.store.ends == w.disk.store.ends
      && (after.mem.workerHandle == w.mem.workerHandle || after.mem.workerHandle.None?)
  {
    match a
    case Begins =>
    case TakesOver =>
    case Scans =>
    case Backfills(_) =>
    case Finishes =>
  }

  lemma StaleHostStep(w: World, a: Action)
    requires HostIsStale(w) && IsOfProcess(a)
    ensures HostStaysOut(w, Step(w, a))
  {
    match a
    case TickDoes(t) => TickMoves(w, t);
    case FinalizeDoes(f) => FinMoves(w, f);
    case StopDoes(j, s) => StopMoves(w, j, s);
    case StopWorkerCalled(interrupt, restart) => CallMoves(w, interrupt, restart);
    case CleanupDoes(c) => CleanupStays(w, c);
    case _ =>
  }

  /** The same of `finalizeWorker`: no tick closes a worker any more, and the closeout that the
      takeover superseded begins no announcement and no record. */
  lemma {:induction false} StaleFinalizeWritesNothing(w: World, actions: seq<Action>)
    requires HostIsStale(w) && forall k :: 0 <= k < |actions| ==> IsOfProcess(actions[k])
    ensures HostStaysOut(w, Run(w, actions))
  {
    if actions != [] {
      var n := |actions| - 1;
      StaleFinalizeWritesNothing(w, actions[..n]);
      StaleHostStep(Run(w, actions[..n]), actions[n]);
    }
  }

  predicate OfProcess(actions: seq<Action>) {
    forall k :: 0 <= k < |actions| ==> IsOfProcess(actions[k])
  }

  /** From a new task on: whoever owned a closeout when cleanup took over begins no write after that. */
  lemma OvertakenOwnersWriteNothing(before: seq<Action>, after: seq<Action>, i: nat)
    requires var w := Run(NewTask, before); Live(w) && w.cleaner.Waiting? && OfProcess(after)
    ensures var w := TakeOver(Run(NewTask, before));
      && HostStaysOut(w, Run(w, after))
      && (i < |w.stops| && Owns(w.stops[i]) ==> StopStaysOut(w, i, Run(w, after)))
  {
    var w := Run(NewTask, before);
    OneAnnouncementPerSession(before);
    assert HostIsStale(TakeOver(w));
    StaleFinalizeWritesNothing(TakeOver(w), after);
    if i < |w.stops| && Owns(w.stops[i]) { StaleStopWritesNothing(TakeOver(w), i, after); }
  }

  // ---- who can still announce an end ----

  predicate SomeStopOwns(w: World) {
    exists i :: 0 <= i < |w.stops| && Owns(w.stops[i])
  }

  /** Nothing announces an end: no worker is there to be closed, or the guard is held for good. */
  predicate IsSilent(w: World) {
    && HostIsStale(w) && !EndUnderWay(w)
    && (forall i :: 0 <= i < |w.stops| ==> StopIsShaped(w.stops[i]))
    && (forall i :: 0 <= i < |w.stops| && Owns(w.stops[i]) ==> IsStale(w, i))
    && (w.mem.workerHandle.None? || (w.mem.workerFinalizing && !SomeStopOwns(w)))
  }

  lemma SilentStopMoves(w: World, i: nat, after: World)
    requires IsSilent(w) && StopMoved(w, i, after)
    ensures IsSilent(after)
  {
    assert StopIsShaped(w.stops[i]);
    assert forall j :: 0 <= j < |w.stops| && j != i ==> after.stops[j] == w.stops[j];
    if SomeStopOwns(after) {
      var j :| 0 <= j < |after.stops| && Owns(after.stops[j]);
      assert Owns(w.stops[j]);
    }
  }

  lemma SilentStop(w: World, i: nat, a: StopAction)
    requires IsSilent(w)
    ensures IsSilent(StepStop(w, i, a)) && StepStop(w, i, a).disk.store.ends == w.disk.store.ends
  {
    StopMoves(w, i, a);
    if StepStop(w, i, a) != w { SilentStopMoves(w, i, StepStop(w, i, a)); }
    StopAnnouncesNothing(w, i, a);
  }

  lemma SilentFinalize(w: World, a: FinalizeAction)
    requires IsSilent(w)
    ensures IsSilent(StepFinalize(w, a)) && StepFinalize(w, a).disk.store.ends == w.disk.store.ends
  {
    FinMoves(w, a);
    FinalizeLeavesEnds(w, a);
    if StepFinalize(w, a) != w {
      assert StepFinalize(w, a).stops == w.stops;
    }
  }

  lemma SilentTick(w: World, a: TickAction)
    requires IsSilent(w)
    ensures StepTick(w, a) == w
  {
    TickMoves(w, a);
  }

  lemma SilentCall(w: World, interrupt: bool, restart: bool)
    requires IsSilent(w)
    ensures IsSilent(StopWorker(w, interrupt, restart))
    ensures StopWorker(w, interrupt, restart).disk == w.disk
  {
    CallMoves(w, interrupt, restart);
    if !w.mem.workerFinalizing {
      assert w.mem.workerHandle.None?;
    }
  }

  lemma SilentCleanup(w: World, a: CleanupAction)
    requires IsSilent(w)
    ensures IsSilent(StepCleanup(w, a)) && StepCleanup(w, a).disk.store.ends == w.disk.store.ends
  {
    CleanupStays(w, a);
  }

  lemma SilentStep(w: World, a: Action)
    requires IsSilent(w) && IsOfProcess(a)
    ensures IsSilent(Step(w, a)) && Step(w, a).disk.store.ends == w.disk.store.ends
  {
    match a
    case TickDoes(t) => SilentTick(w, t);
    case FinalizeDoes(f) => SilentFinalize(w, f);
    case StopDoes(i, s) => SilentStop(w, i, s);
    case StopWorkerCalled(interrupt, restart) => SilentCall(w, interrupt, restart);
    case CleanupDoes(c) => SilentCleanup(w, c);
    case _ =>
  }

  lemma {:induction false} SilentStays(w: World, actions: seq<Action>)
    requires IsSilent(w) && OfProcess(actions)
    ensures IsSilent(Run(w, actions)) && Run(w, actions).disk.store.ends == w.disk.store.ends
  {
    if actions != [] {
      var n := |actions| - 1;
      SilentStays(w, actions[..n]);
      SilentStep(Run(w, actions[..n]), actions[n]);
    }
  }

  // ---- an overtaken stop call lets go of the guard ----

  /** Stop call `i` was overtaken, and it is not in the middle of an announcement. */
  predicate IsOvertaken(w: World, i: nat) {
    && Live(w) && w.cleaner.Taken? && IsStale(w, i)
    && w.stops[i].hadActiveHandle && w.stops[i].session.Some? && StopIsShaped(w.stops[i])
    && !w.stops[i].pc.StopEnqueuing?
  }

  function StepsLeft(pc: StopPc): nat {
    match pc
    case StopClosing => 6
    case StopResuming(_) => 5
    case StopEnqueuing => 5
    case StopEnqueued => 4
    case StopAppending => 3
    case StopContinuing => 2
    case StopReleasing => 1
    case StopDone => 0
  }

  function NextOf(pc: StopPc): StopAction {
    match pc
    case StopClosing => KillReturns(false)
    case StopResuming(_) => Resumes
    case StopEnqueuing => Enqueues(true, Key(0, 0))
    case StopEnqueued => Checks
    case StopAppending => Appends(true)
    case StopContinuing => Continues
    case StopReleasing => Releases
    case StopDone => Releases
  }

  /** The worker, the epoch and cleanup are as before. */
  predicate SameWorker(w: World, after: World) {
    && Live(after) && after.cleaner == w.cleaner && |after.stops| == |w.stops|
    && after.mem.workerHandle == w.mem.workerHandle && after.mem.workerSessionSeq == w.mem.workerSessionSeq
    && after.mem.workerFinalizeEpoch == w.mem.workerFinalizeEpoch && after.disk.store.ends == w.disk.store.ends
  }

  lemma OvertakenIsReady(w: World, i: nat)
    requires IsOvertaken(w, i) && !w.stops[i].pc.StopDone?
    ensures StepStop(w, i, NextOf(w.stops[i].pc)) != w
  {
    var pc := StepStop(w, i, NextOf(w.stops[i].pc)).stops[i].pc;
    match w.stops[i].pc
    case StopClosing => assert pc.StopResuming?;
    case StopResuming(_) => assert pc.StopReleasing?;
    case StopEnqueued => assert pc.StopContinuing?;
    case StopAppending => assert pc.StopContinuing?;
    case StopContinuing => assert pc.StopReleasing?;
    case StopReleasing => assert pc.StopDone?;
  }

  lemma OvertakenMoves(w: World, i: nat, after: World)
    requires IsOvertaken(w, i) && !w.stops[i].pc.StopDone? && StopMoved(w, i, after)
    requires after.disk.store.ends == w.disk.store.ends
    ensures IsOvertaken(after, i) && SameWorker(w, after)
    ensures StepsLeft(after.stops[i].pc) < StepsLeft(w.stops[i].pc)
    ensures after.stops[i].pc.StopDone? ==> !after.mem.workerFinalizing
  {}

  /** It can go on until it has let go of the guard, with everything else as it was. */
  lemma {:induction false} OvertakenLetsGo(w: World, i: nat) returns (actions: seq<Action>, after: World)
    requires IsOvertaken(w, i) && !w.stops[i].pc.StopDone?
    ensures OfProcess(actions) && after == Run(w, actions) && SameWorker(w, after) && !after.mem.workerFinalizing
    decreases StepsLeft(w.stops[i].pc)
  {
    var a := NextOf(w.stops[i].pc);
    var next := Step(w, StopDoes(i, a));
    OvertakenIsReady(w, i);
    StopMoves(w, i, a);
    StopLeavesEnds(w, i, a);
    OvertakenMoves(w, i, next);
    RunOne(w, StopDoes(i, a));
    actions, after := [StopDoes(i, a)], next;
    if !next.stops[i].pc.StopDone? {
      var more;
      more, after := OvertakenLetsGo(next, i);
      actions := Glue(w, actions, next, more, after);
    }
  }

  /** With the guard free and a worker there, a new stop call closes the worker ... */
  lemma NewCallClears(w: World) returns (actions: seq<Action>, after: World)
    requires Live(w) && w.cleaner.Taken? && !w.mem.workerFinalizing
    requires w.mem.workerHandle.Some? && w.mem.workerSessionSeq == w.mem.workerHandle
    ensures OfProcess(actions) && after == Run(w, actions) && Live(after) && after.disk == w.disk
    ensures |after.stops| == |w.stops| + 1
    ensures after.stops[|w.stops|].pc.StopEnqueuing? && after.stops[|w.stops|].session == w.mem.workerHandle
  {
    var i := |w.stops|;
    var w1 := Step(w, StopWorkerCalled(false, false));
    var w2 := Step(w1, StopDoes(i, KillReturns(true)));
    after := Step(w2, StopDoes(i, Resumes));
    actions := [StopWorkerCalled(false, false), StopDoes(i, KillReturns(true)), StopDoes(i, Resumes)];
    RunThree(w, actions[0], actions[1], actions[2]);
  }

  /** ... and announces its end. */
  lemma NewCallAnnounces(w: World) returns (actions: seq<Action>)
    requires Live(w) && w.cleaner.Taken? && !w.mem.workerFinalizing
    requires w.mem.workerHandle.Some? && w.mem.workerSessionSeq == w.mem.workerHandle
    ensures OfProcess(actions) && |Run(w, actions).disk.store.ends| == |w.disk.store.ends| + 1
  {
    var first, cleared := NewCallClears(w);
    var a := StopDoes(|w.stops|, Enqueues(true, Key(0, 0)));
    actions := Then(w, first, cleared, a);
  }

  // ---- exactly when an end can be announced after the takeover ----

  ghost predicate CanAnnounce(w: World) {
    exists actions: seq<Action> :: OfProcess(actions) && |Run(w, actions).disk.store.ends| > |w.disk.store.ends|
  }

  lemma UnderWayAnnounces(w: World)
    requires Live(w) && EndUnderWay(w)
    requires forall i :: 0 <= i < |w.stops| && w.stops[i].pc.StopEnqueuing? ==> w.stops[i].session.Some?
    ensures CanAnnounce(w)
  {
    var a := FinalizeDoes(EnqueuesEnd(true, Key(0, 0)));
    if !w.host.FinEnqueuing? {
      var i :| 0 <= i < |w.stops| && w.stops[i].pc.StopEnqueuing?;
      a := StopDoes(i, Enqueues(true, Key(0, 0)));
    }
    RunOne(w, a);
    assert OfProcess([a]) && |Run(w, [a]).disk.store.ends| > |w.disk.store.ends|;
  }

  lemma OwnerAnnounces(w: World, i: nat)
    requires OneOwner(w) && HandleSound(w) && OwnersCurrent(w) && Live(w) && w.cleaner.Waiting? && !EndUnderWay(w)
    requires i < |w.stops| && Owns(w.stops[i]) && w.mem.workerHandle.Some?
    ensures CanAnnounce(TakeOver(w))
  {
    var taken := TakeOver(w);
    assert StopIsShaped(w.stops[i]) && IsOvertaken(taken, i);
    var first, free := OvertakenLetsGo(taken, i);
    var second := NewCallAnnounces(free);
    var all := Glue(taken, first, free, second, Run(free, second));
    assert OfProcess(all);
  }

  lemma OthersAreSilent(w: World)
    requires OneOwner(w) && HandleSound(w) && OwnersCurrent(w) && Live(w) && w.cleaner.Waiting? && !EndUnderWay(w)
    requires !SomeStopOwns(w) || w.mem.workerHandle.None?
    ensures IsSilent(TakeOver(w))
  {
    var taken := TakeOver(w);
    assert !EndUnderWay(taken);
    forall i | 0 <= i < |w.stops| && Owns(w.stops[i]) ensures IsStale(taken, i) { assert w.mem.workerFinalizing; }
    if SomeStopOwns(taken) {
      var i :| 0 <= i < |taken.stops| && Owns(taken.stops[i]);
      assert Owns(w.stops[i]);
    }
  }

  /** Once cleanup has taken over, the process can still announce an end if and only if an announcement
      was being written at that moment, or a stop call owned the closeout while a worker was there:
      then that call lets go of the guard, and a later stop call closes the worker. */
  lemma AnnouncesAfterTakeoverIff(before: seq<Action>)
    requires var w := Run(NewTask, before); Live(w) && w.cleaner.Waiting?
    ensures var w := Run(NewTask, before);
      CanAnnounce(TakeOver(w)) <==> EndUnderWay(w) || (SomeStopOwns(w) && w.mem.workerHandle.Some?)
  {
    var w := Run(NewTask, before);
    OneAnnouncementPerSession(before);
    if EndUnderWay(w) {
      forall i | 0 <= i < |w.stops| && w.stops[i].pc.StopEnqueuing? ensures w.stops[i].session.Some? {
        assert StopIsShaped(w.stops[i]);
      }
      assert EndUnderWay(TakeOver(w));
      UnderWayAnnounces(TakeOver(w));
    } else if SomeStopOwns(w) && w.mem.workerHandle.Some? {
      var i :| 0 <= i < |w.stops| && Owns(w.stops[i]);
      OwnerAnnounces(w, i);
    } else {
      OthersAreSilent(w);
      if CanAnnounce(TakeOver(w)) {
        var actions: seq<Action> :|
          OfProcess(actions) && |Run(TakeOver(w), actions).disk.store.ends| > |TakeOver(w).disk.store.ends|;
        SilentStays(TakeOver(w), actions);
      }
    }
  }
}
