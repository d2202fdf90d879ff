/** Every started worker session gets its end record by the time cleanup is done, with one exception. */
module LifecyclePairing {
  import opened Prelude
  import opened Events
  import opened Sessions
  import opened Recovery
  import opened Daemon
  import opened Lifecycle
  import opened LifecycleLog
  import opened LifecycleMoves
  import opened LifecycleOwners
  import opened LifecycleFence

  /** The part of a finalize up to its record. */
  predicate HostCloses(h: HostPc, n: nat) {
    InFinalize(h) && !h.FinDone? && h.owner.session == n
  }

  /** The part of a stop call up to its record. */
  predicate IsClosing(t: StopCall) {
    && t.hadActiveHandle
    && (t.pc.StopClosing? || t.pc.StopResuming? || t.pc.StopEnqueuing? || t.pc.StopEnqueued? || t.pc.StopAppending?)
  }

  predicate StopCloses(t: StopCall, n: nat) {
    IsClosing(t) && t.session == Some(n)
  }

  predicate SomeStopCloses(w: World, n: nat) {
    exists i :: 0 <= i < |w.stops| && StopCloses(w.stops[i], n)
  }

  predicate CleanupCloses(w: World, n: nat) {
    w.cleaner == CleanAppending(n) || (w.cleaner.Taken? && w.mem.workerSessionSeq == Some(n))
  }

  /** Somebody will still see to the record of session `n`. */
  predicate Responsible(w: World, n: nat) {
    || w.mem.workerHandle == Some(n)
    || w.host == Spawning(n) || w.host == Aborting(n)
    || HostCloses(w.host, n)
    || SomeStopCloses(w, n)
    || CleanupCloses(w, n)
  }

  /** Every unmatched session was already unmatched when the process began, or is looked after, or is
      the one that the takeover left behind. */
  ghost predicate Accounted(w: World, before: set<nat>, late: Option<nat>) {
    forall n: nat :: IsUnmatched(w.disk.store.log, n) ==> n in before || late == Some(n) || Responsible(w, n)
  }

  /** The scans and appends of this action succeed. */
  predicate ScansSucceed(a: Action) {
    && (a.TickDoes? && a.tick.WritesAborted? ==> a.tick.readable)
    && (a.FinalizeDoes? && a.fin.WritesEnded? ==> a.fin.readable)
    && (a.StopDoes? && a.stop.Appends? ==> a.stop.readable)
    && (a.CleanupDoes? && a.cleanup.Backfills? ==> a.cleanup.readable)
  }

  predicate IsOfProcess(a: Action) {
    !a.Crashed? && !a.Booted? && !a.BootCrashed?
  }

  /** After the takeover a stop call closes the retained session, or the one left behind; when cleanup
      is done with the worker, the retained session has its record. */
  predicate LateKnown(w: World, late: Option<nat>) {
    && (PastTakeover(w) ==> LateOnly(w, late))
    && (w.cleaner.CleanFinishing? || w.cleaner.Exited? ==>
          w.mem.workerSessionSeq.None? || w.mem.workerSessionSeq.value in EndedSeqs(w.disk.store.log))
  }

  // ---- step by step ----

  lemma StillResponsible(w: World, after: World, n: nat)
    requires after.stops == w.stops && SomeStopCloses(w, n)
    ensures SomeStopCloses(after, n)
  {
    var i :| 0 <= i < |w.stops| && StopCloses(w.stops[i], n);
    assert StopCloses(after.stops[i], n);
  }

  /** The threads that look after a session do so until its record is written. */
  lemma TickMovedKeepsResponsible(w: World, after: World, n: nat)
    requires Responsible(w, n) && HandleSound(w) && OwnersCurrent(w) && TickMoved(w, after)
    ensures Responsible(after, n) || w.host == Aborting(n)
  {
    if SomeStopCloses(w, n) { StillResponsible(w, after, n); }
  }

  lemma TickKeepsResponsible(w: World, a: TickAction, n: nat)
    requires Responsible(w, n) && HandleSound(w) && OwnersCurrent(w)
    ensures Responsible(StepTick(w, a), n) || w.host == Aborting(n)
  {
    TickMoves(w, a);
    if StepTick(w, a) != w { TickMovedKeepsResponsible(w, StepTick(w, a), n); }
  }

  /** Only the start of a worker makes a session unmatched, and then that start looks after it. */
  lemma TickUnmatched(w: World, a: TickAction, n: nat)
    requires EndsOnce(w.disk.store.log) && IsUnmatched(StepTick(w, a).disk.store.log, n)
    ensures IsUnmatched(w.disk.store.log, n) || StepTick(w, a).host == Spawning(n)
  {
    if a.WritesAborted? && w.host.Aborting? {
      AbortUnmatched(w, a.readable, n);
    } else if a.WritesStarted? && w.host.Starting? {
      StartUnmatched(w, a, n);
    } else {
      TickLeavesLog(w, a);
    }
  }

  lemma AbortUnmatched(w: World, readable: bool, n: nat)
    requires w.host.Aborting? && IsUnmatched(HostAppendAborted(w, readable).disk.store.log, n)
    ensures IsUnmatched(w.disk.store.log, n)
  {
    EndedAfter(w.disk.store.log, w.host.session, HostInternalError, readable);
  }

  lemma StartUnmatched(w: World, a: TickAction, n: nat)
    requires a.WritesStarted? && w.host.Starting? && EndsOnce(w.disk.store.log)
    requires IsUnmatched(StepTick(w, a).disk.store.log, n)
    ensures IsUnmatched(w.disk.store.log, n) || StepTick(w, a).host == Spawning(n)
  {
    PlainKeepsEndsOnce(w.disk.store.log, WorkerStarted(w.host.session));
  }

  lemma TickLeavesLog(w: World, a: TickAction)
    requires !(a.WritesAborted? && w.host.Aborting?) && !(a.WritesStarted? && w.host.Starting?)
    ensures StepTick(w, a).disk.store.log == w.disk.store.log
  {
    match a
    case Ticks =>
    case Peeks(_) =>
    case PassesGate(_) =>
    case Reconciles =>
    case Allocates(_) =>
    case WritesStarted(_) =>
    case Spawns(_) =>
    case WritesAborted(_) =>
    case Injects(_) =>
    case CompletesStart =>
    case AbandonsStart =>
    case Captures =>
    case Monitors(_) =>
  }

  lemma TickAccounts(w: World, a: TickAction, before: set<nat>, late: Option<nat>)
    requires HandleSound(w) && OwnersCurrent(w) && EndsOnce(w.disk.store.log)
    requires Accounted(w, before, late) && (a.WritesAborted? ==> a.readable)
    ensures Accounted(StepTick(w, a), before, late)
  {
    forall n: nat | IsUnmatched(StepTick(w, a).disk.store.log, n)
      ensures n in before || late == Some(n) || Responsible(StepTick(w, a), n)
    {
      TickUnmatched(w, a, n);
      if IsUnmatched(w.disk.store.log, n) && Responsible(w, n) {
        TickKeepsResponsible(w, a, n);
        if w.host == Aborting(n) { AbortedIsEnded(w, a, n); }
      }
    }
  }

  /** A start that is being abandoned stays so until its record is written. */
  lemma AbortedIsEnded(w: World, a: TickAction, n: nat)
    requires w.host == Aborting(n) && (a.WritesAborted? ==> a.readable)
    ensures StepTick(w, a).host == Aborting(n) || n in EndedSeqs(StepTick(w, a).disk.store.log)
  {
    if a.WritesAborted? { EndedAfter(w.disk.store.log, n, HostInternalError, true); }
  }

  /** Cleanup is done with the worker: the retained session has its record. */
  predicate IsBackfilled(w: World, n: nat) {
    w.cleaner.CleanFinishing? && w.mem.workerSessionSeq == Some(n)
  }

  lemma FinMovedKeepsResponsible(w: World, after: World, n: nat)
    requires Responsible(w, n) && HandleSound(w) && OwnersCurrent(w) && Live(w) && FinMoved(w, after)
    ensures Responsible(after, n) || IsBackfilled(w, n) || (w.host.FinAppending? && w.host.owner.session == n)
  {
    if SomeStopCloses(w, n) { StillResponsible(w, after, n); }
  }

  lemma FinalizeKeepsResponsible(w: World, a: FinalizeAction, n: nat)
    requires Responsible(w, n) && HandleSound(w) && OwnersCurrent(w) && Live(w)
    ensures Responsible(StepFinalize(w, a), n) || IsBackfilled(w, n)
         || (a.WritesEnded? && w.host.FinAppending? && w.host.owner.session == n)
  {
    FinMoves(w, a);
    if StepFinalize(w, a) != w {
      FinMovedKeepsResponsible(w, StepFinalize(w, a), n);
      if w.host.FinAppending? { OnlyTheRecordLeaves(w, a); }
    }
  }

  lemma OnlyTheRecordLeaves(w: World, a: FinalizeAction)
    requires w.host.FinAppending? && StepFinalize(w, a) != w
    ensures a.WritesEnded?
  {}

  lemma FinalizeAccounts(w: World, a: FinalizeAction, before: set<nat>, late: Option<nat>)
    requires HandleSound(w) && OwnersCurrent(w) && LateKnown(w, late) && Live(w)
    requires Accounted(w, before, late) && (a.WritesEnded? ==> a.readable)
    ensures Accounted(StepFinalize(w, a), before, late)
  {
    if a.WritesEnded? && w.host.FinAppending? {
      EndedAfter(w.disk.store.log, w.host.owner.session, w.host.reason, true);
    } else {
      FinalizeLeavesLog(w, a);
    }
    forall n: nat | IsUnmatched(StepFinalize(w, a).disk.store.log, n)
      ensures n in before || late == Some(n) || Responsible(StepFinalize(w, a), n)
    {
      assert IsUnmatched(w.disk.store.log, n);
      if Responsible(w, n) { FinalizeKeepsResponsible(w, a, n); }
    }
  }

  /** A stop call passes its session on to nobody but cleanup. */
  lemma StopMovedKeepsResponsible(w: World, i: nat, after: World, n: nat, late: Option<nat>)
    requires Responsible(w, n) && HandleSound(w) && OwnersCurrent(w) && LateKnown(w, late) && Live(w)
    requires OneOwner(w) && StopMoved(w, i, after)
    ensures Responsible(after, n) || late == Some(n) || IsBackfilled(w, n) || AppendsFor(w, i, n)
  {
    assert StopIsShaped(w.stops[i]);
    if SomeStopCloses(w, n) {
      var j :| 0 <= j < |w.stops| && StopCloses(w.stops[j], n);
      if j != i { assert StopCloses(after.stops[j], n); }
      else { assert StopCloses(after.stops[i], n) || !IsClosing(after.stops[i]); }
    }
  }

  lemma StopKeepsResponsible(w: World, i: nat, a: StopAction, n: nat, late: Option<nat>)
    requires Responsible(w, n) && HandleSound(w) && OwnersCurrent(w) && LateKnown(w, late) && Live(w) && OneOwner(w)
    ensures Responsible(StepStop(w, i, a), n) || late == Some(n) || IsBackfilled(w, n) || (a.Appends? && AppendsFor(w, i, n))
  {
    StopMoves(w, i, a);
    if StepStop(w, i, a) != w {
      StopMovedKeepsResponsible(w, i, StepStop(w, i, a), n, late);
      if AppendsFor(w, i, n) { OnlyTheAppendLeaves(w, i, a); }
    }
  }

  lemma OnlyTheAppendLeaves(w: World, i: nat, a: StopAction)
    requires i < |w.stops| && w.stops[i].pc.StopAppending? && StepStop(w, i, a) != w
    ensures a.Appends?
  {}

  predicate AppendsFor(w: World, i: nat, n: nat) {
    i < |w.stops| && w.stops[i].pc.StopAppending? && w.stops[i].session == Some(n)
  }

  lemma StopAppendEnds(w: World, i: nat, readable: bool)
    ensures var before, after := w.disk.store.log, StopAppendEnded(w, i, readable).disk.store.log;
      && StartedSeqs(after) == StartedSeqs(before)
      && (forall n :: n in EndedSeqs(after) <==> (n in EndedSeqs(before) || (readable && AppendsFor(w, i, n))))
  {
    if i < |w.stops| && w.stops[i].session.Some? {
      EndedAfter(w.disk.store.log, w.stops[i].session.value, StopReason(w.stops[i]), readable);
    }
  }

  lemma StopAccounts(w: World, i: nat, a: StopAction, before: set<nat>, late: Option<nat>)
    requires OneOwner(w) && HandleSound(w) && OwnersCurrent(w) && LateKnown(w, late) && Live(w)
    requires Accounted(w, before, late) && (a.Appends? ==> a.readable)
    ensures Accounted(StepStop(w, i, a), before, late)
  {
    if a.Appends? { StopAppendEnds(w, i, true); } else { StopLeavesLog(w, i, a); }
    forall n: nat | IsUnmatched(StepStop(w, i, a).disk.store.log, n)
      ensures n in before || late == Some(n) || Responsible(StepStop(w, i, a), n)
    {
      assert IsUnmatched(w.disk.store.log, n);
      if Responsible(w, n) { StopKeepsResponsible(w, i, a, n, late); }
    }
  }

  /** Cleanup takes the retained session over and gives it its record. */
  lemma CleanupKeepsResponsible(w: World, a: CleanupAction, n: nat)
    requires Responsible(w, n) && HandleSound(w) && OwnersCurrent(w)
    ensures Responsible(StepCleanup(w, a), n) || IsBackfilled(w, n) || (a.Backfills? && w.cleaner == CleanAppending(n))
  {
    if SomeStopCloses(w, n) { StillResponsible(w, StepCleanup(w, a), n); }
  }

  lemma CleanupAccounts(w: World, a: CleanupAction, before: set<nat>, late: Option<nat>)
    requires HandleSound(w) && OwnersCurrent(w) && LateKnown(w, late)
    requires Accounted(w, before, late) && (a.Backfills? ==> a.readable)
    ensures Accounted(StepCleanup(w, a), before, late)
  {
    if a.Backfills? && w.cleaner.CleanAppending? {
      EndedAfter(w.disk.store.log, w.cleaner.session, HostShutdown, true);
    }
    forall n: nat | IsUnmatched(StepCleanup(w, a).disk.store.log, n)
      ensures n in before || late == Some(n) || Responsible(StepCleanup(w, a), n)
    {
      assert IsUnmatched(w.disk.store.log, n);
      if Responsible(w, n) { CleanupKeepsResponsible(w, a, n); }
    }
  }

  /** Tool calls and messages leave every thread and the log as they are. */
  lemma CallAccounts(w: World, a: Action, before: set<nat>, late: Option<nat>)
    requires Accounted(w, before, late) && IsOfProcess(a) && !IsWorkerThread(a) && !a.CleanupDoes?
    ensures Accounted(Step(w, a), before, late)
  {
    var after := Step(w, a);
    forall n: nat | IsUnmatched(after.disk.store.log, n)
      ensures n in before || late == Some(n) || Responsible(after, n)
    {
      assert IsUnmatched(w.disk.store.log, n);
      if SomeStopCloses(w, n) {
        var i :| 0 <= i < |w.stops| && StopCloses(w.stops[i], n);
        assert after.stops[i] == w.stops[i];
      }
    }
  }

  lemma StepAccounts(w: World, a: Action, before: set<nat>, late: Option<nat>)
    requires Live(w) && Sound(w) && LateKnown(w, late) && Accounted(w, before, late)
    requires IsOfProcess(a) && ScansSucceed(a)
    ensures Accounted(Step(w, a), before, late)
  {
    match a
    case TickDoes(t) => TickAccounts(w, t, before, late);
    case FinalizeDoes(f) => FinalizeAccounts(w, f, before, late);
    case StopDoes(i, s) => StopAccounts(w, i, s, before, late);
    case CleanupDoes(c) => CleanupAccounts(w, c, before, late);
    case _ => CallAccounts(w, a, before, late);
  }

  // ---- who is left behind ----

  /** What a takeover in this state leaves behind: the session of a stop call that has cleared the
      handle but not yet written its record, when another worker was started in the meantime. */
  predicate LeavesBehind(w: World, late: Option<nat>) {
    if late.Some? then w.mem.workerSessionSeq != late && SomeStopCloses(w, late.value)
    else forall i :: 0 <= i < |w.stops| && IsClosing(w.stops[i]) ==> w.stops[i].session == w.mem.workerSessionSeq
  }

  lemma TakeoverLeaves(w: World, late: Option<nat>)
    requires OneOwner(w) && HandleSound(w) && w.cleaner.Waiting? && LeavesBehind(w, late)
    ensures LateKnown(TakeOver(w), late)
  {
    if late.Some? {
      var i :| 0 <= i < |w.stops| && StopCloses(w.stops[i], late.value);
      assert forall j :: 0 <= j < |w.stops| && IsClosing(w.stops[j]) ==> Owns(w.stops[j]) && j == i;
    }
  }

  lemma EndsRemain(w: World, a: Action, n: nat)
    requires n in EndedSeqs(w.disk.store.log) && Live(w) && EndsOnce(w.disk.store.log) && IsOfProcess(a)
    ensures n in EndedSeqs(Step(w, a).disk.store.log)
  {
    var log := w.disk.store.log;
    match a
    case TickDoes(t) =>
      if t.WritesAborted? && w.host.Aborting? { EndedAfter(log, w.host.session, HostInternalError, t.readable); }
      if t.WritesStarted? && w.host.Starting? { PlainKeepsEndsOnce(log, WorkerStarted(w.host.session)); }
    case FinalizeDoes(f) =>
      if f.WritesEnded? && w.host.FinAppending? { EndedAfter(log, w.host.owner.session, w.host.reason, f.readable); }
    case StopDoes(i, s) =>
      if s.Appends? && i < |w.stops| && w.stops[i].session.Some? {
        EndedAfter(log, w.stops[i].session.value, StopReason(w.stops[i]), s.readable);
      }
    case CleanupDoes(c) =>
      if c.Backfills? && w.cleaner.CleanAppending? { EndedAfter(log, w.cleaner.session, HostShutdown, c.readable); }
    case _ =>
  }

  /** Past the takeover no worker is started ... */
  lemma SessionRetained(w: World, a: Action)
    requires Live(w) && OwnersCurrent(w) && PastTakeover(w) && IsOfProcess(a)
    ensures Step(w, a).mem.workerSessionSeq == w.mem.workerSessionSeq && PastTakeover(Step(w, a))
  {
    match a
    case TickDoes(t) => NoMoreTicks(w, t);
    case FinalizeDoes(f) => FinalizeRetains(w, f);
    case StopDoes(i, s) => StopRetains(w, i, s);
    case CleanupDoes(c) => CleanupRetains(w, c);
    case StopWorkerCalled(interrupt, restart) => CallMoves(w, interrupt, restart);
    case _ =>
  }

  lemma CleanupRetains(w: World, a: CleanupAction)
    requires PastTakeover(w)
    ensures StepCleanup(w, a).mem.workerSessionSeq == w.mem.workerSessionSeq && PastTakeover(StepCleanup(w, a))
  {
    match a
    case Begins =>
    case TakesOver =>
    case Scans =>
    case Backfills(_) =>
    case Finishes =>
  }

  lemma NoMoreTicks(w: World, a: TickAction)
    requires OwnersCurrent(w) && PastTakeover(w)
    ensures StepTick(w, a) == w
  {}

  lemma FinalizeRetains(w: World, a: FinalizeAction)
    ensures StepFinalize(w, a).mem.workerSessionSeq == w.mem.workerSessionSeq
    ensures StepFinalize(w, a).cleaner == w.cleaner
  {
    FinMoves(w, a);
  }

  lemma StopRetains(w: World, i: nat, a: StopAction)
    ensures StepStop(w, i, a).mem.workerSessionSeq == w.mem.workerSessionSeq
    ensures StepStop(w, i, a).cleaner == w.cleaner
  {
    StopMoves(w, i, a);
  }

  /** A closing stop call is about the retained session or the one left behind. */
  predicate LateOnly(w: World, late: Option<nat>) {
    forall i :: 0 <= i < |w.stops| && IsClosing(w.stops[i]) ==>
      w.stops[i].session == w.mem.workerSessionSeq || w.stops[i].session == late
  }

  lemma StopMovedKeepsLate(w: World, i: nat, after: World, late: Option<nat>)
    requires LateOnly(w, late) && StopMoved(w, i, after)
    ensures LateOnly(after, late)
  {}

  lemma CallMovedKeepsLate(w: World, interrupt: bool, restart: bool, after: World, late: Option<nat>)
    requires LateOnly(w, late) && CallMoved(w, interrupt, restart, after)
    ensures LateOnly(after, late)
  {}

  lemma FramedKeepsLate(w: World, after: World, late: Option<nat>)
    requires LateOnly(w, late) && after.stops == w.stops && after.mem.workerSessionSeq == w.mem.workerSessionSeq
    ensures LateOnly(after, late)
  {}

  /** ... and a new stop call closes the retained session. */
  lemma StopsKeepLate(w: World, a: Action, late: Option<nat>)
    requires Live(w) && OwnersCurrent(w) && LateOnly(w, late) && PastTakeover(w) && IsOfProcess(a)
    ensures LateOnly(Step(w, a), late)
  {
    SessionRetained(w, a);
    match a
    case TickDoes(t) => NoMoreTicks(w, t);
    case FinalizeDoes(f) => FinMoves(w, f); FramedKeepsLate(w, StepFinalize(w, f), late);
    case StopDoes(i, s) =>
      StopMoves(w, i, s);
      if StepStop(w, i, s) != w { StopMovedKeepsLate(w, i, StepStop(w, i, s), late); }
    case StopWorkerCalled(interrupt, restart) =>
      CallMoves(w, interrupt, restart);
      if !w.mem.workerFinalizing { CallMovedKeepsLate(w, interrupt, restart, StopWorker(w, interrupt, restart), late); }
    case _ => FramedKeepsLate(w, Step(w, a), late);
  }

  lemma StepKeepsLate(w: World, a: Action, late: Option<nat>)
    requires Live(w) && Sound(w) && LateKnown(w, late) && PastTakeover(w) && IsOfProcess(a) && ScansSucceed(a)
    ensures LateKnown(Step(w, a), late) && PastTakeover(Step(w, a))
  {
    SessionRetained(w, a);
    StopsKeepLate(w, a, late);
    if w.mem.workerSessionSeq.Some? { StepKeepsBackfilled(w, a, w.mem.workerSessionSeq.value); }
  }

  lemma StepKeepsBackfilled(w: World, a: Action, last: nat)
    requires Live(w) && EndsOnce(w.disk.store.log) && OwnersCurrent(w) && IsOfProcess(a) && ScansSucceed(a)
    requires w.mem.workerSessionSeq == Some(last) && PastTakeover(w)
    requires w.cleaner.CleanFinishing? || w.cleaner.Exited? ==> last in EndedSeqs(w.disk.store.log)
    ensures Step(w, a).cleaner.CleanFinishing? || Step(w, a).cleaner.Exited? ==>
      last in EndedSeqs(Step(w, a).disk.store.log)
  {
    if w.cleaner.CleanFinishing? {
      EndsRemain(w, a, last);
    } else if a.CleanupDoes? && a.cleanup.Backfills? && w.cleaner.CleanAppending? {
      EndedAfter(w.disk.store.log, w.cleaner.session, HostShutdown, true);
    }
  }

  // ---- over runs ----

  predicate Undisturbed(actions: seq<Action>) {
    forall k :: 0 <= k < |actions| ==> IsOfProcess(actions[k]) && ScansSucceed(actions[k])
  }

  lemma DeadStaysDead(w: World, a: Action)
    requires !Live(w) && IsOfProcess(a)
    ensures !Live(Step(w, a))
  {}

  lemma {:induction false} AccountedBefore(w: World, actions: seq<Action>, before: set<nat>)
    requires Sound(w) && Accounted(w, before, None) && Undisturbed(actions)
    requires Live(Run(w, actions)) && !PastTakeover(Run(w, actions))
    ensures Sound(Run(w, actions)) && Accounted(Run(w, actions), before, None)
  {
    if actions != [] {
      var n := |actions| - 1;
      var prior := Run(w, actions[..n]);
      if !Live(prior) { DeadStaysDead(prior, actions[n]); }
      StaysSound(w, actions[..n]);
      if PastTakeover(prior) { SessionRetained(prior, actions[n]); }
      AccountedBefore(w, actions[..n], before);
      StepKeepsSound(prior, actions[n]);
      StepAccounts(prior, actions[n], before, None);
    }
  }

  lemma {:induction false} StaysSound(w: World, actions: seq<Action>)
    requires Sound(w) && Undisturbed(actions)
    ensures Sound(Run(w, actions))
  {
    if actions != [] {
      var n := |actions| - 1;
      StaysSound(w, actions[..n]);
      StepKeepsSound(Run(w, actions[..n]), actions[n]);
    }
  }

  lemma {:induction false} AccountedAfter(w: World, actions: seq<Action>, before: set<nat>, late: Option<nat>)
    requires Sound(w) && Accounted(w, before, late) && PastTakeover(w) && LateKnown(w, late)
    requires Undisturbed(actions) && Live(Run(w, actions))
    ensures var after := Run(w, actions);
      Sound(after) && Accounted(after, before, late) && PastTakeover(after) && LateKnown(after, late)
  {
    if actions != [] {
      var n := |actions| - 1;
      var prior := Run(w, actions[..n]);
      if !Live(prior) { DeadStaysDead(prior, actions[n]); }
      AccountedAfter(w, actions[..n], before, late);
      StepKeepsSound(prior, actions[n]);
      StepAccounts(prior, actions[n], before, late);
      StepKeepsLate(prior, actions[n], late);
    }
  }

  lemma DoneIsPaired(w: World, before: set<nat>, late: Option<nat>, n: nat)
    requires Sound(w) && Accounted(w, before, late) && LateKnown(w, late) && w.cleaner.CleanFinishing? && Live(w)
    requires IsUnmatched(w.disk.store.log, n)
    ensures n in before || late == Some(n)
  {
    if SomeStopCloses(w, n) {
      var i :| 0 <= i < |w.stops| && StopCloses(w.stops[i], n);
    }
  }

  /** The sessions that are unmatched when the process begins. */
  function UnmatchedSessions(log: seq<Event>): set<nat> {
    set n | n in StartedSeqs(log) && n !in EndedSeqs(log)
  }

  /** When cleanup has written its record, every session that was started in this process has exactly
      one end record, except for at most one: the session of a stop call that cleanup superseded after
      the call had cleared the handle, another worker had been started, and before its record was in
      the log. */
  lemma CleanupPairsStarts(w: World, before: seq<Action>, atWait: World, late: Option<nat>,
                           after: seq<Action>, done: World, n: nat)
    requires Sound(w) && w.host.Idle? && w.stops == [] && w.mem.workerHandle.None?
    requires Undisturbed(before) && atWait == Run(w, before)
    requires Live(atWait) && atWait.cleaner.Waiting? && LeavesBehind(atWait, late)
    requires Undisturbed(after) && done == Run(TakeOver(atWait), after)
    requires Live(done) && done.cleaner.CleanFinishing? && IsUnmatched(done.disk.store.log, n)
    ensures n in UnmatchedSessions(w.disk.store.log) || late == Some(n)
  {
    var earlier := UnmatchedSessions(w.disk.store.log);
    AccountedBefore(w, before, earlier);
    TakeoverLeaves(atWait, late);
    TakeoverKeepsSound(atWait);
    TakeoverAccounts(atWait, earlier, late);
    AccountedAfter(TakeOver(atWait), after, earlier, late);
    DoneIsPaired(done, earlier, late, n);
  }

  lemma TakeoverKeepsSound(w: World)
    requires Sound(w) && Live(w) && w.cleaner.Waiting?
    ensures Sound(TakeOver(w)) && PastTakeover(TakeOver(w))
  {
    StepKeepsSound(w, CleanupDoes(TakesOver));
    assert Step(w, CleanupDoes(TakesOver)) == TakeOver(w);
  }

  lemma TakeoverAccounts(w: World, before: set<nat>, late: Option<nat>)
    requires Accounted(w, before, None) && w.cleaner.Waiting?
    ensures Accounted(TakeOver(w), before, late)
  {
    forall n: nat | IsUnmatched(w.disk.store.log, n)
      ensures n in before || late == Some(n) || Responsible(TakeOver(w), n)
    {
      if SomeStopCloses(w, n) { StillResponsible(w, TakeOver(w), n); }
    }
  }

  // ---- the exception is real ----

  /** Nobody will ever write the record of session `n`. */
  predicate Abandoned(w: World, n: nat) {
    IsUnmatched(w.disk.store.log, n) && NobodyCloses(w, n)
  }

  predicate NobodyCloses(w: World, n: nat) {
    && w.mem.workerSessionSeq != Some(n)
    && PastTakeover(w)
    && (forall i :: 0 <= i < |w.stops| && w.stops[i].session == Some(n) ==>
          && !w.stops[i].pc.StopAppending?
          && (w.stops[i].pc.StopEnqueuing? || w.stops[i].pc.StopEnqueued? ==>
                w.stops[i].epoch != w.mem.workerFinalizeEpoch))
  }

  lemma AbandonedStays(w: World, a: Action, n: nat)
    requires Live(w) && Sound(w) && Abandoned(w, n) && IsOfProcess(a)
    ensures Abandoned(Step(w, a), n)
  {
    match a
    case TickDoes(t) => NoMoreTicks(w, t);
    case FinalizeDoes(f) => FinalizeAbandons(w, f, n);
    case StopDoes(i, s) => StopAbandons(w, i, s, n);
    case CleanupDoes(c) =>
      if c.Backfills? && w.cleaner.CleanAppending? { EndedAfter(w.disk.store.log, w.cleaner.session, HostShutdown, c.readable); }
    case _ =>
  }

  lemma FinalizeAbandons(w: World, a: FinalizeAction, n: nat)
    requires OwnersCurrent(w) && Abandoned(w, n)
    ensures Abandoned(StepFinalize(w, a), n)
  {
    FinalizeClosesNothing(w, a, n);
    if a.WritesEnded? && w.host.FinAppending? {
      EndedAfter(w.disk.store.log, w.host.owner.session, w.host.reason, a.readable);
    } else {
      FinalizeLeavesLog(w, a);
    }
  }

  lemma FinalizeClosesNothing(w: World, a: FinalizeAction, n: nat)
    requires NobodyCloses(w, n)
    ensures NobodyCloses(StepFinalize(w, a), n)
  {
    FinMoves(w, a);
  }

  lemma StopAbandons(w: World, i: nat, a: StopAction, n: nat)
    requires OneOwner(w) && HandleSound(w) && Abandoned(w, n)
    ensures Abandoned(StepStop(w, i, a), n)
  {
    StopClosesNothing(w, i, a, n);
    if a.Appends? { StopAppendEnds(w, i, a.readable); } else { StopLeavesLog(w, i, a); }
  }

  lemma StopMovedClosesNothing(w: World, i: nat, after: World, n: nat)
    requires OneOwner(w) && HandleSound(w) && NobodyCloses(w, n) && StopMoved(w, i, after)
    ensures NobodyCloses(after, n)
  {
    assert StopIsShaped(w.stops[i]);
  }

  lemma StopClosesNothing(w: World, i: nat, a: StopAction, n: nat)
    requires OneOwner(w) && HandleSound(w) && NobodyCloses(w, n)
    ensures NobodyCloses(StepStop(w, i, a), n)
  {
    StopMoves(w, i, a);
    if StepStop(w, i, a) != w { StopMovedClosesNothing(w, i, StepStop(w, i, a), n); }
  }
}
