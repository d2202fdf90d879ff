/** Persistent failure does not become a busy loop: how often the host tries to start workers is
    bounded by what Meta asked for. */
module LifecycleHotLoop {
  import opened Prelude
  import opened Events
  import opened Sessions
  import opened Recovery
  import opened Daemon
  import opened Lifecycle
  import opened LifecycleLog
  import opened LifecycleMoves
  import opened LifecycleOwners

  /** No worker gets its first message, peeks succeed, and the process goes on. */
  predicate Fails(a: Action) {
    && (a.TickDoes? && a.tick.Injects? ==> !a.tick.ok)
    && (a.TickDoes? && a.tick.Peeks? ==> a.tick.ok)
    && (a.FinalizeDoes? && a.fin.PeeksInbox? ==> a.fin.ok)
    && !a.Crashed? && !a.Booted? && !a.BootCrashed?
  }

  // ---- what is counted ----

  /** The tick loop decides to start a worker. */
  predicate IsAttempt(w: World, a: Action) {
    Live(w) && a == TickDoes(Reconciles) && w.host.Reconciling? && StartsWorker(w.mem)
  }

  /** A `start_worker` call that is accepted. */
  predicate IsRequest(w: World, a: Action) {
    Live(w) && a.StartWorkerCalled? && w.mem.workerHandle.None?
  }

  /** A stop call grants a continuation: a restart, or the default continuation of an interrupt. */
  predicate IsGrant(w: World, a: Action) {
    && Live(w) && a.StopDoes? && a.stop.Continues? && a.i < |w.stops|
    && w.stops[a.i].pc.StopContinuing? && (w.stops[a.i].interrupt || w.stops[a.i].restart)
  }

  /** A stop call without restart closes a worker. */
  predicate IsKill(w: World, a: Action) {
    && Live(w) && a.StopDoes? && a.stop.KillReturns? && a.stop.ok && a.i < |w.stops|
    && w.stops[a.i].pc.StopClosing? && !w.stops[a.i].restart
  }

  function Count(w: World, actions: seq<Action>, counts: (World, Action) -> bool): nat {
    if actions == [] then 0
    else
      var n := |actions| - 1;
      Count(w, actions[..n], counts) + (if counts(Run(w, actions[..n]), actions[n]) then 1 else 0)
  }

  function Attempts(w: World, actions: seq<Action>): nat { Count(w, actions, IsAttempt) }
  function Requests(w: World, actions: seq<Action>): nat { Count(w, actions, IsRequest) }
  function Grants(w: World, actions: seq<Action>): nat { Count(w, actions, IsGrant) }
  function Kills(w: World, actions: seq<Action>): nat { Count(w, actions, IsKill) }

  // ---- the account ----

  /** `granted` starts are allowed by requests, grants and kills; `charged` are the instructions that
      have been used to leave the failed-start state; `spare` is a start that is allowed and neither
      wanted nor due by default continuation. */
  datatype Account = Account(attempts: nat, granted: nat, spare: bool, charged: set<Id>)

  /** The current wish for a worker has already been taken up. */
  predicate WishTaken(h: HostPc) {
    || h.Allocating? || h.Starting? || h.Spawning? || h.Aborting? || h.Injecting? || h.StartDone? || h.StartFailed?
  }

  function AfterTick(w: World, a: TickAction, c: Account): Account {
    if a.Reconciles? && w.host.Reconciling? && StartsWorker(w.mem) then
      c.(attempts := c.attempts + 1, spare := c.spare && w.mem.wantWorkerStart)
    else if a.PassesGate? && w.host.AtGate? && IsTrigger(w.mem, w.host.ids) then
      if w.mem.workerStartFailedPending && w.mem.baseline.Some? then
        c.(charged := c.charged + (w.host.ids - w.mem.baseline.value))
      else c.(spare := c.spare && (w.mem.wantWorkerStart || w.mem.metaInterruptDefaultContinue))
    else if a.CompletesStart? && w.host.StartDone? then
      c.(spare := c.spare || w.mem.metaInterruptDefaultContinue)
    else c
  }

  function AfterStop(w: World, i: nat, a: StopAction, c: Account): Account {
    if i >= |w.stops| then c
    else
      var t := w.stops[i];
      if a.KillReturns? && a.ok && t.pc.StopClosing? then
        c.(granted := c.granted + (if t.restart then 0 else 1),
           spare := c.spare || w.mem.metaInterruptDefaultContinue || !t.restart)
      else if a.Continues? && t.pc.StopContinuing? && (t.interrupt || t.restart) then
        c.(granted := c.granted + 1, spare := c.spare || (!t.interrupt && WishTaken(w.host)))
      else c
  }

  function AfterStep(w: World, a: Action, c: Account): Account {
    match a
    case TickDoes(t) => if Live(w) then AfterTick(w, t, c) else c
    case StopDoes(i, s) => if Live(w) then AfterStop(w, i, s, c) else c
    case StartWorkerCalled =>
      if Live(w) && w.mem.workerHandle.None? then
        c.(granted := c.granted + 1, spare := c.spare || WishTaken(w.host))
      else c
    case StopWorkerCalled(_, _) =>
      if Live(w) && !w.mem.workerFinalizing && w.mem.workerHandle.None? then
        c.(spare := c.spare || w.mem.metaInterruptDefaultContinue)
      else c
    case _ => c
  }

  /** Starts that are still allowed. */
  function Due(w: World, c: Account): nat {
    (if c.spare then 1 else 0) + (if w.mem.metaInterruptDefaultContinue then 1 else 0)
    + (if w.mem.wantWorkerStart && !WishTaken(w.host) then 1 else 0)
  }

  predicate Balanced(w: World, c: Account) {
    c.attempts + (if w.cleaner.NotCleaning? then Due(w, c) else 0) <= c.granted + |c.charged|
  }

  predicate IsCovered(w: World, c: Account) {
    c.spare || w.mem.metaInterruptDefaultContinue || (w.mem.wantWorkerStart && !WishTaken(w.host))
  }

  /** The failure of a start is about to be recorded. */
  predicate HostFails(h: HostPc) {
    || h.Allocating? || h.Starting? || h.Spawning? || h.Aborting? || h.StartFailed?
    || h.CapturePeeking? || h.Capturing? || h.FinTail? || h.FinCapturePeeking? || h.FinCapturing?
  }

  /** A stop with restart has cleared the handle and will set its continuation. */
  predicate WillRestart(t: StopCall) {
    t.hadActiveHandle && t.restart && (t.pc.StopEnqueuing? || t.pc.StopEnqueued? || t.pc.StopAppending? || t.pc.StopContinuing?)
  }

  predicate SomeStopWillRestart(w: World) {
    exists i :: 0 <= i < |w.stops| && WillRestart(w.stops[i])
  }

  /** Between workers, outside the failed-start state or about to leave it, a start is still allowed. */
  predicate NextIsCovered(w: World, c: Account) {
    (w.mem.workerHandle.None? && !HostFails(w.host) && !SomeStopWillRestart(w)
     && (!w.mem.workerStartFailedPending || w.host.Injecting? || w.host.StartDone?))
    ==> IsCovered(w, c)
  }

  /** So it is whenever the gate would accept any instruction. */
  predicate GateIsCovered(w: World, c: Account) {
    (!w.mem.workerStartFailedPending && (AwaitsMeta(w.mem) || w.host.GatePeeking? || w.host.AtGate?)
     && !WishTaken(w.host) && !HostFails(w.host))
    ==> IsCovered(w, c)
  }

  /** And so it is while a stop call without restart has closed the worker. */
  predicate KillsAreCovered(w: World, c: Account) {
    forall i :: 0 <= i < |w.stops| && w.stops[i].pc == StopResuming(Dispatched) && !w.stops[i].restart ==> IsCovered(w, c)
  }

  predicate Covered(w: World, c: Account) {
    NextIsCovered(w, c) && GateIsCovered(w, c) && KillsAreCovered(w, c)
  }

  /** Every worker is one whose first message failed. */
  predicate AllFail(w: World) {
    && (w.mem.workerHandle.Some? && !w.host.Injecting? ==> w.mem.workerInjectFailed)
    && (InFinalize(w.host) ==> w.host.owner.injectFailed)
    && !w.host.FinEvaluating? && !w.host.FinEnqueuing? && !w.host.FinEnqueued?
    && (forall i :: 0 <= i < |w.stops| && w.stops[i].hadActiveHandle ==> w.mem.workerSessionSeq.Some?)
  }

  /** An instruction that was used once is read, or in the baseline. */
  predicate IsSpent(w: World, charged: set<Id>, known: set<Id>) {
    forall id :: id in charged ==> id in known || (id in w.disk.instructions && id !in w.disk.unread)
  }

  predicate ChargesSound(w: World, c: Account) {
    && w.disk.unread <= w.disk.instructions && c.charged <= w.disk.instructions
    && (w.mem.workerStartFailedPending ==> w.mem.baseline.Some? && IsSpent(w, c.charged, w.mem.baseline.value))
    && (w.host.Capturing? || w.host.FinCapturing? ==> IsSpent(w, c.charged, w.host.ids))
    && (w.host.AtGate? ==> w.host.ids <= w.disk.instructions)
    && (w.host.AtGate? && w.mem.workerStartFailedPending && w.mem.baseline.Some? ==>
          forall id :: id in w.host.ids && id in c.charged ==> id in w.mem.baseline.value)
  }

  predicate Cool(w: World, c: Account) {
    && Balanced(w, c) && AllFail(w) && ChargesSound(w, c)
    && (w.cleaner.NotCleaning? ==> Covered(w, c))
  }

  // ---- instructions ----

  lemma TickKeepsCharges(w: World, a: TickAction, c: Account)
    requires ChargesSound(w, c) && Fails(TickDoes(a))
    ensures ChargesSound(StepTick(w, a), AfterTick(w, a, c))
  {}

  lemma FinalizeKeepsCharges(w: World, a: FinalizeAction, c: Account)
    requires ChargesSound(w, c) && Fails(FinalizeDoes(a))
    ensures ChargesSound(StepFinalize(w, a), c)
  {}

  lemma StopKeepsCharges(w: World, i: nat, a: StopAction, c: Account)
    requires ChargesSound(w, c)
    ensures ChargesSound(StepStop(w, i, a), AfterStop(w, i, a, c))
  {}

  // ---- failures ----

  lemma TickKeepsAllFail(w: World, a: TickAction)
    requires AllFail(w) && HandleSound(w) && Fails(TickDoes(a))
    ensures AllFail(StepTick(w, a))
  {
    match a
    case Ticks =>
    case Peeks(_) =>
    case PassesGate(_) =>
    case Reconciles =>
    case Allocates(_) =>
    case WritesStarted(_) =>
    case Spawns(_) =>
    case WritesAborted(_) =>
    case Injects(_) =>
    case CompletesStart =>
    case AbandonsStart =>
    case Captures =>
    case Monitors(_) =>
  }

  lemma FinalizeKeepsAllFail(w: World, a: FinalizeAction)
    requires AllFail(w)
    ensures AllFail(StepFinalize(w, a))
  {
    match a
    case ClosesWorker(_, _, _, _) =>
    case Evaluates =>
    case EnqueuesEnd(_, _) =>
    case AnnouncesEnd =>
    case LeavesTail =>
    case PeeksInbox(_) =>
    case CapturesBaseline =>
    case ChecksEpoch =>
    case WritesEnded(_) =>
    case ReleasesGuard =>
  }

  lemma StopMovedKeepsAllFail(w: World, i: nat, after: World)
    requires AllFail(w) && StopMoved(w, i, after)
    ensures AllFail(after)
  {}

  lemma StopKeepsAllFail(w: World, i: nat, a: StopAction)
    requires AllFail(w)
    ensures AllFail(StepStop(w, i, a))
  {
    StopMoves(w, i, a);
    if StepStop(w, i, a) != w { StopMovedKeepsAllFail(w, i, StepStop(w, i, a)); }
  }

  // ---- the balance ----

  lemma MoreCharged(a: set<Id>, b: set<Id>, id: Id)
    requires a <= b && id in b && id !in a
    ensures |a| + 1 <= |b|
  {
    assert a + {id} <= b;
    Fits(a + {id}, b);
  }

  lemma Fits(a: set<Id>, b: set<Id>)
    requires a <= b
    ensures |a| <= |b|
  {
    assert b == a + (b - a);
  }

  lemma TriggerCharges(w: World, c: Account)
    requires ChargesSound(w, c) && w.host.AtGate? && IsTrigger(w.mem, w.host.ids)
    requires w.mem.workerStartFailedPending && w.mem.baseline.Some?
    ensures |c.charged| + 1 <= |c.charged + (w.host.ids - w.mem.baseline.value)|
  {
    var id :| id in w.host.ids && id !in w.mem.baseline.value;
    MoreCharged(c.charged, c.charged + (w.host.ids - w.mem.baseline.value), id);
  }

  /** No start without a wish but the very first. */
  lemma AttemptIsCovered(w: World, c: Account)
    requires AllFail(w) && NextIsCovered(w, c) && w.host.Reconciling? && StartsWorker(w.mem)
    ensures w.mem.wantWorkerStart || c.spare
  {}

  lemma GateKeepsBalance(w: World, metaIdle: bool, c: Account)
    requires Balanced(w, c) && ChargesSound(w, c) && w.cleaner.NotCleaning? && GateIsCovered(w, c)
    ensures Balanced(HostGate(w, metaIdle), AfterTick(w, PassesGate(metaIdle), c))
  {
    if w.host.AtGate? && IsTrigger(w.mem, w.host.ids) && w.mem.workerStartFailedPending && w.mem.baseline.Some? {
      TriggerCharges(w, c);
    }
  }

  lemma AttemptKeepsBalance(w: World, c: Account)
    requires Balanced(w, c) && AllFail(w) && NextIsCovered(w, c) && w.cleaner.NotCleaning?
    ensures Balanced(HostReconcile(w), AfterTick(w, Reconciles, c))
  {
    if w.host.Reconciling? && StartsWorker(w.mem) { AttemptIsCovered(w, c); }
  }

  lemma MovesKeepBalance(w: World, a: TickAction, c: Account)
    requires Balanced(w, c) && w.cleaner.NotCleaning? && !a.Reconciles? && !a.PassesGate?
    ensures Balanced(StepTick(w, a), AfterTick(w, a, c))
  {
    var after, d := StepTick(w, a), AfterTick(w, a, c);
    assert d.attempts == c.attempts && d.granted == c.granted && d.charged == c.charged;
    assert after.cleaner.NotCleaning? ==> Due(after, d) <= Due(w, c);
  }

  lemma TickKeepsBalance(w: World, a: TickAction, c: Account)
    requires Balanced(w, c) && AllFail(w) && ChargesSound(w, c) && w.cleaner.NotCleaning? && Covered(w, c)
    ensures Balanced(StepTick(w, a), AfterTick(w, a, c))
  {
    if a.Reconciles? { AttemptKeepsBalance(w, c); }
    else if a.PassesGate? { GateKeepsBalance(w, a.metaIdle, c); }
    else { MovesKeepBalance(w, a, c); }
  }

  lemma SameRestarts(w: World, after: World)
    requires after.stops == w.stops
    ensures SomeStopWillRestart(after) <==> SomeStopWillRestart(w)
  {
    if SomeStopWillRestart(w) {
      var i :| 0 <= i < |w.stops| && WillRestart(w.stops[i]);
      assert WillRestart(after.stops[i]);
    }
    if SomeStopWillRestart(after) {
      var i :| 0 <= i < |after.stops| && WillRestart(after.stops[i]);
      assert WillRestart(w.stops[i]);
    }
  }

  /** A kill still holds the handle. */
  lemma KillHolds(w: World, i: nat)
    requires OneOwner(w) && HandleSound(w) && i < |w.stops| && w.stops[i].pc == StopResuming(Dispatched)
    ensures w.mem.workerHandle.Some? && !InStart(w.host)
  {
    assert StopIsShaped(w.stops[i]) && BeforeClear(w.stops[i]);
  }

  lemma TickKeepsKillsCovered(w: World, a: TickAction, c: Account)
    requires OneOwner(w) && HandleSound(w) && KillsAreCovered(w, c)
    ensures KillsAreCovered(StepTick(w, a), AfterTick(w, a, c))
  {
    var after := StepTick(w, a);
    forall i | 0 <= i < |after.stops| && after.stops[i].pc == StopResuming(Dispatched) && !after.stops[i].restart
      ensures IsCovered(after, AfterTick(w, a, c))
    {
      assert after.stops == w.stops;
      KillHolds(w, i);
    }
  }

  lemma TickKeepsNextCovered(w: World, a: TickAction, c: Account)
    requires HandleSound(w) && w.cleaner.NotCleaning? && NextIsCovered(w, c) && GateIsCovered(w, c)
    ensures StepTick(w, a).cleaner.NotCleaning? ==>
      NextIsCovered(StepTick(w, a), AfterTick(w, a, c)) && GateIsCovered(StepTick(w, a), AfterTick(w, a, c))
  {
    SameRestarts(w, StepTick(w, a));
  }

  lemma FinalizeKeepsCovered(w: World, a: FinalizeAction, c: Account)
    requires HandleSound(w) && OneOwner(w) && AllFail(w) && Covered(w, c)
    ensures Covered(StepFinalize(w, a), c)
  {
    SameRestarts(w, StepFinalize(w, a));
    forall i | 0 <= i < |w.stops| ensures InFinalize(w.host) ==> !Owns(w.stops[i]) {}
  }

  lemma FinalizeKeepsBalance(w: World, a: FinalizeAction, c: Account)
    requires Balanced(w, c) && AllFail(w)
    ensures Balanced(StepFinalize(w, a), c)
  {}

  lemma StopKeepsBalance(w: World, i: nat, a: StopAction, c: Account)
    requires Balanced(w, c)
    ensures Balanced(StepStop(w, i, a), AfterStop(w, i, a, c))
  {}

  /** What one stretch of a stop call does to the cover. */
  lemma StopCovers(w: World, i: nat, a: StopAction, c: Account)
    requires i < |w.stops| && StopIsShaped(w.stops[i])
    ensures var after, d := StepStop(w, i, a), AfterStop(w, i, a, c);
      && (IsCovered(w, c) ==> IsCovered(after, d))
      && (AwaitsMeta(after.mem) ==> AwaitsMeta(w.mem) || IsCovered(after, d))
  {
    match a
    case KillReturns(ok) => KillKeepsCover(w, i, ok, c);
    case Resumes =>
    case Enqueues(_, _) =>
    case Checks =>
    case Appends(_) =>
    case Continues => ContinueCovers(w, i, c);
    case Releases =>
  }

  lemma KillKeepsCover(w: World, i: nat, ok: bool, c: Account)
    ensures var after, d := StopClose(w, i, ok), AfterStop(w, i, KillReturns(ok), c);
      && (IsCovered(w, c) ==> IsCovered(after, d))
      && (AwaitsMeta(after.mem) ==> AwaitsMeta(w.mem) || IsCovered(after, d))
  {}

  lemma ContinueCovers(w: World, i: nat, c: Account)
    ensures var after, d := StopContinue(w, i), AfterStop(w, i, Continues, c);
      && (IsCovered(w, c) ==> IsCovered(after, d))
      && (i < |w.stops| && WillRestart(w.stops[i]) && w.stops[i].pc.StopContinuing? ==> IsCovered(after, d))
      && (AwaitsMeta(after.mem) ==> AwaitsMeta(w.mem) || IsCovered(after, d))
  {}

  /** A stop with restart that has cleared the handle goes on until it sets its continuation. */
  lemma RestartCovers(w: World, i: nat, a: StopAction, c: Account)
    requires i < |w.stops| && WillRestart(w.stops[i]) && w.stops[i].epoch == w.mem.workerFinalizeEpoch
    ensures var after, d := StepStop(w, i, a), AfterStop(w, i, a, c);
      (i < |after.stops| && WillRestart(after.stops[i])) || IsCovered(after, d)
  {
    StopMoves(w, i, a);
    if StepStop(w, i, a) != w && w.stops[i].pc.StopContinuing? {
      OnlyContinueLeaves(w, i, a);
      ContinueCovers(w, i, c);
    }
  }

  lemma OnlyContinueLeaves(w: World, i: nat, a: StopAction)
    requires i < |w.stops| && w.stops[i].pc.StopContinuing? && StepStop(w, i, a) != w
    ensures a.Continues?
  {}

  lemma KillCovers(w: World, i: nat, a: StopAction, c: Account)
    requires i < |w.stops| && StepStop(w, i, a) != w
    ensures var after, d := StepStop(w, i, a), AfterStop(w, i, a, c);
      i < |after.stops| && (after.stops[i].pc == StopResuming(Dispatched) && !after.stops[i].restart ==> IsCovered(after, d))
  {
    StopMoves(w, i, a);
    if w.stops[i].pc.StopClosing? && !w.stops[i].restart {
      OnlyKillDispatches(w, i, a);
      if a.ok { KillSpares(w, i, a.ok, c); }
    }
  }

  lemma KillSpares(w: World, i: nat, ok: bool, c: Account)
    requires i < |w.stops| && w.stops[i].pc.StopClosing? && !w.stops[i].restart && ok
    ensures AfterStop(w, i, KillReturns(ok), c).spare
  {}

  lemma OnlyKillDispatches(w: World, i: nat, a: StopAction)
    requires i < |w.stops| && w.stops[i].pc.StopClosing? && StepStop(w, i, a) != w
    ensures a.KillReturns?
  {}

  lemma StopKeepsCovered(w: World, i: nat, a: StopAction, c: Account)
    requires OneOwner(w) && HandleSound(w) && OwnersCurrent(w) && w.cleaner.NotCleaning? && i < |w.stops| && Covered(w, c)
    ensures Covered(StepStop(w, i, a), AfterStop(w, i, a, c))
  {
    var after, d := StepStop(w, i, a), AfterStop(w, i, a, c);
    StopCovers(w, i, a, c);
    if after != w {
      StopMoves(w, i, a);
      KillCovers(w, i, a, c);
      if SomeStopWillRestart(w) {
        var j :| 0 <= j < |w.stops| && WillRestart(w.stops[j]);
        if j == i { RestartCovers(w, i, a, c); } else { assert WillRestart(after.stops[j]); }
      }
      StopMovedKeepsCovered(w, i, after, c, d);
    }
  }

  lemma StopMovedKeepsCovered(w: World, i: nat, after: World, c: Account, d: Account)
    requires OneOwner(w) && HandleSound(w) && OwnersCurrent(w) && w.cleaner.NotCleaning? && Covered(w, c)
    requires StopMoved(w, i, after)
    requires IsCovered(w, c) ==> IsCovered(after, d)
    requires AwaitsMeta(after.mem) ==> AwaitsMeta(w.mem) || IsCovered(after, d)
    requires after.stops[i].pc == StopResuming(Dispatched) && !after.stops[i].restart ==> IsCovered(after, d)
    requires SomeStopWillRestart(w) ==> SomeStopWillRestart(after) || IsCovered(after, d)
    ensures Covered(after, d)
  {
    assert StopIsShaped(w.stops[i]);
    if Clears(w.stops[i], w.mem.workerFinalizeEpoch) && w.stops[i].restart { assert WillRestart(after.stops[i]); }
  }

  lemma CallKeepsCovered(w: World, interrupt: bool, restart: bool, c: Account)
    requires OneOwner(w) && HandleSound(w) && Live(w) && w.cleaner.NotCleaning? && Covered(w, c)
    ensures Covered(StopWorker(w, interrupt, restart), AfterStep(w, StopWorkerCalled(interrupt, restart), c))
  {
    var after := StopWorker(w, interrupt, restart);
    if SomeStopWillRestart(w) {
      var j :| 0 <= j < |w.stops| && WillRestart(w.stops[j]);
      assert after.stops[j] == w.stops[j] && Owns(w.stops[j]);
    }
  }

  lemma CallKeepsBalance(w: World, a: Action, c: Account)
    requires Balanced(w, c) && Live(w) && (a.StopWorkerCalled? || a.StartWorkerCalled?)
    ensures Balanced(Step(w, a), AfterStep(w, a, c))
  {}

  lemma RequestKeepsCovered(w: World, c: Account)
    requires Live(w) && Covered(w, c)
    ensures Covered(StartWorker(w), AfterStep(w, StartWorkerCalled, c))
  {
    SameRestarts(w, StartWorker(w));
  }

  /** Once cleanup has begun nothing is attempted any more. */
  lemma CleaningKeepsCool(w: World, a: Action, c: Account)
    requires Live(w) && OwnersCurrent(w) && OneOwner(w) && HandleSound(w) && Cool(w, c) && Fails(a)
    requires !w.cleaner.NotCleaning? && IsWorkerThread(a)
    ensures Cool(Step(w, a), AfterStep(w, a, c))
  {
    match a
    case TickDoes(t) => assert StepTick(w, t) == w && AfterTick(w, t, c) == c;
    case FinalizeDoes(f) => FinalizeKeepsAllFail(w, f); FinalizeKeepsCharges(w, f, c); FinalizeKeepsBalance(w, f, c);
    case StopDoes(i, s) => StopKeepsAllFail(w, i, s); StopKeepsCharges(w, i, s, c); StopKeepsBalance(w, i, s, c);
    case _ =>
  }

  lemma ThreadsKeepCool(w: World, a: Action, c: Account)
    requires Live(w) && OwnersCurrent(w) && OneOwner(w) && HandleSound(w) && Cool(w, c) && Fails(a)
    requires w.cleaner.NotCleaning? && IsWorkerThread(a)
    ensures Cool(Step(w, a), AfterStep(w, a, c))
  {
    match a
    case TickDoes(t) =>
      TickKeepsAllFail(w, t);
      TickKeepsCharges(w, t, c);
      TickKeepsBalance(w, t, c);
      TickKeepsKillsCovered(w, t, c);
      TickKeepsNextCovered(w, t, c);
    case FinalizeDoes(f) =>
      FinalizeKeepsAllFail(w, f);
      FinalizeKeepsCharges(w, f, c);
      FinalizeKeepsBalance(w, f, c);
      FinalizeKeepsCovered(w, f, c);
    case StopDoes(i, s) =>
      StopKeepsAllFail(w, i, s);
      StopKeepsCharges(w, i, s, c);
      StopKeepsBalance(w, i, s, c);
      if i < |w.stops| { StopKeepsCovered(w, i, s, c); }
    case _ =>
  }

  lemma CallsKeepCool(w: World, a: Action, c: Account)
    requires Live(w) && OneOwner(w) && HandleSound(w) && Cool(w, c) && (a.StartWorkerCalled? || a.StopWorkerCalled?)
    ensures Cool(Step(w, a), AfterStep(w, a, c))
  {
    CallKeepsBalance(w, a, c);
    CallKeepsRest(w, a, c);
    if w.cleaner.NotCleaning? {
      match a
      case StartWorkerCalled => RequestKeepsCovered(w, c);
      case StopWorkerCalled(interrupt, restart) => CallKeepsCovered(w, interrupt, restart, c);
      case _ =>
    }
  }

  lemma CallKeepsRest(w: World, a: Action, c: Account)
    requires Live(w) && HandleSound(w) && Cool(w, c) && (a.StartWorkerCalled? || a.StopWorkerCalled?)
    ensures AllFail(Step(w, a)) && ChargesSound(Step(w, a), AfterStep(w, a, c))
    ensures Step(w, a).cleaner == w.cleaner
  {}

  lemma CleanupKeepsCool(w: World, a: CleanupAction, c: Account)
    requires Live(w) && Cool(w, c)
    ensures var after := StepCleanup(w, a); Live(after) ==> Cool(after, c)
  {
    SameRestarts(w, StepCleanup(w, a));
    match a
    case Begins =>
    case TakesOver =>
    case Scans =>
    case Backfills(_) =>
    case Finishes =>
  }

  lemma InstructKeepsCool(w: World, id: Id, c: Account)
    requires Live(w) && Cool(w, c)
    ensures Cool(Instruct(w, id), c)
  {
    SameRestarts(w, Instruct(w, id));
  }

  lemma FilesKeepCool(w: World, a: Action, c: Account)
    requires Live(w) && Cool(w, c) && (a.InstructionsRead? || a.SignalSent? || a.CounterSpoiled?)
    ensures Cool(Step(w, a), c)
  {
    SameRestarts(w, Step(w, a));
    match a
    case InstructionsRead(_) =>
    case SignalSent(_) =>
    case CounterSpoiled =>
  }

  lemma OthersKeepCool(w: World, a: Action, c: Account)
    requires Live(w) && Cool(w, c) && Fails(a) && !IsWorkerThread(a) && !a.StartWorkerCalled? && !a.StopWorkerCalled?
    ensures Live(Step(w, a)) ==> Cool(Step(w, a), AfterStep(w, a, c))
  {
    match a
    case CleanupDoes(x) => CleanupKeepsCool(w, x, c);
    case Instructed(id) => InstructKeepsCool(w, id, c);
    case _ => FilesKeepCool(w, a, c);
  }

  lemma StepKeepsCool(w: World, a: Action, c: Account)
    requires Live(w) && Sound(w) && Cool(w, c) && Fails(a)
    ensures Live(Step(w, a)) ==> Cool(Step(w, a), AfterStep(w, a, c))
  {
    if IsWorkerThread(a) {
      if w.cleaner.NotCleaning? { ThreadsKeepCool(w, a, c); } else { CleaningKeepsCool(w, a, c); }
    } else if a.StartWorkerCalled? || a.StopWorkerCalled? {
      CallsKeepCool(w, a, c);
    } else {
      OthersKeepCool(w, a, c);
    }
  }

  // ---- over runs ----

  function AccountOf(w: World, actions: seq<Action>, c: Account): Account {
    if actions == [] then c
    else
      var n := |actions| - 1;
      AfterStep(Run(w, actions[..n]), actions[n], AccountOf(w, actions[..n], c))
  }

  /** The account counts what happens. */
  lemma CountsStep(w: World, a: Action, c: Account)
    ensures var d := AfterStep(w, a, c);
      && d.attempts == c.attempts + (if IsAttempt(w, a) then 1 else 0)
      && d.granted == c.granted + (if IsRequest(w, a) then 1 else 0) + (if IsGrant(w, a) then 1 else 0)
                    + (if IsKill(w, a) then 1 else 0)
  {}

  lemma {:induction false} AccountCounts(w: World, actions: seq<Action>, c: Account)
    ensures var d := AccountOf(w, actions, c);
      && d.attempts == c.attempts + Attempts(w, actions)
      && d.granted == c.granted + Requests(w, actions) + Grants(w, actions) + Kills(w, actions)
  {
    if actions != [] {
      var n := |actions| - 1;
      AccountCounts(w, actions[..n], c);
      CountsStep(Run(w, actions[..n]), actions[n], AccountOf(w, actions[..n], c));
    }
  }

  /** A process that has just started. */
  predicate JustBooted(w: World) {
    && w.host.Idle? && w.cleaner.NotCleaning? && w.stops == []
    && w.mem.workerHandle.None? && !w.mem.wantWorkerStart && !w.mem.workerStartFailedPending
  }

  /** One start is allowed from the outset: the first one, or the default continuation of the
      interrupt that recovery found. */
  function Opening(w: World): Account {
    Account(0, 1, !w.mem.metaInterruptDefaultContinue, {})
  }

  lemma OpeningIsCool(w: World)
    requires JustBooted(w) && w.disk.unread <= w.disk.instructions
    ensures Cool(w, Opening(w))
  {}

  lemma BootIsJustBooted(w: World, running: bool, o: Outcome)
    requires !Live(w)
    ensures JustBooted(Boot(w, running, o)) && Live(Boot(w, running, o))
  {}

  predicate IsBounded(w: World, c: Account) {
    c.attempts <= c.granted + |c.charged| && c.charged <= w.disk.instructions
  }

  lemma {:induction false} AccountStaysCool(w: World, actions: seq<Action>)
    requires JustBooted(w) && Live(w) && Sound(w) && w.disk.unread <= w.disk.instructions
    requires forall k :: 0 <= k < |actions| ==> Fails(actions[k])
    ensures var now, c := Run(w, actions), AccountOf(w, actions, Opening(w));
      Sound(now) && IsBounded(now, c) && (Live(now) ==> Cool(now, c))
  {
    if actions == [] {
      OpeningIsCool(w);
    } else {
      var n := |actions| - 1;
      var prior, c := Run(w, actions[..n]), AccountOf(w, actions[..n], Opening(w));
      AccountStaysCool(w, actions[..n]);
      StepKeepsSound(prior, actions[n]);
      if Live(prior) { StepKeepsCool(prior, actions[n], c); StaysBounded(prior, actions[n], c); }
      else { DeadKeepsBound(prior, actions[n], c); }
    }
  }

  lemma DeadKeepsBound(w: World, a: Action, c: Account)
    requires !Live(w) && IsBounded(w, c) && Fails(a)
    ensures IsBounded(Step(w, a), AfterStep(w, a, c)) && !Live(Step(w, a))
  {}

  lemma StaysBounded(w: World, a: Action, c: Account)
    requires Live(w) && IsBounded(w, c) && Fails(a)
    requires Live(Step(w, a)) ==> Cool(Step(w, a), AfterStep(w, a, c))
    ensures IsBounded(Step(w, a), AfterStep(w, a, c))
  {
    if !Live(Step(w, a)) { assert a == CleanupDoes(Finishes); }
  }

  /** In every run of a process in which no worker ever gets its first message, the host tries to
      start a worker at most once by itself, once for each accepted `start_worker` call, once for each
      continuation that a stop call grants, once for each worker that a stop call without restart
      closes, and once for each instruction that was ever sent. */
  lemma NoHotLoop(w: World, actions: seq<Action>)
    requires JustBooted(w) && Live(w) && Sound(w) && w.disk.unread <= w.disk.instructions
    requires forall k :: 0 <= k < |actions| ==> Fails(actions[k])
    ensures Attempts(w, actions) <= 1 + Requests(w, actions) + Grants(w, actions) + Kills(w, actions)
                                    + |Run(w, actions).disk.instructions|
  {
    AccountStaysCool(w, actions);
    AccountCounts(w, actions, Opening(w));
    Fits(AccountOf(w, actions, Opening(w)).charged, Run(w, actions).disk.instructions);
  }

  lemma {:induction false} UnreadIsKnown(actions: seq<Action>)
    ensures var d := Run(NewTask, actions).disk; d.unread <= d.instructions
  {
    if actions != [] {
      var n := |actions| - 1;
      UnreadIsKnown(actions[..n]);
      StepKeepsUnread(Run(NewTask, actions[..n]), actions[n]);
    }
  }

  lemma TickKeepsInbox(w: World, a: TickAction)
    ensures var d := StepTick(w, a).disk; d.unread == w.disk.unread && d.instructions == w.disk.instructions
  {}

  lemma FinalizeKeepsInbox(w: World, a: FinalizeAction)
    ensures var d := StepFinalize(w, a).disk; d.unread == w.disk.unread && d.instructions == w.disk.instructions
  {}

  lemma StopKeepsInbox(w: World, i: nat, a: StopAction)
    ensures var d := StepStop(w, i, a).disk; d.unread == w.disk.unread && d.instructions == w.disk.instructions
  {}

  lemma StepKeepsUnread(w: World, a: Action)
    requires w.disk.unread <= w.disk.instructions
    ensures Step(w, a).disk.unread <= Step(w, a).disk.instructions
  {
    match a
    case TickDoes(t) => TickKeepsInbox(w, t);
    case FinalizeDoes(f) => FinalizeKeepsInbox(w, f);
    case StopDoes(i, s) => StopKeepsInbox(w, i, s);
    case _ =>
  }

  lemma BootUnread(down: World, running: bool, o: Outcome)
    requires !Live(down)
    ensures Step(down, Booted(running, o)) == Boot(down, running, o)
    ensures Boot(down, running, o).disk.unread == down.disk.unread
    ensures Boot(down, running, o).disk.instructions == down.disk.instructions
  {}

  lemma BootIsReady(earlier: seq<Action>, running: bool, o: Outcome, w: World)
    requires !Live(Run(NewTask, earlier)) && w == Boot(Run(NewTask, earlier), running, o)
    ensures JustBooted(w) && Live(w) && Sound(w) && w.disk.unread <= w.disk.instructions
  {
    var down := Run(NewTask, earlier);
    OneAnnouncementPerSession(earlier);
    UnreadIsKnown(earlier);
    BootUnread(down, running, o);
    StepKeepsSound(down, Booted(running, o));
    BootIsJustBooted(down, running, o);
  }

  /** The same for every process in the history of every task; `w` is the process at its start. */
  lemma NoHotLoopInAnyProcess(earlier: seq<Action>, running: bool, o: Outcome, w: World, actions: seq<Action>)
    requires !Live(Run(NewTask, earlier)) && w == Boot(Run(NewTask, earlier), running, o)
    requires forall k :: 0 <= k < |actions| ==> Fails(actions[k])
    ensures Attempts(w, actions) <= 1 + Requests(w, actions) + Grants(w, actions) + Kills(w, actions)
                                    + |Run(w, actions).disk.instructions|
  {
    BootIsReady(earlier, running, o, w);
    NoHotLoop(w, actions);
  }
}
