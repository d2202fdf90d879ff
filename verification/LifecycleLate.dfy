/** Exactly which sessions are left without a record when cleanup takes over from a stop call. */
module LifecycleLate {
  import opened Prelude
  import opened Events
  import opened Sessions
  import opened Recovery
  import opened Daemon
  import opened Lifecycle
  import opened LifecycleLog
  import opened LifecycleMoves
  import opened LifecycleOwners
  import opened LifecycleFence
  import opened LifecyclePairing
  import opened LifecycleSessions

  /** The session that a takeover in this state leaves behind, if any. */
  lemma LeftBehind(w: World) returns (late: Option<nat>)
    requires OneOwner(w) && HandleSound(w)
    ensures LeavesBehind(w, late)
    ensures late.Some? ==> exists i: nat :: LeavesAt(w, i, late.value)
  {
    if i :| 0 <= i < |w.stops| && IsClosing(w.stops[i]) && w.stops[i].session != w.mem.workerSessionSeq {
      assert StopIsShaped(w.stops[i]);
      late := w.stops[i].session;
      assert StopCloses(w.stops[i], late.value);
      assert LeavesAt(w, i, late.value);
    } else {
      late := None;
    }
  }

  predicate LeavesAt(w: World, i: nat, n: nat) {
    i < |w.stops| && StopCloses(w.stops[i], n) && w.mem.workerSessionSeq != Some(n)
  }

  predicate SomeTooLate(w: World, n: nat) {
    exists i :: 0 <= i < |w.stops| && TooLate(w, i, n)
  }

  lemma LeavesTooLate(w: World, i: nat, n: nat)
    requires HandleSound(w) && LeavesAt(w, i, n) && !w.stops[i].pc.StopAppending?
    ensures SomeTooLate(w, n)
  {
    assert TooLate(w, i, n);
  }


  // ---- a record that was being written when cleanup took over ----

  /** This call does not write a record for its session. */
  predicate WritesNone(t: StopCall, current: nat) {
    !t.pc.StopAppending? && (t.pc.StopEnqueuing? || t.pc.StopEnqueued? ==> t.epoch != current)
  }

  /** Stop call `k` is writing the record of `n`, and nobody else will. */
  predicate LateAppend(w: World, k: nat, n: nat) {
    && PastTakeover(w) && w.mem.workerSessionSeq != Some(n) && IsUnmatched(w.disk.store.log, n)
    && k < |w.stops| && w.stops[k].pc.StopAppending? && w.stops[k].session == Some(n)
    && (forall j :: 0 <= j < |w.stops| && j != k && w.stops[j].session == Some(n) ==>
          WritesNone(w.stops[j], w.mem.workerFinalizeEpoch))
  }

  /** It is written. */
  predicate LateDone(w: World, n: nat) {
    n in EndedSeqs(w.disk.store.log) && NobodyCloses(w, n)
  }

  lemma FinalizeKeepsLateAppend(w: World, a: FinalizeAction, k: nat, n: nat)
    requires OwnersCurrent(w) && LateAppend(w, k, n)
    ensures LateAppend(StepFinalize(w, a), k, n)
  {
    FinMoves(w, a);
    if a.WritesEnded? && w.host.FinAppending? {
      EndedAfter(w.disk.store.log, w.host.owner.session, w.host.reason, a.readable);
    } else {
      FinalizeLeavesLog(w, a);
    }
  }

  lemma CleanupKeepsLateAppend(w: World, a: CleanupAction, k: nat, n: nat)
    requires OwnersCurrent(w) && LateAppend(w, k, n)
    ensures LateAppend(StepCleanup(w, a), k, n)
  {
    if a.Backfills? && w.cleaner.CleanAppending? {
      EndedAfter(w.disk.store.log, w.cleaner.session, HostShutdown, a.readable);
    }
  }

  lemma AppendEndsLate(w: World, k: nat, n: nat)
    requires LateAppend(w, k, n)
    ensures LateDone(StepStop(w, k, Appends(true)), n)
  {
    StopMoves(w, k, Appends(true));
    StopAppendEnds(w, k, true);
  }

  lemma OtherStopMovesKeepLate(w: World, i: nat, after: World, k: nat, n: nat)
    requires OneOwner(w) && HandleSound(w) && LateAppend(w, k, n) && i != k && StopMoved(w, i, after)
    requires IsUnmatched(after.disk.store.log, n)
    ensures LateAppend(after, k, n)
  {
    assert StopIsShaped(w.stops[i]);
    assert after.stops[k] == w.stops[k];
  }

  lemma StopKeepsLateAppend(w: World, i: nat, a: StopAction, k: nat, n: nat)
    requires OneOwner(w) && HandleSound(w) && LateAppend(w, k, n) && (a.Appends? ==> a.readable)
    ensures LateAppend(StepStop(w, i, a), k, n) || LateDone(StepStop(w, i, a), n)
  {
    if i == k {
      if a.Appends? { AppendEndsLate(w, k, n); } else { OnlyItsAppendMoves(w, k, a); }
    } else {
      StopMoves(w, i, a);
      if a.Appends? { StopAppendEnds(w, i, true); } else { StopLeavesLog(w, i, a); }
      if StepStop(w, i, a) != w { OtherStopMovesKeepLate(w, i, StepStop(w, i, a), k, n); }
    }
  }

  lemma OnlyItsAppendMoves(w: World, k: nat, a: StopAction)
    requires k < |w.stops| && w.stops[k].pc.StopAppending? && !a.Appends?
    ensures StepStop(w, k, a) == w
  {}

  lemma CallKeepsLateAppend(w: World, interrupt: bool, restart: bool, k: nat, n: nat)
    requires LateAppend(w, k, n)
    ensures LateAppend(StopWorker(w, interrupt, restart), k, n)
  {
    CallMoves(w, interrupt, restart);
  }

  lemma StepKeepsLateAppend(w: World, a: Action, k: nat, n: nat)
    requires Live(w) && Sound(w) && LateAppend(w, k, n) && IsOfProcess(a) && ScansSucceed(a)
    ensures LateAppend(Step(w, a), k, n) || LateDone(Step(w, a), n)
  {
    match a
    case TickDoes(t) => NoMoreTicks(w, t);
    case FinalizeDoes(f) => FinalizeKeepsLateAppend(w, f, k, n);
    case StopDoes(i, s) => StopKeepsLateAppend(w, i, s, k, n);
    case CleanupDoes(c) => CleanupKeepsLateAppend(w, c, k, n);
    case StopWorkerCalled(interrupt, restart) => CallKeepsLateAppend(w, interrupt, restart, k, n);
    case _ =>
  }

  lemma CallClosesNothing(w: World, interrupt: bool, restart: bool, n: nat)
    requires NobodyCloses(w, n)
    ensures NobodyCloses(StopWorker(w, interrupt, restart), n)
  {
    CallMoves(w, interrupt, restart);
  }

  lemma CleanupClosesNothing(w: World, a: CleanupAction, n: nat)
    requires NobodyCloses(w, n)
    ensures NobodyCloses(StepCleanup(w, a), n)
  {
    match a
    case Begins =>
    case TakesOver =>
    case Scans =>
    case Backfills(_) =>
    case Finishes =>
  }

  lemma StepKeepsLateDone(w: World, a: Action, n: nat)
    requires Live(w) && Sound(w) && LateDone(w, n) && IsOfProcess(a)
    ensures LateDone(Step(w, a), n)
  {
    EndsRemain(w, a, n);
    match a
    case TickDoes(t) => NoMoreTicks(w, t);
    case FinalizeDoes(f) => FinalizeClosesNothing(w, f, n);
    case StopDoes(i, s) => StopClosesNothing(w, i, s, n);
    case CleanupDoes(c) => CleanupClosesNothing(w, c, n);
    case StopWorkerCalled(interrupt, restart) => CallClosesNothing(w, interrupt, restart, n);
    case _ =>
  }

  lemma TakeoverAppends(w: World, k: nat, n: nat)
    requires Live(w) && Sound(w) && Known(w) && Open(w) && w.cleaner.Waiting?
    requires LeavesAt(w, k, n) && w.stops[k].pc.StopAppending?
    ensures LateAppend(TakeOver(w), k, n)
  {
    assert Owns(w.stops[k]);
    forall j | 0 <= j < |w.stops| && j != k && w.stops[j].session == Some(n)
      ensures WritesNone(w.stops[j], TakeOver(w).mem.workerFinalizeEpoch)
    {
      assert StopIsShaped(w.stops[j]);
    }
  }

  /** Such a record is written when the call goes on, and not otherwise. */
  lemma {:induction false} LateAppendRuns(w: World, k: nat, n: nat, actions: seq<Action>)
    requires Live(w) && Sound(w) && Known(w) && Open(w) && w.cleaner.Waiting?
    requires LeavesAt(w, k, n) && w.stops[k].pc.StopAppending?
    requires Undisturbed(actions) && Live(Run(TakeOver(w), actions))
    ensures var now := Run(TakeOver(w), actions);
      Sound(now) && (LateAppend(now, k, n) || LateDone(now, n))
  {
    if actions == [] {
      TakeoverAppends(w, k, n);
      TakeoverKeepsSound(w);
    } else {
      var m := |actions| - 1;
      var prior := Run(TakeOver(w), actions[..m]);
      if !Live(prior) { DeadStaysDead(prior, actions[m]); }
      LateAppendRuns(w, k, n, actions[..m]);
      StepKeepsSound(prior, actions[m]);
      if LateAppend(prior, k, n) { StepKeepsLateAppend(prior, actions[m], k, n); } else { StepKeepsLateDone(prior, actions[m], n); }
    }
  }

  // ---- exactly which sessions are left without a record ----

  /** The record of `n`, which cleanup does not look after, is still being written. */
  predicate StillAppends(w: World, n: nat) {
    && w.mem.workerSessionSeq != Some(n)
    && exists i :: 0 <= i < |w.stops| && w.stops[i].pc.StopAppending? && w.stops[i].session == Some(n)
  }

  lemma AppendingIsUnmatched(w: World, k: nat, n: nat)
    requires LateAppend(w, k, n) || LateDone(w, n)
    ensures IsUnmatched(w.disk.store.log, n) ==> StillAppends(w, n)
    ensures StillAppends(w, n) ==> LateAppend(w, k, n) && IsUnmatched(w.disk.store.log, n)
  {}

  lemma NobodyAppends(w: World, n: nat)
    requires NobodyCloses(w, n)
    ensures !StillAppends(w, n)
  {}

  /** Without a stop call to leave behind, nobody writes a record but for the retained session. */
  lemma NoLateAppends(w: World, n: nat)
    requires LateOnly(w, None) && OneOwner(w)
    ensures !StillAppends(w, n)
  {
    forall i | 0 <= i < |w.stops| && w.stops[i].pc.StopAppending? && w.stops[i].session == Some(n)
      ensures w.mem.workerSessionSeq == Some(n)
    {
      assert StopIsShaped(w.stops[i]);
      assert IsClosing(w.stops[i]);
    }
  }

  lemma OtherLateAppends(w: World, late: nat, n: nat)
    requires LateOnly(w, Some(late)) && OneOwner(w) && n != late
    ensures !StillAppends(w, n)
  {
    forall i | 0 <= i < |w.stops| && w.stops[i].pc.StopAppending? && w.stops[i].session == Some(n)
      ensures w.mem.workerSessionSeq == Some(n)
    {
      assert StopIsShaped(w.stops[i]);
      assert IsClosing(w.stops[i]);
    }
  }

  lemma OnlyOneIsLeft(w: World, i: nat, n: nat, j: nat, m: nat)
    requires OneOwner(w) && LeavesAt(w, i, n) && LeavesAt(w, j, m)
    ensures i == j && n == m
  {
    assert Owns(w.stops[i]) && Owns(w.stops[j]);
  }

  lemma TooLateLeaves(w: World, n: nat) returns (i: nat)
    requires SomeTooLate(w, n)
    ensures LeavesAt(w, i, n) && TooLate(w, i, n)
  {
    i :| 0 <= i < |w.stops| && TooLate(w, i, n);
  }

  /** Exactly which sessions of a process cleanup leaves without a record: that of a stop call which
      had cleared the handle, while another worker had been started since, if the call had not begun to
      write its record when the wait ran out, or has not finished writing it when cleanup is done.
      `earlier` is any history of the task up to the start of the process. */
  lemma CleanupPairsExactly(earlier: seq<Action>, before: seq<Action>, after: seq<Action>,
                            w: World, atWait: World, done: World, n: nat)
    requires forall k :: 0 <= k < |earlier| ==> !IsSetAside(earlier[k])
    requires w == Run(NewTask, earlier)
    requires w.host.Idle? && w.stops == [] && w.mem.workerHandle.None? && !IsUnmatched(w.disk.store.log, n)
    requires Undisturbed(before) && Undisturbed(after)
    requires atWait == Run(w, before) && Live(atWait) && atWait.cleaner.Waiting?
    requires done == Run(TakeOver(atWait), after) && Live(done) && done.cleaner.CleanFinishing?
    ensures IsUnmatched(done.disk.store.log, n) <==> SomeTooLate(atWait, n) || StillAppends(done, n)
  {
    SessionsAccountedFor(earlier);
    RunConcat(NewTask, earlier, before);
    SessionsAccountedFor(earlier + before);
    var late := LeftBehind(atWait);
    DoneKeepsLate(w, before, atWait, late, after, done);
    if late.None? {
      NoLateAppends(done, n);
      NothingIsLeft(atWait, n);
      if IsUnmatched(done.disk.store.log, n) { CleanupPairsStarts(w, before, atWait, late, after, done, n); }
    } else {
      var i: nat :| LeavesAt(atWait, i, late.value);
      if n == late.value {
        LateOneExactly(atWait, i, n, after);
      } else {
        OtherLateAppends(done, late.value, n);
        if SomeTooLate(atWait, n) {
          var j := TooLateLeaves(atWait, n);
          OnlyOneIsLeft(atWait, i, late.value, j, n);
        }
        if IsUnmatched(done.disk.store.log, n) { CleanupPairsStarts(w, before, atWait, late, after, done, n); }
      }
    }
  }

  lemma NothingIsLeft(w: World, n: nat)
    requires LeavesBehind(w, None)
    ensures !SomeTooLate(w, n)
  {
    forall i | 0 <= i < |w.stops| ensures !TooLate(w, i, n) {}
  }

  lemma DoneKeepsLate(w: World, before: seq<Action>, atWait: World, late: Option<nat>, after: seq<Action>, done: World)
    requires Sound(w) && w.host.Idle? && w.stops == [] && w.mem.workerHandle.None?
    requires Undisturbed(before) && atWait == Run(w, before)
    requires Live(atWait) && atWait.cleaner.Waiting? && LeavesBehind(atWait, late)
    requires Undisturbed(after) && done == Run(TakeOver(atWait), after) && Live(done)
    ensures Sound(done) && LateOnly(done, late)
  {
    var earlier := UnmatchedSessions(w.disk.store.log);
    AccountedBefore(w, before, earlier);
    TakeoverLeaves(atWait, late);
    TakeoverKeepsSound(atWait);
    TakeoverAccounts(atWait, earlier, late);
    AccountedAfter(TakeOver(atWait), after, earlier, late);
  }

  /** The one session that can be left behind. */
  lemma LateOneExactly(w: World, i: nat, n: nat, actions: seq<Action>)
    requires Live(w) && Sound(w) && Known(w) && Open(w) && w.cleaner.Waiting? && LeavesAt(w, i, n)
    requires Undisturbed(actions) && Live(Run(TakeOver(w), actions))
    ensures var done := Run(TakeOver(w), actions);
      IsUnmatched(done.disk.store.log, n) <==> SomeTooLate(w, n) || StillAppends(done, n)
  {
    var done := Run(TakeOver(w), actions);
    if w.stops[i].pc.StopAppending? {
      LateAppendRuns(w, i, n, actions);
      AppendingIsUnmatched(done, i, n);
      if SomeTooLate(w, n) {
        var j := TooLateLeaves(w, n);
        OnlyOneIsLeft(w, i, n, j, n);
      }
    } else {
      LeavesTooLate(w, i, n);
      assert TooLate(w, i, n);
      LeftBehindStaysUnmatched(w, i, n, actions);
      NobodyAppends(done, n);
    }
  }
}
