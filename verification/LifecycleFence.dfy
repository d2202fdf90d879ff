/** The epoch fence: once cleanup has taken over, the closeout it superseded starts no further write. */
module LifecycleFence {
  import opened Prelude
  import opened Events
  import opened Sessions
  import opened Recovery
  import opened Daemon
  import opened Lifecycle
  import opened LifecycleMoves
  import opened LifecycleOwners

  /** Cleanup is in charge. */
  predicate PastTakeover(w: World) {
    w.cleaner.Taken? || w.cleaner.CleanAppending? || w.cleaner.CleanFinishing? || w.cleaner.Exited?
  }

  /** Every closeout that is still under way belongs to an epoch before the takeover. */
  predicate Fenced(w: World) {
    && PastTakeover(w)
    && (w.host.Idle? || (InFinalize(w.host) && w.host.owner.epoch != w.mem.workerFinalizeEpoch))
    && (forall i :: 0 <= i < |w.stops| && Owns(w.stops[i]) ==> w.stops[i].epoch != w.mem.workerFinalizeEpoch)
    && (forall i :: 0 <= i < |w.stops| ==> StopIsShaped(w.stops[i]))
    && (w.cleaner.CleanAppending? ==> w.mem.workerSessionSeq == Some(w.cleaner.session))
  }

  /** The envelope of an end is being written. */
  predicate EndUnderWay(w: World) {
    w.host.FinEnqueuing? || exists i :: 0 <= i < |w.stops| && w.stops[i].pc.StopEnqueuing?
  }

  /** The record of an end is being written (not counting cleanup's own). */
  predicate RecordUnderWay(w: World) {
    w.host.FinAppending? || exists i :: 0 <= i < |w.stops| && w.stops[i].pc.StopAppending?
  }

  /** What the current process does, except taking a new stop call. */
  predicate IsAftermath(a: Action) {
    !a.StopWorkerCalled? && !a.Crashed? && !a.Booted? && !a.BootCrashed?
  }

  /** Only the session that cleanup retained can have been ended in between. */
  predicate OnlyBackfilled(before: World, after: World) {
    && StartedSeqs(after.disk.store.log) == StartedSeqs(before.disk.store.log)
    && (forall n :: n in EndedSeqs(after.disk.store.log) ==>
          n in EndedSeqs(before.disk.store.log) || Some(n) == before.mem.workerSessionSeq)
  }

  /** A takeover by timeout supersedes every owner there is. */
  lemma TakeoverFences(w: World)
    requires OneOwner(w) && OwnersCurrent(w) && w.cleaner.Waiting?
    ensures Fenced(TakeOver(w))
  {}

  lemma FinMovedIsFenced(w: World, after: World)
    requires Fenced(w) && FinMoved(w, after)
    ensures Fenced(after)
    ensures !EndUnderWay(w) ==> !EndUnderWay(after)
    ensures !RecordUnderWay(w) ==> !RecordUnderWay(after)
  {
    assert forall i :: 0 <= i < |after.stops| ==> after.stops[i] == w.stops[i];
  }

  lemma FinalizeIsFenced(w: World, a: FinalizeAction)
    requires Fenced(w)
    ensures var after := StepFinalize(w, a);
      && Fenced(after) && after.mem.workerSessionSeq == w.mem.workerSessionSeq
      && (!EndUnderWay(w) ==> !EndUnderWay(after) && after.disk.store.ends == w.disk.store.ends)
      && (!RecordUnderWay(w) ==> !RecordUnderWay(after) && after.disk.store.log == w.disk.store.log)
  {
    FinMoves(w, a);
    if StepFinalize(w, a) != w { FinMovedIsFenced(w, StepFinalize(w, a)); }
    if !EndUnderWay(w) { FinalizeLeavesEnds(w, a); }
    if !RecordUnderWay(w) { FinalizeLeavesLog(w, a); }
  }

  lemma StopMovedIsFenced(w: World, i: nat, after: World)
    requires Fenced(w) && StopMoved(w, i, after)
    ensures Fenced(after)
    ensures !EndUnderWay(w) ==> !EndUnderWay(after)
    ensures !RecordUnderWay(w) ==> !RecordUnderWay(after)
  {
    assert StopIsShaped(w.stops[i]);
    forall j | 0 <= j < |after.stops| && j != i ensures after.stops[j] == w.stops[j] {}
  }

  lemma StopIsFenced(w: World, i: nat, a: StopAction)
    requires Fenced(w)
    ensures var after := StepStop(w, i, a);
      && Fenced(after) && after.mem.workerSessionSeq == w.mem.workerSessionSeq
      && (!EndUnderWay(w) ==> !EndUnderWay(after) && after.disk.store.ends == w.disk.store.ends)
      && (!RecordUnderWay(w) ==> !RecordUnderWay(after) && after.disk.store.log == w.disk.store.log)
  {
    StopMoves(w, i, a);
    if StepStop(w, i, a) != w { StopMovedIsFenced(w, i, StepStop(w, i, a)); }
    if !EndUnderWay(w) { StopAnnouncesNothing(w, i, a); }
    if !RecordUnderWay(w) { StopRecordsNothing(w, i, a); }
  }

  lemma StopAnnouncesNothing(w: World, i: nat, a: StopAction)
    requires !EndUnderWay(w)
    ensures StepStop(w, i, a).disk.store.ends == w.disk.store.ends
  {
    if !a.Enqueues? { StopLeavesEnds(w, i, a); }
  }

  lemma StopRecordsNothing(w: World, i: nat, a: StopAction)
    requires !RecordUnderWay(w)
    ensures StepStop(w, i, a).disk.store.log == w.disk.store.log
  {
    if !a.Appends? { StopLeavesLog(w, i, a); }
  }

  lemma CleanupIsFenced(w: World, a: CleanupAction)
    requires Fenced(w)
    ensures var after := StepCleanup(w, a);
      && Fenced(after) && after.mem.workerSessionSeq == w.mem.workerSessionSeq
      && after.disk.store.ends == w.disk.store.ends && OnlyBackfilled(w, after)
      && (!EndUnderWay(w) ==> !EndUnderWay(after)) && (!RecordUnderWay(w) ==> !RecordUnderWay(after))
  {
    if a.Backfills? && w.cleaner.CleanAppending? {
      EndedAfter(w.disk.store.log, w.cleaner.session, HostShutdown, a.readable);
    }
  }

  lemma TickIsFenced(w: World, a: TickAction)
    requires Fenced(w) && Live(w) && IsAftermath(TickDoes(a))
    ensures StepTick(w, a) == w
  {}

  lemma StepIsFenced(w: World, a: Action)
    requires Fenced(w) && IsAftermath(a)
    ensures var after := Step(w, a);
      && Fenced(after) && after.mem.workerSessionSeq == w.mem.workerSessionSeq
      && (!EndUnderWay(w) ==> !EndUnderWay(after) && after.disk.store.ends == w.disk.store.ends)
      && (!RecordUnderWay(w) ==> !RecordUnderWay(after) && OnlyBackfilled(w, after))
  {
    match a
    case TickDoes(t) => if Live(w) { TickIsFenced(w, t); }
    case FinalizeDoes(f) => FinalizeIsFenced(w, f);
    case StopDoes(i, s) => StopIsFenced(w, i, s);
    case CleanupDoes(c) => CleanupIsFenced(w, c);
    case _ =>
  }

  /** After the takeover, a superseded owner that was not in the middle of a write adds nothing: no
      end is announced any more, and the only record that can still appear is the one that cleanup
      writes for the session it retained. A write already begun may still land, and no other. */
  lemma {:induction false} SupersededOwnerWritesNothing(w: World, actions: seq<Action>)
    requires Fenced(w) && forall k :: 0 <= k < |actions| ==> IsAftermath(actions[k])
    ensures var after := Run(w, actions);
      && Fenced(after) && after.mem.workerSessionSeq == w.mem.workerSessionSeq
      && (!EndUnderWay(w) ==> !EndUnderWay(after) && after.disk.store.ends == w.disk.store.ends)
      && (!RecordUnderWay(w) ==> !RecordUnderWay(after) && OnlyBackfilled(w, after))
  {
    if actions != [] {
      var n := |actions| - 1;
      SupersededOwnerWritesNothing(w, actions[..n]);
      StepIsFenced(Run(w, actions[..n]), actions[n]);
    }
  }
}
