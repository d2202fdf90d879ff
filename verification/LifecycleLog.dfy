/** What holds of the event log in every run, through crashes and restarts. */
module LifecycleLog {
  import opened Prelude
  import opened Events
  import opened Sessions
  import opened Recovery
  import opened Daemon
  import opened Lifecycle
  import opened LifecycleMoves

  // ---- at most one end per session ----

  lemma RepairKeepsEndsOnce(store: Store, o: Outcome)
    requires EndsOnce(store.log)
    ensures EndsOnce(RepairedStore(store, o).log) && EndsOnce(PartlyRepaired(store, o).log)
    ensures StartedSeqs(RepairedStore(store, o).log) == StartedSeqs(store.log)
    ensures StartedSeqs(PartlyRepaired(store, o).log) == StartedSeqs(store.log)
  {
    if SignalIsNewer(store) {
      var s := LatestSignal(store.signals).value;
      IdempotentKeepsEndsOnce(store.log, WorkerEnded(s.session, SignalReason(s)), o.appendOk);
    } else if EndIsLast(store) {
      var e := LatestEnd(store.ends).value;
      IdempotentKeepsEndsOnce(store.log, WorkerEnded(e.session, e.reason), o.appendOk);
    } else if Unmatched(store.log).Some? {
      var n := Unmatched(store.log).value;
      var durable := EndFor(store.ends, n);
      var reason := if durable.Some? then durable.value.reason else SdkCrash;
      IdempotentKeepsEndsOnce(store.log, WorkerEnded(n, reason), o.appendOk);
    }
  }

  lemma TickKeepsEndsOnce(w: World, a: TickAction)
    requires EndsOnce(w.disk.store.log)
    ensures EndsOnce(StepTick(w, a).disk.store.log)
  {
    var log := w.disk.store.log;
    match a
    case WritesStarted(ok) => if w.host.Starting? { PlainKeepsEndsOnce(log, WorkerStarted(w.host.session)); }
    case WritesAborted(readable) =>
      if w.host.Aborting? { IdempotentKeepsEndsOnce(log, WorkerEnded(w.host.session, HostInternalError), readable); }
    case _ =>
  }

  lemma FinalizeKeepsEndsOnce(w: World, a: FinalizeAction)
    requires EndsOnce(w.disk.store.log)
    ensures EndsOnce(StepFinalize(w, a).disk.store.log)
  {
    if a.WritesEnded? && w.host.FinAppending? {
      IdempotentKeepsEndsOnce(w.disk.store.log, WorkerEnded(w.host.owner.session, w.host.reason), a.readable);
    }
  }

  lemma AppendKeepsEndsOnce(w: World, i: nat, readable: bool)
    requires EndsOnce(w.disk.store.log)
    ensures EndsOnce(StopAppendEnded(w, i, readable).disk.store.log)
  {
    if i < |w.stops| && w.stops[i].session.Some? {
      IdempotentKeepsEndsOnce(w.disk.store.log, WorkerEnded(w.stops[i].session.value, StopReason(w.stops[i])), readable);
    }
  }

  lemma StopKeepsEndsOnce(w: World, i: nat, a: StopAction)
    requires EndsOnce(w.disk.store.log)
    ensures EndsOnce(StepStop(w, i, a).disk.store.log)
  {
    if a.Appends? { AppendKeepsEndsOnce(w, i, a.readable); } else { StopLeavesLog(w, i, a); }
  }

  lemma StepKeepsEndsOnce(w: World, a: Action)
    requires EndsOnce(w.disk.store.log)
    ensures EndsOnce(Step(w, a).disk.store.log)
  {
    match a
    case TickDoes(t) => TickKeepsEndsOnce(w, t);
    case FinalizeDoes(f) => FinalizeKeepsEndsOnce(w, f);
    case StopDoes(i, s) => StopKeepsEndsOnce(w, i, s);
    case CleanupDoes(c) =>
      if c.Backfills? && w.cleaner.CleanAppending? {
        IdempotentKeepsEndsOnce(w.disk.store.log, WorkerEnded(w.cleaner.session, HostShutdown), c.readable);
      }
    case Booted(running, o) => RepairKeepsEndsOnce(SetAside(w.disk.store, o), o);
    case BootCrashed(o) => RepairKeepsEndsOnce(SetAside(w.disk.store, o), o);
    case _ =>
  }

  /** In every run of any number of processes, with every interleaving of the tick loop, the stop
      calls and the cleanup, and with crashes anywhere, no worker session is ended twice in the log. */
  lemma {:induction false} AtMostOneEndPerSession(actions: seq<Action>)
    ensures EndsOnce(Run(NewTask, actions).disk.store.log)
  {
    if actions != [] {
      var n := |actions| - 1;
      AtMostOneEndPerSession(actions[..n]);
      StepKeepsEndsOnce(Run(NewTask, actions[..n]), actions[n]);
    }
  }

  // ---- session numbers stay fresh ----

  /** The counter is ahead of the log and of the number in the hands of the tick loop, which is
      itself ahead of the log. */
  predicate NumbersFresh(w: World) {
    var started := StartedSeqs(w.disk.store.log);
    && Increasing(started)
    && CounterAhead(w.disk.counter, started)
    && (w.host.Starting? ==>
          && (forall s :: s in started ==> s < w.host.session)
          && !w.disk.counter.Missing?
          && (w.disk.counter.Next? ==> w.host.session < w.disk.counter.n))
  }

  predicate IsSetAside(a: Action) {
    (a.Booted? || a.BootCrashed?) && a.outcome.corrupted
  }

  lemma TickKeepsNumbersFresh(w: World, a: TickAction)
    requires NumbersFresh(w) && EndsOnce(w.disk.store.log)
    ensures NumbersFresh(StepTick(w, a))
  {
    var log := w.disk.store.log;
    match a
    case Allocates(ok) => AllocationIsFresh(w.disk.counter, log);
    case WritesStarted(ok) => StartKeepsNumbersFresh(w, ok);
    case WritesAborted(readable) =>
      if w.host.Aborting? { EndedAfter(log, w.host.session, HostInternalError, readable); }
    case _ =>
  }

  lemma StartKeepsNumbersFresh(w: World, ok: bool)
    requires NumbersFresh(w) && EndsOnce(w.disk.store.log)
    ensures NumbersFresh(HostAppendStarted(w, ok))
  {
    if w.host.Starting? {
      PlainKeepsEndsOnce(w.disk.store.log, WorkerStarted(w.host.session));
      IncreasingSnoc(StartedSeqs(w.disk.store.log), w.host.session);
    }
  }

  lemma FinalizeKeepsNumbersFresh(w: World, a: FinalizeAction)
    requires NumbersFresh(w)
    ensures NumbersFresh(StepFinalize(w, a))
  {
    if a.WritesEnded? && w.host.FinAppending? {
      EndedAfter(w.disk.store.log, w.host.owner.session, w.host.reason, a.readable);
    }
  }

  lemma StopKeepsNumbersFresh(w: World, i: nat, a: StopAction)
    requires NumbersFresh(w)
    ensures NumbersFresh(StepStop(w, i, a))
  {
    if a.Appends? && i < |w.stops| && w.stops[i].session.Some? {
      EndedAfter(w.disk.store.log, w.stops[i].session.value, StopReason(w.stops[i]), a.readable);
    }
  }

  lemma CleanupKeepsNumbersFresh(w: World, a: CleanupAction)
    requires NumbersFresh(w)
    ensures NumbersFresh(StepCleanup(w, a))
  {
    if a.Backfills? && w.cleaner.CleanAppending? {
      EndedAfter(w.disk.store.log, w.cleaner.session, HostShutdown, a.readable);
    }
  }

  lemma BootKeepsNumbersFresh(w: World, running: bool, o: Outcome)
    requires NumbersFresh(w) && EndsOnce(w.disk.store.log)
    ensures NumbersFresh(Boot(w, running, o)) && NumbersFresh(BootCrashing(w, o))
  {
    RepairKeepsEndsOnce(SetAside(w.disk.store, o), o);
  }

  /** Anything else leaves the started sessions alone. */
  lemma OthersKeepNumbersFresh(w: World, a: Action)
    requires NumbersFresh(w)
    requires a.StartWorkerCalled? || a.StopWorkerCalled? || a.Instructed? || a.InstructionsRead? || a.SignalSent?
          || a.CounterSpoiled? || a.Crashed?
    ensures NumbersFresh(Step(w, a))
  {
    match a
    case StartWorkerCalled =>
    case StopWorkerCalled(_, _) =>
    case Instructed(_) =>
    case InstructionsRead(_) =>
    case SignalSent(_) =>
    case CounterSpoiled =>
    case Crashed =>
  }

  lemma StepKeepsNumbersFresh(w: World, a: Action)
    requires NumbersFresh(w) && EndsOnce(w.disk.store.log)
    ensures NumbersFresh(Step(w, a))
  {
    match a
    case TickDoes(t) => TickKeepsNumbersFresh(w, t);
    case FinalizeDoes(f) => FinalizeKeepsNumbersFresh(w, f);
    case StopDoes(i, s) => StopKeepsNumbersFresh(w, i, s);
    case CleanupDoes(c) => CleanupKeepsNumbersFresh(w, c);
    case Booted(running, o) => BootKeepsNumbersFresh(w, running, o);
    case BootCrashed(o) => BootKeepsNumbersFresh(w, true, o);
    case _ => OthersKeepNumbersFresh(w, a);
  }

  lemma IncreasingSnoc(s: seq<nat>, x: nat)
    requires Increasing(s) && forall y :: y in s ==> y < x
    ensures Increasing(s + [x])
  {
    forall i, j | 0 <= i < j < |s + [x]| ensures (s + [x])[i] < (s + [x])[j] {
      assert (s + [x])[i] == s[i] && s[i] in s;
    }
  }

  /** While the counter file is never deleted, with arbitrary damage to it, the numbers of the started
      sessions in the log strictly increase over all processes, and the counter is ahead of them. */
  lemma {:induction false} SessionNumbersIncrease(actions: seq<Action>)
    ensures NumbersFresh(Run(NewTask, actions))
  {
    if actions != [] {
      var n := |actions| - 1;
      SessionNumbersIncrease(actions[..n]);
      AtMostOneEndPerSession(actions[..n]);
      StepKeepsNumbersFresh(Run(NewTask, actions[..n]), actions[n]);
    }
  }
}
