/** Session numbers over the whole history of a task, logs that were set aside included. */
module LifecycleNumbers {
  import opened Prelude
  import opened Events
  import opened Sessions
  import opened Recovery
  import opened Daemon
  import opened Lifecycle
  import opened LifecycleLog
  import opened LifecycleTraces

  /** A start record is written. */
  predicate Starts(w: World, a: Action) {
    Live(w) && a == TickDoes(WritesStarted(true)) && w.host.Starting?
  }

  /** The numbers of all sessions ever started, in order, whatever log they are in. */
  function EverStarted(w: World, actions: seq<Action>): seq<nat> {
    if actions == [] then StartedSeqs(w.disk.store.log)
    else
      var n := |actions| - 1;
      var before, now := EverStarted(w, actions[..n]), Run(w, actions[..n]);
      if Starts(now, actions[n]) then before + [now.host.session] else before
  }

  predicate Allocating(w: World, a: Action) {
    Live(w) && a == TickDoes(Allocates(true)) && w.host.Allocating?
  }

  /** The counter is intact, or the greatest number ever used can be read from the log. */
  predicate KnowsLast(w: World, ever: seq<nat>) {
    w.disk.counter.Next? || forall s :: s in ever ==> s <= MaxStarted(w.disk.store.log)
  }

  predicate AlwaysKnowsLast(w: World, actions: seq<Action>) {
    forall k :: 0 <= k < |actions| && Allocating(Run(w, actions[..k]), actions[k]) ==>
      KnowsLast(Run(w, actions[..k]), EverStarted(w, actions[..k]))
  }

  predicate EverAhead(w: World, ever: seq<nat>) {
    && Increasing(ever)
    && (forall s :: s in StartedSeqs(w.disk.store.log) ==> s in ever)
    && (w.disk.counter.Missing? ==> ever == [])
    && (w.disk.counter.Next? ==> w.disk.counter.n >= 1 && forall s :: s in ever ==> s < w.disk.counter.n)
    && (w.host.Starting? ==>
          && (forall s :: s in ever ==> s < w.host.session)
          && !w.disk.counter.Missing?
          && (w.disk.counter.Next? ==> w.host.session < w.disk.counter.n))
  }

  /** Nothing was started, and no number handed out. */
  predicate SameNumbers(w: World, after: World) {
    && (forall s :: s in StartedSeqs(after.disk.store.log) ==> s in StartedSeqs(w.disk.store.log))
    && (after.disk.counter == w.disk.counter || after.disk.counter.Invalid?)
    && (after.host.Starting? ==> after.host == w.host)
  }

  lemma TickKeepsNumbers(w: World, a: TickAction)
    requires !(a.Allocates? && w.host.Allocating?) && !(a.WritesStarted? && w.host.Starting?)
    ensures SameNumbers(w, StepTick(w, a))
  {
    match a
    case Ticks =>
    case Peeks(_) =>
    case PassesGate(_) =>
    case Reconciles =>
    case Allocates(_) =>
    case WritesStarted(_) =>
    case Spawns(_) =>
    case WritesAborted(readable) =>
      if w.host.Aborting? { EndedAfter(w.disk.store.log, w.host.session, HostInternalError, readable); }
    case Injects(_) =>
    case CompletesStart =>
    case AbandonsStart =>
    case Captures =>
    case Monitors(_) =>
  }

  lemma FinalizeKeepsNumbers(w: World, a: FinalizeAction)
    ensures SameNumbers(w, StepFinalize(w, a))
  {
    if a.WritesEnded? && w.host.FinAppending? {
      EndedAfter(w.disk.store.log, w.host.owner.session, w.host.reason, a.readable);
    }
  }

  lemma StopKeepsNumbers(w: World, i: nat, a: StopAction)
    ensures SameNumbers(w, StepStop(w, i, a))
  {
    if a.Appends? && i < |w.stops| && w.stops[i].session.Some? {
      EndedAfter(w.disk.store.log, w.stops[i].session.value, StopReason(w.stops[i]), a.readable);
    }
  }

  lemma CleanupKeepsNumbers(w: World, a: CleanupAction)
    ensures SameNumbers(w, StepCleanup(w, a))
  {
    if a.Backfills? && w.cleaner.CleanAppending? {
      EndedAfter(w.disk.store.log, w.cleaner.session, HostShutdown, a.readable);
    }
  }

  lemma RepairKeepsNumbers(w: World, running: bool, o: Outcome)
    requires EndsOnce(w.disk.store.log)
    ensures SameNumbers(w, Boot(w, running, o)) && SameNumbers(w, BootCrashing(w, o))
  {
    RepairKeepsEndsOnce(SetAside(w.disk.store, o), o);
  }

  lemma StepKeepsNumbers(w: World, a: Action)
    requires EndsOnce(w.disk.store.log)
    requires !(a.TickDoes? && a.tick.Allocates? && w.host.Allocating?)
    requires !(a.TickDoes? && a.tick.WritesStarted? && w.host.Starting?)
    ensures SameNumbers(w, Step(w, a))
  {
    match a
    case TickDoes(t) => TickKeepsNumbers(w, t);
    case FinalizeDoes(f) => FinalizeKeepsNumbers(w, f);
    case StopDoes(i, s) => StopKeepsNumbers(w, i, s);
    case CleanupDoes(c) => CleanupKeepsNumbers(w, c);
    case Booted(running, o) => RepairKeepsNumbers(w, running, o);
    case BootCrashed(o) => RepairKeepsNumbers(w, true, o);
    case _ =>
  }

  /** Exactly when the number handed out is greater than every number ever used. */
  lemma AllocationFreshIff(w: World, ever: seq<nat>)
    requires EverAhead(w, ever) && w.host.Allocating?
    ensures (forall s :: s in ever ==> s < HostAllocate(w, true).host.session) <==> KnowsLast(w, ever)
    ensures KnowsLast(w, ever) ==> EverAhead(HostAllocate(w, true), ever)
  {}

  lemma StartKeepsEverAhead(w: World, ok: bool, ever: seq<nat>)
    requires EverAhead(w, ever) && w.host.Starting?
    ensures EverAhead(HostAppendStarted(w, ok), if ok then ever + [w.host.session] else ever)
  {
    IncreasingSnoc(ever, w.host.session);
    var log := w.disk.store.log;
    Snoc(log, Event(MaxEventSeq(log) + 1, WorkerStarted(w.host.session)));
  }

  lemma AllocationKeepsEverAhead(w: World, ok: bool, ever: seq<nat>)
    requires EverAhead(w, ever) && w.host.Allocating? && (ok ==> KnowsLast(w, ever))
    ensures EverAhead(HostAllocate(w, ok), ever)
  {
    AllocationFreshIff(w, ever);
  }

  lemma StepKeepsEverAhead(w: World, a: Action, ever: seq<nat>)
    requires EverAhead(w, ever) && EndsOnce(w.disk.store.log)
    requires Allocating(w, a) ==> KnowsLast(w, ever)
    ensures EverAhead(Step(w, a), if Starts(w, a) then ever + [w.host.session] else ever)
  {
    if Live(w) && a.TickDoes? && a.tick.Allocates? && w.host.Allocating? {
      AllocationKeepsEverAhead(w, a.tick.ok, ever);
    } else if Live(w) && a.TickDoes? && a.tick.WritesStarted? && w.host.Starting? {
      StartKeepsEverAhead(w, a.tick.ok, ever);
    } else if a.TickDoes? && !Live(w) {
    } else {
      StepKeepsNumbers(w, a);
    }
  }

  /** Over the whole history of a task, with logs set aside and the counter damaged at any time, no
      number is used twice as long as every allocation finds the counter intact or the greatest
      number in the log. */
  lemma {:induction false} NumbersNeverReused(actions: seq<Action>)
    requires AlwaysKnowsLast(NewTask, actions)
    ensures EverAhead(Run(NewTask, actions), EverStarted(NewTask, actions))
    ensures Increasing(EverStarted(NewTask, actions))
  {
    if actions != [] {
      var n := |actions| - 1;
      forall k | 0 <= k < n ensures actions[..n][..k] == actions[..k] && actions[..n][k] == actions[k] {}
      NumbersNeverReused(actions[..n]);
      AtMostOneEndPerSession(actions[..n]);
      StepKeepsEverAhead(Run(NewTask, actions[..n]), actions[n], EverStarted(NewTask, actions[..n]));
    }
  }

  // ---- either damage alone does no harm ----

  predicate NeverSpoiled(actions: seq<Action>) {
    forall k :: 0 <= k < |actions| ==> !actions[k].CounterSpoiled?
  }

  predicate NeverSetAside(actions: seq<Action>) {
    forall k :: 0 <= k < |actions| ==> !IsSetAside(actions[k])
  }

  lemma {:induction false} CounterIsIntact(actions: seq<Action>)
    requires NeverSpoiled(actions)
    ensures !Run(NewTask, actions).disk.counter.Invalid?
    ensures Run(NewTask, actions).disk.counter.Missing? ==> EverStarted(NewTask, actions) == []
    ensures Run(NewTask, actions).disk.counter.Missing? ==> !Run(NewTask, actions).host.Starting?
  {
    if actions != [] {
      var n := |actions| - 1;
      CounterIsIntact(actions[..n]);
      CounterStaysIntact(Run(NewTask, actions[..n]), actions[n]);
    }
  }

  lemma CounterStaysIntact(w: World, a: Action)
    requires !w.disk.counter.Invalid? && !a.CounterSpoiled? && (w.disk.counter.Missing? ==> !w.host.Starting?)
    ensures !Step(w, a).disk.counter.Invalid?
    ensures Step(w, a).disk.counter.Missing? ==> w.disk.counter.Missing? && !Step(w, a).host.Starting?
  {
    match a
    case TickDoes(t) => TickKeepsCounter(w, t);
    case FinalizeDoes(f) => FinalizeKeepsCounter(w, f);
    case StopDoes(i, s) => StopKeepsCounter(w, i, s);
    case _ =>
  }

  lemma TickKeepsCounter(w: World, a: TickAction)
    requires !w.disk.counter.Invalid? && (w.disk.counter.Missing? ==> !w.host.Starting?)
    ensures !StepTick(w, a).disk.counter.Invalid?
    ensures StepTick(w, a).disk.counter.Missing? ==> w.disk.counter.Missing? && !StepTick(w, a).host.Starting?
  {}

  lemma FinalizeKeepsCounter(w: World, a: FinalizeAction)
    ensures StepFinalize(w, a).disk.counter == w.disk.counter
    ensures StepFinalize(w, a).host.Starting? ==> w.host.Starting?
  {}

  lemma StopKeepsCounter(w: World, i: nat, a: StopAction)
    ensures StepStop(w, i, a).disk.counter == w.disk.counter && StepStop(w, i, a).host == w.host
  {}

  lemma {:induction false} LogIsWhole(actions: seq<Action>)
    requires NeverSetAside(actions)
    ensures EverStarted(NewTask, actions) == StartedSeqs(Run(NewTask, actions).disk.store.log)
  {
    if actions != [] {
      var n := |actions| - 1;
      LogIsWhole(actions[..n]);
      AtMostOneEndPerSession(actions[..n]);
      LogGrows(Run(NewTask, actions[..n]), actions[n]);
    }
  }

  lemma LogGrows(w: World, a: Action)
    requires EndsOnce(w.disk.store.log) && !IsSetAside(a)
    ensures StartedSeqs(Step(w, a).disk.store.log) ==
      if Starts(w, a) then StartedSeqs(w.disk.store.log) + [w.host.session] else StartedSeqs(w.disk.store.log)
  {
    var log := w.disk.store.log;
    match a
    case TickDoes(t) => if Live(w) { TickGrowsLog(w, t); }
    case FinalizeDoes(f) =>
      if f.WritesEnded? && w.host.FinAppending? { EndedAfter(log, w.host.owner.session, w.host.reason, f.readable); }
    case StopDoes(i, s) =>
      if s.Appends? && i < |w.stops| && w.stops[i].session.Some? {
        EndedAfter(log, w.stops[i].session.value, StopReason(w.stops[i]), s.readable);
      }
    case CleanupDoes(c) =>
      if c.Backfills? && w.cleaner.CleanAppending? { EndedAfter(log, w.cleaner.session, HostShutdown, c.readable); }
    case Booted(running, o) => RepairKeepsEndsOnce(w.disk.store, o);
    case BootCrashed(o) => RepairKeepsEndsOnce(w.disk.store, o);
    case _ =>
  }

  lemma TickGrowsLog(w: World, a: TickAction)
    ensures StartedSeqs(StepTick(w, a).disk.store.log) ==
      if a == WritesStarted(true) && w.host.Starting? then StartedSeqs(w.disk.store.log) + [w.host.session]
      else StartedSeqs(w.disk.store.log)
  {
    var log := w.disk.store.log;
    if a.WritesStarted? && w.host.Starting? {
      Snoc(log, Event(MaxEventSeq(log) + 1, WorkerStarted(w.host.session)));
    } else if a.WritesAborted? && w.host.Aborting? {
      EndedAfter(log, w.host.session, HostInternalError, a.readable);
    }
  }

  /** If the counter is never damaged, or the log never set aside, no number is ever used twice. */
  lemma OneDamageIsHarmless(actions: seq<Action>)
    requires NeverSpoiled(actions) || NeverSetAside(actions)
    ensures Increasing(EverStarted(NewTask, actions))
  {
    forall k | 0 <= k < |actions| && Allocating(Run(NewTask, actions[..k]), actions[k])
      ensures KnowsLast(Run(NewTask, actions[..k]), EverStarted(NewTask, actions[..k]))
    {
      if NeverSpoiled(actions) { CounterIsIntact(actions[..k]); } else { LogIsWhole(actions[..k]); }
    }
    NumbersNeverReused(actions);
  }

  /** Both together are not: session 1 is started, the log is set aside, the counter is damaged, and
      the next worker is session 1 again. */
  lemma BothDamagesReuseOne() returns (actions: seq<Action>)
    ensures Run(NewTask, actions).host == Starting(1)
    ensures EverStarted(NewTask, actions) == [1]
  {
    var started;
    actions, started := FirstWorkerStarted();
    var crashed := Step(started, Crashed);
    actions := ThenNothing(actions, started, Crashed);
    var spoiled := Step(crashed, CounterSpoiled);
    actions := ThenNothing(actions, crashed, CounterSpoiled);
    var booted := Step(spoiled, Booted(false, Corrupted));
    actions := ThenNothing(actions, spoiled, Booted(false, Corrupted));
    actions := SecondNumber(actions, booted);
  }

  const Corrupted := Outcome(true, true, true, Key(0, 0))

  lemma EverSnoc(w: World, soFar: seq<Action>, a: Action)
    ensures Run(w, soFar + [a]) == Step(Run(w, soFar), a)
    ensures EverStarted(w, soFar + [a]) ==
      if Starts(Run(w, soFar), a) then EverStarted(w, soFar) + [Run(w, soFar).host.session] else EverStarted(w, soFar)
  {
    assert (soFar + [a])[..|soFar|] == soFar;
  }

  lemma ThenNothing(soFar: seq<Action>, now: World, a: Action) returns (actions: seq<Action>)
    requires now == Run(NewTask, soFar) && !Starts(now, a)
    ensures Run(NewTask, actions) == Step(now, a) && EverStarted(NewTask, actions) == EverStarted(NewTask, soFar)
  {
    actions := soFar + [a];
    EverSnoc(NewTask, soFar, a);
  }

  lemma FirstWorkerStarted() returns (actions: seq<Action>, after: World)
    ensures after == Run(NewTask, actions) && EverStarted(NewTask, actions) == [1]
  {
    var booted := FirstBoot();
    assert [Booted(true, Quiet)][..0] == [];
    assert EverStarted(NewTask, [Booted(true, Quiet)][..0]) == [];
    assert EverStarted(NewTask, [Booted(true, Quiet)]) == [];
    actions := SecondNumber([Booted(true, Quiet)], booted);
    after := Step(Run(NewTask, actions), TickDoes(WritesStarted(true)));
    EverSnoc(NewTask, actions, TickDoes(WritesStarted(true)));
    actions := actions + [TickDoes(WritesStarted(true))];
  }

  /** A blank host whose log is empty takes number 1. */
  lemma SecondNumber(soFar: seq<Action>, w: World) returns (actions: seq<Action>)
    requires w == Run(NewTask, soFar) && AboutToStart(w) && Allocation(w.disk.counter, w.disk.store.log) == 1
    ensures Run(NewTask, actions).host == Starting(1) && Live(Run(NewTask, actions))
    ensures EverStarted(NewTask, actions) == EverStarted(NewTask, soFar)
  {
    actions := ThenNothing(soFar, w, TickDoes(Ticks));
    var ticked := Step(w, TickDoes(Ticks));
    actions := ThenNothing(actions, ticked, TickDoes(Reconciles));
    var reconciled := Step(ticked, TickDoes(Reconciles));
    actions := ThenNothing(actions, reconciled, TickDoes(Allocates(true)));
  }
}
