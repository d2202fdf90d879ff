/** Concrete runs of the lifecycle, built tick by tick. */
module LifecycleTraces {
  import opened Prelude
  import opened Events
  import opened Sessions
  import opened Recovery
  import opened Daemon
  import opened Lifecycle
  import opened LifecycleOwners
  import opened LifecyclePairing
  import opened LifecycleFence
  import opened LifecycleSessions
  import opened LifecycleNoStall

  lemma RunOne(w: World, a: Action)
    ensures Run(w, [a]) == Step(w, a)
  {
    assert [a][..0] == [];
    assert Run(w, [a][..0]) == w;
  }

  /** Any run to `middle` can be extended by an action. */
  lemma Then(w: World, soFar: seq<Action>, middle: World, a: Action) returns (actions: seq<Action>)
    requires Run(w, soFar) == middle
    ensures actions == soFar + [a] && Run(w, actions) == Step(middle, a)
  {
    actions := soFar + [a];
    RunConcat(w, soFar, [a]);
    RunOne(middle, a);
  }

  /** Two runs, one after the other. */
  lemma Glue(w: World, soFar: seq<Action>, middle: World, more: seq<Action>, after: World) returns (actions: seq<Action>)
    requires middle == Run(w, soFar) && after == Run(middle, more)
    ensures actions == soFar + more && Run(w, actions) == after
  {
    RunConcat(w, soFar, more);
    actions := soFar + more;
  }

  lemma RunTwo(w: World, a: Action, b: Action)
    ensures Run(w, [a, b]) == Step(Step(w, a), b)
  {
    RunOne(w, a);
    var _ := Then(w, [a], Step(w, a), b);
    assert [a] + [b] == [a, b];
  }

  lemma RunThree(w: World, a: Action, b: Action, c: Action)
    ensures Run(w, [a, b, c]) == Step(Step(Step(w, a), b), c)
  {
    RunTwo(w, a, b);
    var _ := Then(w, [a, b], Step(Step(w, a), b), c);
    assert [a, b] + [c] == [a, b, c];
  }

  lemma RunFive(w: World, a: Action, b: Action, c: Action, d: Action, e: Action)
    ensures Run(w, [a, b, c, d, e]) == Step(Step(Step(Step(Step(w, a), b), c), d), e)
  {
    RunThree(w, a, b, c);
    RunTwo(Step(Step(Step(w, a), b), c), d, e);
    RunConcat(w, [a, b, c], [d, e]);
    assert [a, b, c] + [d, e] == [a, b, c, d, e];
  }

  /** An idle host that is to start a worker and need not look at the inbox first. */
  predicate AboutToStart(w: World) {
    && w.host.Idle? && w.cleaner.NotCleaning?
    && StartsWorker(w.mem) && !GateIsOpen(w.mem)
  }

  /** One tick takes such a host to the number of the new worker. */
  lemma TickToNumber(w: World) returns (actions: seq<Action>, after: World)
    requires AboutToStart(w)
    ensures after == Run(w, actions)
    ensures after.host == Starting(Allocation(w.disk.counter, w.disk.store.log))
    ensures after.mem == w.mem && after.stops == w.stops && after.cleaner == w.cleaner
    ensures after.disk.store == w.disk.store && after.disk.counter == Next(after.host.session + 1)
  {
    var w1 := Step(w, TickDoes(Ticks));
    var w2 := Step(w1, TickDoes(Reconciles));
    after := Step(w2, TickDoes(Allocates(true)));
    actions := [TickDoes(Ticks), TickDoes(Reconciles), TickDoes(Allocates(true))];
    RunThree(w, actions[0], actions[1], actions[2]);
  }

  /** ... and from there to the running worker. */
  lemma NumberToWorker(w: World) returns (actions: seq<Action>, after: World)
    requires w.host.Starting? && w.cleaner.NotCleaning?
    ensures after == Run(w, actions)
    ensures after.host.Idle? && after.stops == w.stops && after.cleaner == w.cleaner
    ensures after.mem == StartCompleted(SessionStarted(w.mem, w.host.session))
    ensures after.disk.store.ends == w.disk.store.ends && after.disk.counter == w.disk.counter
  {
    var w1 := Step(w, TickDoes(WritesStarted(true)));
    var w2 := Step(w1, TickDoes(Spawns(true)));
    var w3 := Step(w2, TickDoes(Injects(true)));
    var w4 := Step(w3, TickDoes(CompletesStart));
    after := Step(w4, TickDoes(Monitors(false)));
    actions := [TickDoes(WritesStarted(true)), TickDoes(Spawns(true)), TickDoes(Injects(true)),
                TickDoes(CompletesStart), TickDoes(Monitors(false))];
    RunFive(w, actions[0], actions[1], actions[2], actions[3], actions[4]);
  }

  lemma TickStartsWorker(w: World) returns (actions: seq<Action>, after: World, n: nat)
    requires AboutToStart(w)
    ensures after == Run(w, actions)
    ensures after.host.Idle? && after.stops == w.stops && after.cleaner == w.cleaner
    ensures n == Allocation(w.disk.counter, w.disk.store.log)
    ensures after.mem == StartCompleted(SessionStarted(w.mem, n))
    ensures after.disk.store.ends == w.disk.store.ends && after.disk.counter == Next(n + 1)
  {
    var first, numbered := TickToNumber(w);
    var second, running := NumberToWorker(numbered);
    actions := Glue(w, first, numbered, second, running);
    after, n := running, numbered.host.session;
  }

  const Quiet := Outcome(false, true, true, Key(0, 0))

  /** The first start of a new task. */
  lemma FirstBoot() returns (w: World)
    ensures w == Run(NewTask, [Booted(true, Quiet)])
    ensures AboutToStart(w) && w.stops == [] && w.mem == Blank && w.disk.counter == Missing && w.disk.store.ends == []
  {
    w := Boot(NewTask, true, Quiet);
    RunOne(NewTask, Booted(true, Quiet));
    assert LatestSignal([]).None? && NewestEnd([]).None? && Unmatched([]).None?;
  }

  // ---- a stop call inside the start of a worker ----

  /** The worker's session is started and its first message is on the way. */
  lemma NumberToInject(w: World) returns (actions: seq<Action>, after: World)
    requires w.host.Starting? && w.cleaner.NotCleaning?
    ensures after == Run(w, actions)
    ensures after.host.Injecting? && after.stops == w.stops && after.cleaner == w.cleaner
    ensures after.mem == SessionStarted(w.mem, w.host.session)
  {
    var w1 := Step(w, TickDoes(WritesStarted(true)));
    after := Step(w1, TickDoes(Spawns(true)));
    actions := [TickDoes(WritesStarted(true)), TickDoes(Spawns(true))];
    RunTwo(w, actions[0], actions[1]);
  }

  /** A plain stop call runs from its entry to the clearing of the handle. */
  lemma StopClears(w: World) returns (actions: seq<Action>, after: World)
    requires Live(w) && w.stops == [] && w.mem.workerHandle.Some? && !w.mem.workerFinalizing
    requires w.mem.workerSessionSeq == w.mem.workerHandle
    ensures after == Run(w, actions) && after.host == w.host && after.cleaner == w.cleaner && |after.stops| == 1
    ensures after.stops[0] == StopCall(StopEnqueuing, true, w.mem.workerHandle, w.mem.workerFinalizeEpoch, false, false)
    ensures after.mem.workerHandle.None? && after.mem.workerSessionSeq == w.mem.workerSessionSeq
    ensures after.mem.workerFinalizeEpoch == w.mem.workerFinalizeEpoch && after.disk.counter == w.disk.counter
    ensures after.mem.workerStartFailedPending == w.mem.workerStartFailedPending
  {
    var w1 := Step(w, StopWorkerCalled(false, false));
    var w2 := Step(w1, StopDoes(0, KillReturns(true)));
    after := Step(w2, StopDoes(0, Resumes));
    actions := [StopWorkerCalled(false, false), StopDoes(0, KillReturns(true)), StopDoes(0, Resumes)];
    RunThree(w, actions[0], actions[1], actions[2]);
  }

  /** ... writes its envelope and its record ... */
  lemma StopWrites(w: World) returns (actions: seq<Action>, after: World)
    requires Live(w) && |w.stops| == 1 && w.stops[0].pc.StopEnqueuing? && w.stops[0].session.Some?
    requires w.stops[0].epoch == w.mem.workerFinalizeEpoch
    ensures after == Run(w, actions) && after.host == w.host && after.cleaner == w.cleaner && after.mem == w.mem
    ensures after.stops == [w.stops[0].(pc := StopContinuing)]
  {
    var w1 := Step(w, StopDoes(0, Enqueues(true, Key(0, 0))));
    assert w1.mem == w.mem && w1.stops == [w.stops[0].(pc := StopEnqueued)];
    var w2 := Step(w1, StopDoes(0, Checks));
    assert w2.mem == w.mem && w2.stops == [w.stops[0].(pc := StopAppending)];
    after := Step(w2, StopDoes(0, Appends(true)));
    actions := [StopDoes(0, Enqueues(true, Key(0, 0))), StopDoes(0, Checks), StopDoes(0, Appends(true))];
    RunThree(w, actions[0], actions[1], actions[2]);
  }

  /** ... and lets go of the guard. */
  lemma StopLetsGo(w: World) returns (actions: seq<Action>, after: World)
    requires Live(w) && |w.stops| == 1 && w.stops[0].pc.StopContinuing? && !w.stops[0].interrupt && !w.stops[0].restart
    ensures after == Run(w, actions) && after.host == w.host && after.cleaner == w.cleaner
    ensures |after.stops| == 1 && after.stops[0].pc.StopDone?
    ensures after.mem.workerHandle == w.mem.workerHandle && after.mem.workerSessionSeq == w.mem.workerSessionSeq
  {
    var w1 := Step(w, StopDoes(0, Continues));
    after := Step(w1, StopDoes(0, Releases));
    actions := [StopDoes(0, Continues), StopDoes(0, Releases)];
    RunTwo(w, actions[0], actions[1]);
  }

  lemma StartEnds(w: World) returns (actions: seq<Action>, after: World)
    requires w.host.Injecting? && w.cleaner.NotCleaning? && w.mem.workerHandle.None? && w.mem.workerSessionSeq.Some?
    requires forall i :: 0 <= i < |w.stops| ==> w.stops[i].pc.StopDone?
    ensures after == Run(w, actions) && Stalled(after)
  {
    var w1 := Step(w, TickDoes(Injects(true)));
    var w2 := Step(w1, TickDoes(CompletesStart));
    after := Step(w2, TickDoes(Monitors(false)));
    actions := [TickDoes(Injects(true)), TickDoes(CompletesStart), TickDoes(Monitors(false))];
    RunThree(w, actions[0], actions[1], actions[2]);
  }

  /** A `stop_worker` that closes the new worker while its first message is still on the way has its
      flag wiped when the start completes: the host is left stalled. */
  lemma StopDuringStartStalls() returns (actions: seq<Action>, after: World)
    ensures after == Run(NewTask, actions) && Stalled(after)
  {
    var first, stopped := FirstWorkerStoppedInStart();
    var second;
    second, after := StartEnds(stopped);
    actions := Glue(NewTask, first, stopped, second, after);
  }

  lemma FirstWorkerStoppedInStart() returns (actions: seq<Action>, after: World)
    ensures after == Run(NewTask, actions) && after.host.Injecting? && after.cleaner.NotCleaning?
    ensures |after.stops| == 1 && after.stops[0].pc.StopDone?
    ensures after.mem.workerHandle.None? && after.mem.workerSessionSeq == Some(1)
  {
    var first, injecting := FirstWorkerInjecting();
    var second;
    second, after := StopClearsAndEnds(injecting);
    actions := Glue(NewTask, first, injecting, second, after);
  }

  lemma FirstWorkerInjecting() returns (actions: seq<Action>, after: World)
    ensures after == Run(NewTask, actions) && after.host.Injecting? && after.cleaner.NotCleaning? && after.stops == []
    ensures after.mem == SessionStarted(Blank, 1)
  {
    var booted := FirstBoot();
    var first, numbered := TickToNumber(booted);
    var second;
    second, after := NumberToInject(numbered);
    actions := Glue(NewTask, [Booted(true, Quiet)], booted, first, numbered);
    actions := Glue(NewTask, actions, numbered, second, after);
  }

  lemma StopClearsAndEnds(w: World) returns (actions: seq<Action>, after: World)
    requires Live(w) && w.stops == [] && w.mem == SessionStarted(Blank, 1)
    ensures after == Run(w, actions) && after.host == w.host && after.cleaner == w.cleaner
    ensures |after.stops| == 1 && after.stops[0].pc.StopDone?
    ensures after.mem.workerHandle.None? && after.mem.workerSessionSeq == Some(1)
  {
    var first, cleared := StopClears(w);
    var second, written := StopWrites(cleared);
    var third;
    third, after := StopLetsGo(written);
    actions := Glue(w, first, cleared, second, written);
    actions := Glue(w, actions, written, third, after);
  }

  // ---- a takeover while a newer worker runs ----

  /** A stop call closes worker 1 and waits for its envelope while Meta starts worker 2; if cleanup's
      wait then runs out, worker 1 is left without a record. */
  lemma TakeoverCanLoseARecord() returns (actions: seq<Action>)
    ensures var w := Run(NewTask, actions); Live(w) && w.cleaner.Waiting? && TooLate(w, 0, 1)
  {
    var first, stopped := FirstWorkerStopped();
    var requested := Step(stopped, StartWorkerCalled);
    var second, running, n := TickStartsWorker(requested);
    actions := Then(NewTask, first, stopped, StartWorkerCalled);
    actions := Glue(NewTask, actions, requested, second, running);
    actions := Then(NewTask, actions, running, CleanupDoes(Begins));
  }

  lemma FirstWorkerStopped() returns (actions: seq<Action>, after: World)
    ensures after == Run(NewTask, actions) && after.host.Idle? && after.cleaner.NotCleaning?
    ensures after.mem.workerHandle.None? && after.disk.counter == Next(2)
    ensures |after.stops| == 1 && StopCloses(after.stops[0], 1) && after.stops[0].pc.StopEnqueuing?
  {
    var booted := FirstBoot();
    var first, running, n := TickStartsWorker(booted);
    var second;
    second, after := StopClears(running);
    actions := Glue(NewTask, [Booted(true, Quiet)], booted, first, running);
    actions := Glue(NewTask, actions, running, second, after);
  }

  // ---- the guard that a superseded stop call lets go ----

  /** A superseded stop call is about to release the guard that cleanup holds, and the worker is there. */
  predicate ReleasesForeignGuard(w: World) {
    && Live(w) && w.cleaner.Taken? && |w.stops| == 1 && w.stops[0].pc.StopReleasing? && w.stops[0].hadActiveHandle
    && w.mem.workerHandle.Some? && w.mem.workerSessionSeq == w.mem.workerHandle
  }

  /** The wait runs out while the worker is being closed ... */
  lemma StopIsOvertaken(w: World) returns (actions: seq<Action>, after: World)
    requires Live(w) && w.stops == [] && w.host.Idle? && w.cleaner.NotCleaning? && !w.mem.workerFinalizing
    requires w.mem.workerHandle.Some? && w.mem.workerSessionSeq == w.mem.workerHandle
    ensures after == Run(w, actions) && after.disk == w.disk && Live(after) && after.cleaner.Taken?
    ensures after.mem.workerHandle == after.mem.workerSessionSeq == w.mem.workerHandle
    ensures after.stops == [StopCall(StopClosing, true, w.mem.workerHandle, w.mem.workerFinalizeEpoch, false, false)]
  {
    var w1 := Step(w, StopWorkerCalled(false, false));
    var w2 := Step(w1, CleanupDoes(Begins));
    after := Step(w2, CleanupDoes(TakesOver));
    actions := [StopWorkerCalled(false, false), CleanupDoes(Begins), CleanupDoes(TakesOver)];
    RunThree(w, actions[0], actions[1], actions[2]);
  }

  /** ... and then the close fails. */
  lemma StopFails(w: World) returns (actions: seq<Action>, after: World)
    requires Live(w) && w.cleaner.Taken? && |w.stops| == 1 && w.stops[0].pc.StopClosing? && w.stops[0].hadActiveHandle
    requires w.mem.workerHandle.Some? && w.mem.workerSessionSeq == w.mem.workerHandle
    ensures after == Run(w, actions) && ReleasesForeignGuard(after)
    ensures after.disk == w.disk && after.mem.workerHandle == w.mem.workerHandle
  {
    var w1 := Step(w, StopDoes(0, KillReturns(false)));
    after := Step(w1, StopDoes(0, Resumes));
    actions := [StopDoes(0, KillReturns(false)), StopDoes(0, Resumes)];
    RunTwo(w, actions[0], actions[1]);
  }

  /** After the takeover an end can still be announced, by a stop call that arrives later: nothing had
      been announced when the superseded call was about to return, and then worker 1 is. */
  lemma EndAnnouncedAfterTakeover() returns (before: seq<Action>, after: seq<Action>)
    ensures before <= after && PastTakeover(Run(NewTask, before)) && Run(NewTask, before).disk.store.ends == []
    ensures var w := Run(NewTask, after);
      PastTakeover(w) && |w.disk.store.ends| == 1 && w.disk.store.ends[0].session == 1
  {
    var superseded;
    before, superseded := FirstWorkerSuperseded();
    var first, closing := ReleasedGuardAdmitsNewOwner(superseded);
    var second, announced := NewOwnerAnnounces(closing);
    after := Glue(NewTask, before, superseded, first, closing);
    after := Glue(NewTask, after, closing, second, announced);
  }

  lemma FirstWorkerSuperseded() returns (actions: seq<Action>, after: World)
    ensures after == Run(NewTask, actions) && ReleasesForeignGuard(after)
    ensures after.mem.workerHandle == Some(1) && after.disk.store.ends == []
  {
    var booted := FirstBoot();
    var first, running, n := TickStartsWorker(booted);
    var second;
    var overtaken;
    second, overtaken := StopIsOvertaken(running);
    var third;
    third, after := StopFails(overtaken);
    actions := Glue(NewTask, [Booted(true, Quiet)], booted, first, running);
    actions := Glue(NewTask, actions, running, second, overtaken);
    actions := Glue(NewTask, actions, overtaken, third, after);
  }

  /** The superseded call releases the guard, the next stop call becomes an owner of the new epoch ... */
  lemma ReleasedGuardAdmitsNewOwner(w: World) returns (actions: seq<Action>, after: World)
    requires ReleasesForeignGuard(w)
    ensures after == Run(w, actions) && after.disk == w.disk && Live(after) && after.cleaner.Taken?
    ensures |after.stops| == 2 && after.stops[1] ==
      StopCall(StopClosing, true, w.mem.workerHandle, after.mem.workerFinalizeEpoch, false, false)
  {
    var w1 := Step(w, StopDoes(0, Releases));
    after := Step(w1, StopWorkerCalled(false, false));
    actions := [StopDoes(0, Releases), StopWorkerCalled(false, false)];
    RunTwo(w, actions[0], actions[1]);
  }

  /** ... and announces the end. */
  lemma NewOwnerAnnounces(w: World) returns (actions: seq<Action>, after: World)
    requires Live(w) && w.cleaner.Taken? && |w.stops| == 2 && w.stops[1].pc.StopClosing? && w.stops[1].session.Some?
    requires w.stops[1].epoch == w.mem.workerFinalizeEpoch
    ensures after == Run(w, actions) && PastTakeover(after)
    ensures |after.disk.store.ends| == |w.disk.store.ends| + 1
    ensures after.disk.store.ends[|w.disk.store.ends|].session == w.stops[1].session.value
  {
    var w1 := Step(w, StopDoes(1, KillReturns(true)));
    var w2 := Step(w1, StopDoes(1, Resumes));
    after := Step(w2, StopDoes(1, Enqueues(true, Key(0, 0))));
    actions := [StopDoes(1, KillReturns(true)), StopDoes(1, Resumes), StopDoes(1, Enqueues(true, Key(0, 0)))];
    RunThree(w, actions[0], actions[1], actions[2]);
  }
}
