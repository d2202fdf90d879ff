/** A run that shows why the bound on start attempts counts the workers that stop calls close. */
module LifecycleHotTrace {
  import opened Prelude
  import opened Events
  import opened Sessions
  import opened Recovery
  import opened Daemon
  import opened Lifecycle
  import opened LifecycleOwners
  import opened LifecycleTraces
  import opened LifecycleHotLoop

  /** A failure that is neither a `start_worker` call nor a continuation granted. */
  predicate IsPlain(w: World, a: Action) {
    Fails(a) && !IsRequest(w, a) && !IsGrant(w, a)
  }

  /** A run of such steps from `from` to `now` with `n` attempts, in which `kills` workers are closed. */
  ghost predicate Trail(from: World, actions: seq<Action>, now: World, n: nat, kills: nat) {
    && Run(from, actions) == now
    && (forall k :: 0 <= k < |actions| ==> Fails(actions[k]))
    && Attempts(from, actions) == n && Kills(from, actions) == kills
    && Requests(from, actions) == 0 && Grants(from, actions) == 0
  }

  lemma TrailStep(from: World, soFar: seq<Action>, now: World, n: nat, kills: nat, a: Action)
    returns (actions: seq<Action>)
    requires Trail(from, soFar, now, n, kills) && IsPlain(now, a)
    ensures actions == soFar + [a]
    ensures Trail(from, actions, Step(now, a), if IsAttempt(now, a) then n + 1 else n,
                  if IsKill(now, a) then kills + 1 else kills)
  {
    actions := soFar + [a];
    assert actions[..|actions| - 1] == soFar && actions[|actions| - 1] == a;
  }

  lemma TrailTwo(w: World, a: Action, middle: World, b: Action, after: World) returns (actions: seq<Action>)
    requires IsPlain(w, a) && IsPlain(middle, b)
    requires !IsAttempt(w, a) && !IsKill(middle, b) && middle == Step(w, a) && after == Step(middle, b)
    ensures Trail(w, actions, after, if IsAttempt(middle, b) then 1 else 0, if IsKill(w, a) then 1 else 0)
  {
    actions := TrailStep(w, [], w, 0, 0, a);
    actions := TrailStep(w, actions, middle, 0, if IsKill(w, a) then 1 else 0, b);
  }

  lemma {:induction false} CountConcat(w: World, a: seq<Action>, b: seq<Action>, counts: (World, Action) -> bool)
    ensures Count(w, a + b, counts) == Count(w, a, counts) + Count(Run(w, a), b, counts)
  {
    if b == [] {
      assert a + b == a;
    } else {
      var n := |b| - 1;
      CountConcat(w, a, b[..n], counts);
      RunConcat(w, a, b[..n]);
      assert (a + b)[..|a + b| - 1] == a + b[..n];
    }
  }

  lemma TrailGlue(from: World, first: seq<Action>, middle: World, n: nat, kills: nat,
                  second: seq<Action>, now: World, m: nat, more: nat)
    returns (actions: seq<Action>)
    requires Trail(from, first, middle, n, kills) && Trail(middle, second, now, m, more)
    ensures actions == first + second && Trail(from, actions, now, n + m, kills + more)
  {
    actions := first + second;
    RunConcat(from, first, second);
    CountConcat(from, first, second, IsAttempt);
    CountConcat(from, first, second, IsKill);
    CountConcat(from, first, second, IsRequest);
    CountConcat(from, first, second, IsGrant);
  }

  // ---- the turns of the loop ----

  /** One unread instruction, and no closeout under way. */
  predicate HasOneUnread(w: World) {
    w.disk.unread == w.disk.instructions == {7} && w.cleaner.NotCleaning? && !w.mem.workerStartFailedPending
  }

  /** Between workers, after a plain stop. */
  predicate Ripe(w: World) {
    && HasOneUnread(w) && w.host.Idle? && w.mem.workerHandle.None?
    && w.mem.metaStopNoRestart && !w.mem.workerFinalizing
  }

  /** A worker has been numbered, and is not started yet. */
  predicate IsNumbered(w: World) {
    HasOneUnread(w) && w.host.Starting? && w.mem.workerHandle.None? && !w.mem.workerFinalizing
  }

  /** The plain stop call `i`, at some point of its way. */
  predicate PlainStopAt(w: World, i: nat, pc: StopPc) {
    i < |w.stops| && w.stops[i].pc == pc && w.stops[i].hadActiveHandle && w.stops[i].session.Some?
    && w.stops[i].epoch == w.mem.workerFinalizeEpoch && !w.stops[i].interrupt && !w.stops[i].restart
  }

  predicate BeingStopped(w: World, i: nat) {
    HasOneUnread(w) && PlainStopAt(w, i, StopClosing) && w.mem.workerHandle.Some? && w.mem.workerFinalizing
  }

  predicate Stopped(w: World, i: nat, pc: StopPc) {
    && HasOneUnread(w) && PlainStopAt(w, i, pc) && w.host.Idle? && w.mem.workerHandle.None?
    && w.mem.metaStopNoRestart
  }

  /** The old instruction opens the gate ... */
  lemma RipeToGate(w: World) returns (actions: seq<Action>, after: World)
    requires Ripe(w)
    ensures Trail(w, actions, after, 0, 0) && HasOneUnread(after) && after.host == AtGate({7}) && after.mem == w.mem
  {
    var w1 := Step(w, TickDoes(Ticks));
    after := Step(w1, TickDoes(Peeks(true)));
    actions := TrailTwo(w, TickDoes(Ticks), w1, TickDoes(Peeks(true)), after);
  }

  /** ... and the tick decides to start a worker. */
  lemma GateToAttempt(w: World) returns (actions: seq<Action>, after: World)
    requires HasOneUnread(w) && w.host == AtGate({7}) && w.mem.metaStopNoRestart
    requires w.mem.workerHandle.None? && !w.mem.workerFinalizing
    ensures Trail(w, actions, after, 1, 0) && HasOneUnread(after) && after.host.Allocating?
    ensures after.mem.workerHandle.None? && !after.mem.workerFinalizing
  {
    var w1 := Step(w, TickDoes(PassesGate(false)));
    assert 7 in {7};
    after := Step(w1, TickDoes(Reconciles));
    actions := TrailTwo(w, TickDoes(PassesGate(false)), w1, TickDoes(Reconciles), after);
  }

  lemma AttemptToNumber(w: World) returns (actions: seq<Action>, after: World)
    requires HasOneUnread(w) && w.host.Allocating? && w.mem.workerHandle.None? && !w.mem.workerFinalizing
    ensures Trail(w, actions, after, 0, 0) && IsNumbered(after)
  {
    after := Step(w, TickDoes(Allocates(true)));
    actions := TrailStep(w, [], w, 0, 0, TickDoes(Allocates(true)));
  }

  lemma NumberToInject(w: World) returns (actions: seq<Action>, after: World)
    requires IsNumbered(w)
    ensures Trail(w, actions, after, 0, 0) && HasOneUnread(after) && after.host.Injecting?
    ensures after.mem.workerHandle.Some? && after.mem.workerSessionSeq.Some? && !after.mem.workerFinalizing
  {
    var w1 := Step(w, TickDoes(WritesStarted(true)));
    after := Step(w1, TickDoes(Spawns(true)));
    actions := TrailTwo(w, TickDoes(WritesStarted(true)), w1, TickDoes(Spawns(true)), after);
  }

  /** While the first message is on its way, Meta calls `stop_worker`; then the message fails. */
  lemma InjectIsStopped(w: World) returns (actions: seq<Action>, after: World)
    requires HasOneUnread(w) && w.host.Injecting?
    requires w.mem.workerHandle.Some? && w.mem.workerSessionSeq.Some? && !w.mem.workerFinalizing
    ensures Trail(w, actions, after, 0, 0) && BeingStopped(after, |w.stops|) && after.host.StartDone?
  {
    var w1 := Step(w, StopWorkerCalled(false, false));
    assert PlainStopAt(w1, |w.stops|, StopClosing);
    after := Step(w1, TickDoes(Injects(false)));
    actions := TrailTwo(w, StopWorkerCalled(false, false), w1, TickDoes(Injects(false)), after);
  }

  /** The start completes, and the tick leaves the closeout to the stop call. */
  lemma StartEndsUnderStop(w: World, i: nat) returns (actions: seq<Action>, after: World)
    requires BeingStopped(w, i) && w.host.StartDone?
    ensures Trail(w, actions, after, 0, 0) && BeingStopped(after, i) && after.host.Idle?
  {
    var w1 := Step(w, TickDoes(CompletesStart));
    after := Step(w1, TickDoes(Monitors(true)));
    actions := TrailTwo(w, TickDoes(CompletesStart), w1, TickDoes(Monitors(true)), after);
  }

  lemma KillToClear(w: World, i: nat) returns (actions: seq<Action>, after: World)
    requires BeingStopped(w, i) && w.host.Idle?
    ensures Trail(w, actions, after, 0, 1) && Stopped(after, i, StopEnqueuing)
  {
    var w1 := Step(w, StopDoes(i, KillReturns(true)));
    assert PlainStopAt(w1, i, StopResuming(Dispatched)) && w1.mem.metaStopNoRestart;
    after := Step(w1, StopDoes(i, Resumes));
    actions := TrailTwo(w, StopDoes(i, KillReturns(true)), w1, StopDoes(i, Resumes), after);
  }

  lemma ClearToCheck(w: World, i: nat) returns (actions: seq<Action>, after: World)
    requires Stopped(w, i, StopEnqueuing)
    ensures Trail(w, actions, after, 0, 0) && Stopped(after, i, StopAppending)
  {
    var w1 := Step(w, StopDoes(i, Enqueues(true, Key(0, 0))));
    assert Stopped(w1, i, StopEnqueued);
    after := Step(w1, StopDoes(i, Checks));
    actions := TrailTwo(w, StopDoes(i, Enqueues(true, Key(0, 0))), w1, StopDoes(i, Checks), after);
  }

  lemma CheckToContinue(w: World, i: nat) returns (actions: seq<Action>, after: World)
    requires Stopped(w, i, StopAppending)
    ensures Trail(w, actions, after, 0, 0) && Stopped(after, i, StopReleasing)
  {
    var w1 := Step(w, StopDoes(i, Appends(true)));
    assert Stopped(w1, i, StopContinuing);
    after := Step(w1, StopDoes(i, Continues));
    actions := TrailTwo(w, StopDoes(i, Appends(true)), w1, StopDoes(i, Continues), after);
  }

  lemma ReleaseToRipe(w: World, i: nat) returns (actions: seq<Action>, after: World)
    requires Stopped(w, i, StopReleasing)
    ensures Trail(w, actions, after, 0, 0) && Ripe(after)
  {
    after := Step(w, StopDoes(i, Releases));
    actions := TrailStep(w, [], w, 0, 0, StopDoes(i, Releases));
  }

  lemma NumberToStopped(w: World) returns (actions: seq<Action>, after: World)
    requires IsNumbered(w)
    ensures exists i: nat :: Stopped(after, i, StopEnqueuing)
    ensures Trail(w, actions, after, 0, 1)
  {
    var first, injecting := NumberToInject(w);
    var i := |injecting.stops|;
    var second, stopping := InjectIsStopped(injecting);
    actions := TrailGlue(w, first, injecting, 0, 0, second, stopping, 0, 0);
    var third, started := StartEndsUnderStop(stopping, i);
    actions := TrailGlue(w, actions, stopping, 0, 0, third, started, 0, 0);
    var fourth;
    fourth, after := KillToClear(started, i);
    actions := TrailGlue(w, actions, started, 0, 0, fourth, after, 0, 1);
  }

  lemma StoppedToRipe(w: World, i: nat) returns (actions: seq<Action>, after: World)
    requires Stopped(w, i, StopEnqueuing)
    ensures Trail(w, actions, after, 0, 0) && Ripe(after)
  {
    var first, checked := ClearToCheck(w, i);
    var second, continued := CheckToContinue(checked, i);
    actions := TrailGlue(w, first, checked, 0, 0, second, continued, 0, 0);
    var third;
    third, after := ReleaseToRipe(continued, i);
    actions := TrailGlue(w, actions, continued, 0, 0, third, after, 0, 0);
  }

  /** A whole turn: the old instruction opens the gate once more, and one more start is attempted. */
  lemma RipeToNumber(w: World) returns (actions: seq<Action>, after: World)
    requires Ripe(w)
    ensures Trail(w, actions, after, 1, 0) && IsNumbered(after)
  {
    var first, gate := RipeToGate(w);
    var second, attempted := GateToAttempt(gate);
    actions := TrailGlue(w, first, gate, 0, 0, second, attempted, 1, 0);
    var third;
    third, after := AttemptToNumber(attempted);
    actions := TrailGlue(w, actions, attempted, 1, 0, third, after, 0, 0);
  }

  lemma NumberToNumber(w: World) returns (actions: seq<Action>, after: World)
    requires IsNumbered(w)
    ensures Trail(w, actions, after, 1, 1) && IsNumbered(after)
  {
    var first, stopped := NumberToStopped(w);
    var i: nat :| Stopped(stopped, i, StopEnqueuing);
    var second, ripe := StoppedToRipe(stopped, i);
    actions := TrailGlue(w, first, stopped, 0, 1, second, ripe, 0, 0);
    var third;
    third, after := RipeToNumber(ripe);
    actions := TrailGlue(w, actions, ripe, 0, 1, third, after, 1, 0);
  }

  // ---- the task ----

  lemma NothingToRecover(store: Store)
    requires store == Store([], [], [])
    ensures ResultOf(store, Quiet).NoRepair? && RepairedStore(store, Quiet) == store
  {
    assert LatestSignal([]).None? && NewestEnd([]).None? && Unmatched([]).None?;
  }

  lemma InstructedTask() returns (w: World)
    ensures w == Run(NewTask, [Instructed(7)]) && w.host.Down? && w.disk.store == Store([], [], [])
    ensures w.disk.unread == w.disk.instructions == {7}
  {
    RunOne(NewTask, Instructed(7));
    w := Instruct(NewTask, 7);
  }

  /** A task with one unread instruction and a host that has just started. */
  lemma InstructedBoot() returns (w: World)
    ensures w == Run(NewTask, [Instructed(7), Booted(true, Quiet)])
    ensures JustBooted(w) && Live(w) && HasOneUnread(w) && w.mem == Blank
  {
    var sent := InstructedTask();
    NothingToRecover(sent.disk.store);
    w := Boot(sent, true, Quiet);
    var _ := Then(NewTask, [Instructed(7)], sent, Booted(true, Quiet));
    assert [Instructed(7)] + [Booted(true, Quiet)] == [Instructed(7), Booted(true, Quiet)];
  }

  lemma FirstAttempt(w: World) returns (actions: seq<Action>, after: World)
    requires JustBooted(w) && HasOneUnread(w) && w.mem == Blank
    ensures Trail(w, actions, after, 1, 0) && IsNumbered(after)
  {
    var w1 := Step(w, TickDoes(Ticks));
    var attempted := Step(w1, TickDoes(Reconciles));
    var first := TrailTwo(w, TickDoes(Ticks), w1, TickDoes(Reconciles), attempted);
    var second;
    second, after := AttemptToNumber(attempted);
    actions := TrailGlue(w, first, attempted, 1, 0, second, after, 0, 0);
  }

  lemma {:induction false} Attempting(w: World, n: nat) returns (actions: seq<Action>, after: World)
    requires JustBooted(w) && HasOneUnread(w) && w.mem == Blank
    ensures Trail(w, actions, after, n + 1, n) && IsNumbered(after)
  {
    if n == 0 {
      actions, after := FirstAttempt(w);
    } else {
      var first, before := Attempting(w, n - 1);
      var second;
      second, after := NumberToNumber(before);
      actions := TrailGlue(w, first, before, n, n - 1, second, after, 1, 1);
    }
  }

  /** Without the workers that stop calls close there is no bound: one old unread instruction leads to
      a new attempt after every plain stop that lands while a worker is being started. The attempts are
      one more than the workers closed, so that term of the bound cannot be dropped. */
  lemma OneInstructionManyAttempts(n: nat) returns (w: World, actions: seq<Action>)
    ensures w == Run(NewTask, [Instructed(7), Booted(true, Quiet)]) && JustBooted(w)
    ensures forall k :: 0 <= k < |actions| ==> Fails(actions[k])
    ensures Attempts(w, actions) == n + 1 && Kills(w, actions) == n
    ensures Requests(w, actions) == Grants(w, actions) == 0
    ensures |Run(w, actions).disk.instructions| == 1
  {
    w := InstructedBoot();
    var after;
    actions, after := Attempting(w, n);
  }
}
