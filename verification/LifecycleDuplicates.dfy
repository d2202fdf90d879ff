/** A history of a task after which recovery announces the end of one session twice. */
module LifecycleDuplicates {
  import opened Prelude
  import opened Events
  import opened Sessions
  import opened Recovery
  import opened RecoveryConverges
  import opened Daemon
  import opened Lifecycle
  import opened LifecycleLog
  import opened LifecycleTraces

  lemma BlankBoot(down: World) returns (booted: World)
    requires down.host.Down?
    ensures booted == Run(down, [Booted(false, Quiet)]) && AboutToStart(booted) && booted.disk == down.disk
  {
    booted := Boot(down, false, Quiet);
    RunOne(down, Booted(false, Quiet));
  }

  /** The host starts on a task that is not running, so nothing is repaired, and then starts a worker. */
  lemma BootToSpawning(down: World) returns (actions: seq<Action>, after: World, n: nat)
    requires down.host.Down?
    ensures after == Run(down, actions) && after.host == Spawning(n) && after.cleaner.NotCleaning?
    ensures n == Allocation(down.disk.counter, down.disk.store.log) && after.disk.counter == Next(n + 1)
    ensures StartedSeqs(after.disk.store.log) == StartedSeqs(down.disk.store.log) + [n]
    ensures EndedSeqs(after.disk.store.log) == EndedSeqs(down.disk.store.log)
    ensures after.disk.store.signals == down.disk.store.signals && after.disk.store.ends == down.disk.store.ends
  {
    var booted := BlankBoot(down);
    var first, numbered := TickToNumber(booted);
    actions := Glue(down, [Booted(false, Quiet)], booted, first, numbered);
    n := numbered.host.session;
    after := Step(numbered, TickDoes(WritesStarted(true)));
    actions := Then(down, actions, numbered, TickDoes(WritesStarted(true)));
    var log := down.disk.store.log;
    Snoc(log, Event(MaxEventSeq(log) + 1, WorkerStarted(n)));
  }

  const ExitSignal := Signal(Key(1, 1), CompletionClaim, 2, false, true)

  /** Worker 1 starts, and the host dies. */
  lemma FirstDies() returns (actions: seq<Action>, down: World)
    ensures down == Run(NewTask, actions) && down.host.Down? && down.disk.counter == Next(2)
    ensures StartedSeqs(down.disk.store.log) == [1] && EndedSeqs(down.disk.store.log) == []
    ensures down.disk.store.signals == [] && down.disk.store.ends == []
  {
    var spawning, n;
    actions, spawning, n := BootToSpawning(NewTask);
    down := Step(spawning, Crashed);
    actions := Then(NewTask, actions, spawning, Crashed);
  }

  /** Worker 2 starts and signals its exit, and the host dies. */
  lemma SecondDies() returns (actions: seq<Action>, down: World)
    ensures down == Run(NewTask, actions) && down.host.Down? && down.disk.counter == Next(3)
    ensures StartedSeqs(down.disk.store.log) == [1, 2] && EndedSeqs(down.disk.store.log) == []
    ensures down.disk.store.signals == [ExitSignal] && down.disk.store.ends == []
  {
    var first, before := FirstDies();
    var second, spawning, n := BootToSpawning(before);
    actions := Glue(NewTask, first, before, second, spawning);
    assert StartedSeqs(spawning.disk.store.log) == [1, 2];
    var third, crashed := SignalsAndDies(spawning);
    down := crashed;
    actions := Glue(NewTask, actions, spawning, third, crashed);
  }

  lemma SignalsAndDies(w: World) returns (actions: seq<Action>, down: World)
    requires w.host.Spawning? && w.cleaner.NotCleaning? && 2 in StartedSeqs(w.disk.store.log)
    ensures down == Run(w, actions) && down.host.Down? && down.disk.counter == w.disk.counter
    ensures down.disk.store == w.disk.store.(signals := w.disk.store.signals + [ExitSignal])
  {
    var w1 := Step(w, TickDoes(Spawns(true)));
    var w2 := Step(w1, SignalSent(ExitSignal));
    down := Step(w2, Crashed);
    actions := [TickDoes(Spawns(true)), SignalSent(ExitSignal), Crashed];
    RunThree(w, actions[0], actions[1], actions[2]);
  }

  /** Worker 3 cannot be spawned, which is recorded, and the host dies. */
  lemma ThirdDies() returns (actions: seq<Action>, down: World)
    ensures down == Run(NewTask, actions) && down.host.Down?
    ensures StartedSeqs(down.disk.store.log) == [1, 2, 3]
    ensures forall n :: n in EndedSeqs(down.disk.store.log) <==> n == 3
    ensures down.disk.store.signals == [ExitSignal] && down.disk.store.ends == []
  {
    var first, before := SecondDies();
    var second, spawning, n := BootToSpawning(before);
    actions := Glue(NewTask, first, before, second, spawning);
    assert StartedSeqs(spawning.disk.store.log) == [1, 2, 3];
    var third, crashed := AbortsAndDies(spawning);
    down := crashed;
    actions := Glue(NewTask, actions, spawning, third, crashed);
  }

  lemma AbortsAndDies(w: World) returns (actions: seq<Action>, down: World)
    requires w.host == Spawning(3) && w.cleaner.NotCleaning?
    ensures down == Run(w, actions) && down.host.Down?
    ensures StartedSeqs(down.disk.store.log) == StartedSeqs(w.disk.store.log)
    ensures forall n :: n in EndedSeqs(down.disk.store.log) <==> n in EndedSeqs(w.disk.store.log) || n == 3
    ensures down.disk.store.signals == w.disk.store.signals && down.disk.store.ends == w.disk.store.ends
  {
    var w1 := Step(w, TickDoes(Spawns(false)));
    var w2 := Step(w1, TickDoes(WritesAborted(true)));
    down := Step(w2, Crashed);
    EndedAfter(w.disk.store.log, 3, HostInternalError, true);
    actions := [TickDoes(Spawns(false)), TickDoes(WritesAborted(true)), Crashed];
    RunThree(w, actions[0], actions[1], actions[2]);
  }

  lemma MaxOfThree()
    ensures MaxOf([1, 2, 3]) == 3
  {
    assert MaxOf([1, 2, 3]) in [1, 2, 3];
  }

  /** The hypothesis about unmatched workers is needed: a history that leaves workers 1 and 2 unmatched,
      after which three runs of the repair announce the end of worker 2 twice. */
  lemma OlderUnmatchedDuplicatesEnd(o1: Outcome, o2: Outcome, o3: Outcome) returns (actions: seq<Action>)
    requires WritesSucceed(o1) && WritesSucceed(o2) && WritesSucceed(o3)
    requires Above(o2.key, o1.key) && Above(o3.key, o2.key) && Above(o3.key, o1.key)
    ensures var store := Run(NewTask, actions).disk.store; EndsInOrder(store.ends) && !OnlyNewestUnmatched(store.log)
    ensures var ends := RepairedStore(RepairedStore(RepairedStore(Run(NewTask, actions).disk.store, o1), o2), o3).ends;
            |ends| == 3 && ends[0].session == ends[2].session != ends[1].session
  {
    var down;
    actions, down := ThirdDies();
    MaxOfThree();
    assert IsUnmatched(down.disk.store.log, 1);
    ThreeRuns(down.disk.store, ExitSignal, o1, o2, o3);
  }
}
