/** The first tick of a restarted host, in the state machine. */
module LifecycleRestart {
  import opened Prelude
  import opened Events
  import opened Sessions
  import opened Recovery
  import opened Daemon
  import opened Restart
  import opened Waits
  import opened Lifecycle

  function Restarted(w: World, o: Outcome): World {
    Step(w, Booted(true, o))
  }

  /** Up to where the tick begins a start or goes on to watch the worker. */
  function FirstTick(w: World, idle: bool): World {
    Step(Step(Step(Step(w, TickDoes(Ticks)), TickDoes(Peeks(true))), TickDoes(PassesGate(idle))), TickDoes(Reconciles))
  }

  lemma BootRestores(w: World, o: Outcome, e: End)
    requires !Live(w) && Restores(SetAside(w.disk.store, o), o, e)
    ensures var m := Boot(w, true, o).mem;
      && m.workerHandle.None? && m.workerSessionSeq == Some(e.session) && !m.wantWorkerStart
      && !m.workerStartFailedPending && m.baseline.None?
      && AwaitsMeta(m) && (m.metaInterruptDefaultContinue <==> e.reason.MetaInterrupt?)
  {
    var found := SetAside(w.disk.store, o);
    assert Boot(w, true, o).mem == FromRecovery(ResultOf(found, o));
    match e.reason
    case MetaStop => RestartedAfterStop(found, o, e);
    case MetaInterrupt => RestartedAfterInterrupt(found, o, e);
    case SdkCrash => RestartedAfterCrash(found, o, e);
    case SubprocessCrash => RestartedAfterCrash(found, o, e);
    case HostInternalError => RestartedAfterCrash(found, o, e);
    case HostShutdown => RestartedAfterCrash(found, o, e);
    case _ => RestartedAfterEnd(found, o, e);
  }

  /** The tick of a waiting host starts a worker if an instruction came, or an interrupt is to be continued. */
  lemma WaitingTick(w: World, idle: bool)
    requires Live(w) && w.host.Idle? && w.cleaner.NotCleaning?
    requires w.mem.workerHandle.None? && w.mem.workerSessionSeq.Some? && !w.mem.wantWorkerStart
    requires !w.mem.workerStartFailedPending && AwaitsMeta(w.mem)
    ensures FirstTick(w, idle).host ==
      if w.disk.unread != {} || (idle && w.mem.metaInterruptDefaultContinue) then Allocating else Monitoring
  {
    var peeking := Step(w, TickDoes(Ticks));
    var gate := Step(peeking, TickDoes(Peeks(true)));
    assert peeking == w.(host := GatePeeking) && gate == w.(host := AtGate(w.disk.unread));
    var passed := Step(gate, TickDoes(PassesGate(idle)));
    assert passed == w.(mem := Gated(w.mem, w.disk.unread, idle), host := Reconciling);
    GateOpens(w.mem, w.disk.unread, idle);
    StartsIff(passed.mem);
    if w.disk.unread != {} {
      var id :| id in w.disk.unread;
      assert SomeCounts(w.mem, w.disk.unread);
    }
  }

  /** After a crash that came between an end's envelope and its record, the first tick starts a worker if and
      only if an instruction is waiting, or the end was an interrupt and Meta is idle. */
  lemma RestartedStartsIff(w: World, o: Outcome, e: End, idle: bool)
    requires !Live(w) && Restores(SetAside(w.disk.store, o), o, e)
    ensures FirstTick(Restarted(w, o), idle).host ==
      if w.disk.unread != {} || (idle && e.reason.MetaInterrupt?) then Allocating else Monitoring
  {
    BootRestores(w, o, e);
    WaitingTick(Restarted(w, o), idle);
  }

  /** Outside the running stage nothing is repaired and nothing is waited for. */
  lemma NothingRepaired(w: World, o: Outcome)
    requires !Live(w)
    ensures var after := Step(w, Booted(false, o)); after.mem == Blank && after.disk.store == SetAside(w.disk.store, o)
  {}
}
