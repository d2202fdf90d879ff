/** Repair of a half-completed worker when the host starts again (`src/host/recovery.ts`). The event
    log and the messages may disagree after a crash; the repair closes the gap between them. */
module Recovery {
  import opened Prelude
  import opened Events
  import opened Sessions

  // ---- what the messages say ----

  /** The composite sort key of an envelope (`src/messaging/state.ts`). */
  datatype Key = Key(createdAt: nat, stateSeq: nat)

  predicate Above(a: Key, b: Key) {
    a.createdAt > b.createdAt || (a.createdAt == b.createdAt && a.stateSeq > b.stateSeq)
  }

  datatype SignalKind = CompletionClaim | Escalation(deferred: bool)

  /** A worker's own message; `readable` says that its payload file parses. */
  datatype Signal = Signal(key: Key, kind: SignalKind, session: nat, failed: bool, readable: bool)

  /** A `worker_session_end` envelope. */
  datatype End = End(key: Key, session: nat, reason: ExitReason, failed: bool, readable: bool)

  predicate IsActiveSignal(s: Signal) {
    !s.failed && s.readable && (s.kind.CompletionClaim? || s.kind.deferred)
  }

  function SignalReason(s: Signal): ExitReason {
    if s.kind.CompletionClaim? then DeclareDone else DeclareDeferred
  }

  function LatestSignal(signals: seq<Signal>): (best: Option<Signal>)
    ensures best.Some? ==> best.value in signals && IsActiveSignal(best.value)
    ensures forall s :: s in signals && IsActiveSignal(s) ==> best.Some? && !Above(s.key, best.value.key)
  {
    if signals == [] then None
    else
      var before, s := LatestSignal(signals[..|signals| - 1]), signals[|signals| - 1];
      if IsActiveSignal(s) && (before.None? || Above(s.key, before.value.key)) then Some(s) else before
  }

  /** The latest end that did not fail, chosen by key alone; its payload is looked at afterwards. */
  function NewestEnd(ends: seq<End>): (best: Option<End>)
    ensures best.Some? ==> best.value in ends && !best.value.failed
    ensures forall e :: e in ends && !e.failed ==> best.Some? && !Above(e.key, best.value.key)
  {
    if ends == [] then None
    else
      var before, e := NewestEnd(ends[..|ends| - 1]), ends[|ends| - 1];
      if !e.failed && (before.None? || Above(e.key, before.value.key)) then Some(e) else before
  }

  function LatestEnd(ends: seq<End>): Option<End> {
    var best := NewestEnd(ends);
    if best.Some? && best.value.readable then best else None
  }

  predicate IsEndOf(e: End, session: nat) {
    !e.failed && e.readable && e.session == session
  }

  function EndFor(ends: seq<End>, session: nat): (best: Option<End>)
    ensures best.Some? ==> best.value in ends && IsEndOf(best.value, session)
    ensures forall e :: e in ends && IsEndOf(e, session) ==> best.Some? && !Above(e.key, best.value.key)
  {
    if ends == [] then None
    else
      var before, e := EndFor(ends[..|ends| - 1], session), ends[|ends| - 1];
      if IsEndOf(e, session) && (before.None? || Above(e.key, before.value.key)) then Some(e) else before
  }

  method FindLatestActiveSignal(signals: seq<Signal>) returns (best: Option<Signal>)
    ensures best == LatestSignal(signals)
  {
    best := None;
    for i := 0 to |signals|
      invariant best == LatestSignal(signals[..i])
    {
      var s := signals[i];
      assert signals[..i + 1][..i] == signals[..i];
      if s.failed { continue; }
      if best.Some? && !Above(s.key, best.value.key) { continue; }
      if !s.readable { continue; }
      if s.kind.Escalation? && !s.kind.deferred { continue; }
      best := Some(s);
    }
    assert signals[..|signals|] == signals;
  }

  method FindLatestSessionEnd(ends: seq<End>) returns (latest: Option<End>)
    ensures latest == LatestEnd(ends)
  {
    var best: Option<End> := None;
    for i := 0 to |ends|
      invariant best == NewestEnd(ends[..i])
    {
      assert ends[..i + 1][..i] == ends[..i];
      if ends[i].failed { continue; }
      if best.None? || Above(ends[i].key, best.value.key) { best := Some(ends[i]); }
    }
    assert ends[..|ends|] == ends;
    if best.None? || !best.value.readable { return None; }
    return best;
  }

  method FindSessionEndForSeq(ends: seq<End>, session: nat) returns (best: Option<End>)
    ensures best == EndFor(ends, session)
  {
    best := None;
    for i := 0 to |ends|
      invariant best == EndFor(ends[..i], session)
    {
      assert ends[..i + 1][..i] == ends[..i];
      if ends[i].failed { continue; }
      if !ends[i].readable || ends[i].session != session { continue; }
      if best.None? || Above(ends[i].key, best.value.key) { best := Some(ends[i]); }
    }
    assert ends[..|ends|] == ends;
  }

  // ---- what the event log says ----

  /** The greatest number of a started worker, if one was started. */
  function NewestStarted(log: seq<Event>): Option<nat> {
    if StartedSeqs(log) == [] then None else Some(MaxStarted(log))
  }

  method FoldMaxWorkerStartedSeq(log: seq<Event>) returns (max: Option<nat>)
    ensures max == NewestStarted(log)
  {
    max := None;
    for i := 0 to |log|
      invariant max == NewestStarted(log[..i])
    {
      assert log[..i + 1][..i] == log[..i];
      if log[i].body.WorkerStarted? {
        MaxOfSnoc(StartedSeqs(log[..i]), log[i].body.session);
        if max.None? || log[i].body.session > max.value { max := Some(log[i].body.session); }
      }
    }
    assert log[..|log|] == log;
  }

  /** A started worker without an end. */
  predicate IsUnmatched(log: seq<Event>, session: nat) {
    session in StartedSeqs(log) && session !in EndedSeqs(log)
  }

  /** The greatest number in `started` that is not in `ended`. */
  function GreatestUnmatched(started: seq<nat>, ended: set<nat>): (best: Option<nat>)
    ensures best.Some? ==> best.value in started && best.value !in ended
    ensures forall n :: n in started && n !in ended ==> best.Some? && n <= best.value
  {
    if started == [] then None
    else
      var before, n := GreatestUnmatched(started[..|started| - 1], ended), started[|started| - 1];
      if n !in ended && (before.None? || n > before.value) then Some(n) else before
  }

  function Unmatched(log: seq<Event>): (best: Option<nat>)
    ensures best.Some? ==> IsUnmatched(log, best.value)
    ensures forall n: nat :: IsUnmatched(log, n) ==> best.Some? && n <= best.value
  {
    GreatestUnmatched(StartedSeqs(log), set n | n in EndedSeqs(log))
  }

  method FindUnmatchedWorkerStarted(log: seq<Event>) returns (best: Option<nat>)
    ensures best == Unmatched(log)
  {
    var started: seq<nat> := [];
    var ended: set<nat> := {};
    for i := 0 to |log|
      invariant started == StartedSeqs(log[..i])
      invariant ended == set n | n in EndedSeqs(log[..i])
    {
      assert log[..i + 1][..i] == log[..i];
      match log[i].body
      case WorkerStarted(n) => started := started + [n];
      case WorkerEnded(n, _) => ended := ended + {n};
      case _ =>
    }
    assert log[..|log|] == log;
    best := None;
    for i := 0 to |started|
      invariant best == GreatestUnmatched(started[..i], ended)
    {
      assert started[..i + 1][..i] == started[..i];
      if started[i] in ended { continue; }
      if best.None? || started[i] > best.value { best := Some(started[i]); }
    }
    assert started[..|started|] == started;
  }

  // ---- the repair ----

  datatype WaitState = SessionEndPending | MetaInterruptDefaultContinue | MetaStopNoRestart

  function WaitStateForExitReason(reason: ExitReason): WaitState {
    match reason
    case MetaInterrupt => MetaInterruptDefaultContinue
    case MetaStop => MetaStopNoRestart
    case _ => SessionEndPending
  }

  datatype RepairResult =
    | NoRepair
    | SynthesizedEnd(session: nat, reason: ExitReason)
    | CrashPending(session: nat, reason: ExitReason, wait: WaitState)

  function Restored(e: End): RepairResult {
    if IsActiveExit(e.reason) then SynthesizedEnd(e.session, e.reason)
    else CrashPending(e.session, e.reason, WaitStateForExitReason(e.reason))
  }

  /** The durable state that the repair reads and writes. */
  datatype Store = Store(log: seq<Event>, signals: seq<Signal>, ends: seq<End>)

  /** What the surroundings decide: whether the event log had to be set aside as corrupt, whether the
      append of an end record and the enqueue of an envelope succeed, and the key of the envelope. */
  datatype Outcome = Outcome(corrupted: bool, appendOk: bool, enqueueOk: bool, key: Key)

  /** A worker signalled its exit after the latest session end. */
  predicate SignalIsNewer(store: Store) {
    var signal, end := LatestSignal(store.signals), LatestEnd(store.ends);
    signal.Some? && (end.None? || signal.value.session > end.value.session)
  }

  /** No worker was started after the one that the latest session end is about. */
  predicate EndIsLast(store: Store) {
    var started, end := NewestStarted(store.log), LatestEnd(store.ends);
    end.Some? && (started.None? || started.value <= end.value.session)
  }

  function WithEnded(store: Store, session: nat, reason: ExitReason, o: Outcome): Store {
    if o.corrupted then store
    else store.(log := AppendedOnce(store.log, WorkerEnded(session, reason), o.appendOk))
  }

  function WithEnd(store: Store, session: nat, reason: ExitReason, o: Outcome): Store {
    if o.enqueueOk then store.(ends := store.ends + [End(o.key, session, reason, false, true)]) else store
  }

  function RepairedStore(store: Store, o: Outcome): Store {
    if SignalIsNewer(store) then
      var s := LatestSignal(store.signals).value;
      WithEnded(WithEnd(store, s.session, SignalReason(s), o), s.session, SignalReason(s), o)
    else if EndIsLast(store) then
      var e := LatestEnd(store.ends).value;
      WithEnded(store, e.session, e.reason, o)
    else if o.corrupted || Unmatched(store.log).None? then store
    else
      var n := Unmatched(store.log).value;
      var durable := EndFor(store.ends, n);
      if durable.Some? then WithEnded(store, durable.value.session, durable.value.reason, o)
      else WithEnd(WithEnded(store, n, SdkCrash, o), n, SdkCrash, o)
  }

  function ResultOf(store: Store, o: Outcome): RepairResult {
    if SignalIsNewer(store) then
      var s := LatestSignal(store.signals).value;
      if o.enqueueOk then SynthesizedEnd(s.session, SignalReason(s)) else NoRepair
    else if EndIsLast(store) then Restored(LatestEnd(store.ends).value)
    else if o.corrupted || Unmatched(store.log).None? then NoRepair
    else
      var n := Unmatched(store.log).value;
      var durable := EndFor(store.ends, n);
      if durable.Some? then Restored(durable.value) else CrashPending(n, SdkCrash, SessionEndPending)
  }

  /** The files of one task, as the host finds them at startup. */
  class TaskFiles {
    const log: EventLog
    var signals: seq<Signal>
    var ends: seq<End>

    constructor (log: EventLog, signals: seq<Signal>, ends: seq<End>)
      ensures this.log == log && this.signals == signals && this.ends == ends
    {
      this.log, this.signals, this.ends := log, signals, ends;
    }

    ghost function View(): Store
      reads this, log
    {
      Store(log.events, signals, ends)
    }

    method MaybeAppendPairedWorkerEnded(session: nat, reason: ExitReason, o: Outcome)
      requires log.Readable() && !o.corrupted
      modifies log`events
      ensures View() == WithEnded(old(View()), session, reason, o)
    {
      if o.appendOk {
        var _, _ := log.AppendEndedIdempotent(WorkerEnded(session, reason));
      }
    }

    method Enqueue(session: nat, reason: ExitReason, o: Outcome)
      modifies `ends
      ensures View() == WithEnd(old(View()), session, reason, o)
    {
      if o.enqueueOk { ends := ends + [End(o.key, session, reason, false, true)]; }
    }

    /** The repair, in the order of the original. Only a running task is repaired. */
    method RepairHalfCompletedWorker(running: bool, o: Outcome) returns (r: RepairResult)
      requires log.Readable()
      modifies this, log`events
      ensures View() == if running then RepairedStore(old(View()), o) else old(View())
      ensures r == if running then ResultOf(old(View()), o) else NoRepair
    {
      if !running { return NoRepair; }
      var latestSignal := FindLatestActiveSignal(signals);
      var latestEnd := FindLatestSessionEnd(ends);
      var latestStarted := FoldMaxWorkerStartedSeq(log.events);
      if latestSignal.Some? && (latestEnd.None? || latestSignal.value.session > latestEnd.value.session) {
        var s := latestSignal.value;
        Enqueue(s.session, SignalReason(s), o);
        if !o.corrupted { MaybeAppendPairedWorkerEnded(s.session, SignalReason(s), o); }
        if o.enqueueOk && IsActiveExit(SignalReason(s)) { return SynthesizedEnd(s.session, SignalReason(s)); }
        return NoRepair;
      }
      if latestEnd.Some? && (latestStarted.None? || latestStarted.value <= latestEnd.value.session) {
        var e := latestEnd.value;
        if !o.corrupted { MaybeAppendPairedWorkerEnded(e.session, e.reason, o); }
        return Restored(e);
      }
      if o.corrupted { return NoRepair; }
      var crashed := FindUnmatchedWorkerStarted(log.events);
      if crashed.None? { return NoRepair; }
      var durable := FindSessionEndForSeq(ends, crashed.value);
      if durable.Some? {
        var e := durable.value;
        MaybeAppendPairedWorkerEnded(e.session, e.reason, o);
        return Restored(e);
      }
      MaybeAppendPairedWorkerEnded(crashed.value, SdkCrash, o);
      Enqueue(crashed.value, SdkCrash, o);
      return CrashPending(crashed.value, SdkCrash, SessionEndPending);
    }
  }
}
