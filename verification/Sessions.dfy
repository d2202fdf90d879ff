/** Worker session numbers and exit reasons (`src/host/agent_sessions.ts`). */
module Sessions {
  import opened Prelude
  import opened Events

  // ---- exit reasons ----

  /** Why the runtime says a session is over. */
  datatype SessionEndReason =
    | SessionNaturalEnd | WorkerDeclaredDone | WorkerDeclaredDeferred
    | FatalRuntimeError | HostClose | HostCloseForced | Unknown

  function MapSessionEndReason(reason: SessionEndReason): ExitReason {
    match reason
    case SessionNaturalEnd => NaturalCompletion
    case WorkerDeclaredDone => DeclareDone
    case WorkerDeclaredDeferred => DeclareDeferred
    case FatalRuntimeError => SdkCrash
    case HostClose => HostShutdown
    case HostCloseForced => HostShutdown
    case Unknown => SdkCrash
  }

  /** Exits after which Meta must decide whether to go on. */
  predicate IsActiveExit(reason: ExitReason) {
    reason in {NaturalCompletion, DeclareDeferred, DeclareDone, WatchdogNoProgress, WatchdogToolLoop}
  }

  /** Exits that never produce a `worker_session_end` envelope. */
  predicate IsInternal(reason: ExitReason) {
    reason.HostInternalError? || reason.HostShutdown?
  }

  /** A successful host tool call of the worker. */
  datatype ToolEvent = CalledDeclareDone | CalledEscalate(deferred: bool) | CalledOther

  function IntentOf(e: ToolEvent): Option<ExitReason> {
    match e
    case CalledDeclareDone => Some(DeclareDone)
    case CalledEscalate(deferred) => if deferred then Some(DeclareDeferred) else None
    case CalledOther => None
  }

  /** The intent of call `i`, with none after it among the first `k` calls. */
  predicate LastIntentAt(history: seq<ToolEvent>, k: nat, i: nat)
    requires k <= |history|
  {
    i < k && IntentOf(history[i]).Some? && forall j :: i < j < k ==> IntentOf(history[j]).None?
  }

  /** The last call that carries an exit intent decides; calls without one never override. */
  method DeriveExitIntentLastWins(history: seq<ToolEvent>) returns (result: Option<ExitReason>)
    ensures result.None? <==> forall i :: 0 <= i < |history| ==> IntentOf(history[i]).None?
    ensures forall i: nat :: LastIntentAt(history, |history|, i) ==> result == IntentOf(history[i])
  {
    result := None;
    for k := 0 to |history|
      invariant result.None? <==> forall i :: 0 <= i < k ==> IntentOf(history[i]).None?
      invariant forall i: nat :: LastIntentAt(history, k, i) ==> result == IntentOf(history[i])
    {
      match history[k]
      case CalledDeclareDone => result := Some(DeclareDone);
      case CalledEscalate(deferred) => if deferred { result := Some(DeclareDeferred); }
      case CalledOther =>
    }
  }

  // ---- session numbers ----

  /** `next_seq.json`: absent, unreadable or not a positive integer, or the next number. */
  datatype Counter = Missing | Invalid | Next(n: nat)

  function MaxStarted(log: seq<Event>): nat {
    MaxOf(StartedSeqs(log))
  }

  function MaxOf(s: seq<nat>): (max: nat)
    ensures forall i :: 0 <= i < |s| ==> s[i] <= max
    ensures s != [] ==> max in s
  {
    if s == [] then 0
    else
      var before, last := MaxOf(s[..|s| - 1]), s[|s| - 1];
      if last > before then last else before
  }

  /** The number handed out for a counter and the readable part of the log. */
  function Allocation(counter: Counter, readable: seq<Event>): nat {
    match counter
    case Missing => 1
    case Invalid => MaxStarted(readable) + 1
    case Next(n) => if n >= 1 then n else MaxStarted(readable) + 1
  }

  /** The greatest number of a started worker in the part of the log before the first bad record. */
  method FoldMaxWorkerSessionSeq(log: seq<Event>, corruptAt: Option<nat>) returns (max: nat)
    ensures corruptAt.None? || corruptAt.value >= |log| ==> max == MaxStarted(log)
    ensures corruptAt.Some? && corruptAt.value < |log| ==> max == MaxStarted(log[..corruptAt.value])
  {
    max := 0;
    var i := 0;
    while i < |log|
      invariant 0 <= i <= |log| && max == MaxStarted(log[..i])
      invariant corruptAt.Some? ==> corruptAt.value >= i
    {
      if corruptAt == Some(i) { return; }
      MaxStartedSnoc(log, i);
      if log[i].body.WorkerStarted? && log[i].body.session > max { max := log[i].body.session; }
      i := i + 1;
    }
    assert log[..i] == log;
  }

  lemma MaxStartedSnoc(log: seq<Event>, i: nat)
    requires i < |log|
    ensures MaxStarted(log[..i + 1]) ==
      if log[i].body.WorkerStarted? && log[i].body.session > MaxStarted(log[..i]) then log[i].body.session
      else MaxStarted(log[..i])
  {
    assert log[..i + 1][..i] == log[..i];
    if log[i].body.WorkerStarted? { MaxOfSnoc(StartedSeqs(log[..i]), log[i].body.session); }
  }

  lemma MaxOfSnoc(s: seq<nat>, x: nat)
    ensures MaxOf(s + [x]) == if x > MaxOf(s) then x else MaxOf(s)
  {
    assert (s + [x])[..|s|] == s;
  }

  class SeqFile {
    var content: Counter

    /** Reads, repairs and advances the counter under its own lock. */
    method AllocateWorkerSessionSeq(log: seq<Event>, corruptAt: Option<nat>) returns (current: nat)
      modifies this
      ensures current == Allocation(old(content),
        if corruptAt.Some? && corruptAt.value < |log| then log[..corruptAt.value] else log)
      ensures content == Next(current + 1)
    {
      var value: Option<nat> := None;
      var fileExisted := true;
      match content {
        case Missing => fileExisted := false;
        case Invalid =>
        case Next(n) => if n >= 1 { value := Some(n); }
      }
      if value == None {
        if fileExisted {
          var max := FoldMaxWorkerSessionSeq(log, corruptAt);
          value := Some(max + 1);
        } else {
          value := Some(1);
        }
      }
      current := value.value;
      content := Next(current + 1);
    }
  }

  /** Every started session has a number below the counter, whatever else the counter file holds. */
  predicate CounterAhead(counter: Counter, started: seq<nat>) {
    match counter
    case Missing => started == []
    case Invalid => true
    case Next(n) => n == 0 || forall s :: s in started ==> s < n
  }

  /** A number handed out by an ahead counter is larger than all numbers in the log, and starting a
      session under it keeps the counter ahead: numbers are never handed out twice. */
  lemma AllocationIsFresh(counter: Counter, log: seq<Event>)
    requires CounterAhead(counter, StartedSeqs(log))
    ensures var n := Allocation(counter, log);
            && n >= 1
            && (forall s :: s in StartedSeqs(log) ==> s < n)
            && CounterAhead(Next(n + 1), StartedSeqs(log) + [n])
  {}

  /** A deleted counter restarts at 1: the number is fresh exactly if no session was ever started. */
  lemma DeletedCounterFreshIff(log: seq<Event>)
    requires forall s :: s in StartedSeqs(log) ==> s >= 1
    ensures (forall s :: s in StartedSeqs(log) ==> s < Allocation(Missing, log)) <==> StartedSeqs(log) == []
  {
    if StartedSeqs(log) != [] { assert StartedSeqs(log)[0] in StartedSeqs(log); }
  }

  /** No number is left out: a valid counter is followed, a missing one counts from 1, and a damaged one is
      rebuilt as one more than the greatest started number. */
  lemma AllocationLeavesNoGap(n: nat, log: seq<Event>)
    ensures n >= 1 ==> Allocation(Next(n), log) == n
    ensures Allocation(Missing, log) == 1 && Allocation(Next(0), log) == Allocation(Invalid, log)
    ensures StartedSeqs(log) == [] ==> Allocation(Invalid, log) == 1
    ensures StartedSeqs(log) != [] ==> Allocation(Invalid, log) >= 1 && Allocation(Invalid, log) - 1 in StartedSeqs(log)
    ensures forall s :: s in StartedSeqs(log) ==> s < Allocation(Invalid, log)
  {}
}
