/** The worker and reviewer records of a task's event log (`src/host/events.ts`). */
module Events {
  import opened Prelude

  /** Why a worker session ended (`WorkerExitReason`). */
  datatype ExitReason =
    | NaturalCompletion | DeclareDeferred | DeclareDone
    | MetaInterrupt | MetaStop
    | WatchdogNoProgress | WatchdogToolLoop
    | SdkCrash | SubprocessCrash
    | HostInternalError | HostShutdown

  /** A worker session is identified by its number, a reviewer session by its id. */
  datatype Body =
    | WorkerStarted(session: nat)
    | WorkerEnded(session: nat, reason: ExitReason)
    | ReviewerStarted(sid: nat)
    | ReviewerEnded(sid: nat, reason: ExitReason)
    | OtherEvent

  datatype Event = Event(eventSeq: nat, body: Body)

  /** The numbers of the worker sessions that were started, in log order. */
  function StartedSeqs(log: seq<Event>): seq<nat> {
    if log == [] then []
    else
      var before, last := StartedSeqs(log[..|log| - 1]), log[|log| - 1].body;
      if last.WorkerStarted? then before + [last.session] else before
  }

  /** The numbers of the worker sessions that were ended, in log order. */
  function EndedSeqs(log: seq<Event>): seq<nat> {
    if log == [] then []
    else
      var before, last := EndedSeqs(log[..|log| - 1]), log[|log| - 1].body;
      if last.WorkerEnded? then before + [last.session] else before
  }

  function ReviewersEnded(log: seq<Event>): seq<nat> {
    if log == [] then []
    else
      var before, last := ReviewersEnded(log[..|log| - 1]), log[|log| - 1].body;
      if last.ReviewerEnded? then before + [last.sid] else before
  }

  function MaxEventSeq(log: seq<Event>): (max: nat)
    ensures forall i :: 0 <= i < |log| ==> log[i].eventSeq <= max
  {
    if log == [] then 0
    else
      var before, last := MaxEventSeq(log[..|log| - 1]), log[|log| - 1].eventSeq;
      if last > before then last else before
  }

  predicate Distinct(s: seq<nat>) {
    forall i, j :: 0 <= i < j < |s| ==> s[i] != s[j]
  }

  predicate Increasing(s: seq<nat>) {
    forall i, j :: 0 <= i < j < |s| ==> s[i] < s[j]
  }

  predicate NumbersIncrease(log: seq<Event>) {
    forall i, j :: 0 <= i < j < |log| ==> log[i].eventSeq < log[j].eventSeq
  }

  // ---- what an append does ----

  function Appended(log: seq<Event>, body: Body): seq<Event> {
    log + [Event(MaxEventSeq(log) + 1, body)]
  }

  /** The record already closes the session that `body` closes. */
  predicate SameEnd(e: Body, body: Body) {
    || (e.WorkerEnded? && body.WorkerEnded? && e.session == body.session)
    || (e.ReviewerEnded? && body.ReviewerEnded? && e.sid == body.sid)
  }

  predicate HasEnd(log: seq<Event>, body: Body) {
    exists i :: 0 <= i < |log| && SameEnd(log[i].body, body)
  }

  /** The log after an idempotent append; `readable` says that the scan under the lock succeeded. */
  function AppendedOnce(log: seq<Event>, body: Body, readable: bool): seq<Event> {
    if readable && !HasEnd(log, body) then Appended(log, body) else log
  }

  class EventLog {
    var events: seq<Event>
    /** The scan fails at this record, if anywhere: a corrupt line or a failing read. */
    var corruptAt: Option<nat>

    predicate Readable()
      reads this
    {
      corruptAt.None? || corruptAt.value >= |events|
    }

    /** A plain append numbers its record by folding the whole log; on a corrupt log it throws. */
    method Append(body: Body) returns (ok: bool)
      modifies `events
      ensures ok <==> old(Readable())
      ensures events == if ok then Appended(old(events), body) else old(events)
    {
      var max := 0;
      var i := 0;
      while i < |events|
        invariant 0 <= i <= |events| && events == old(events)
        invariant max == MaxEventSeq(events[..i])
        invariant corruptAt.Some? ==> corruptAt.value >= i
      {
        if corruptAt == Some(i) { return false; }
        OneMoreEvent(events, i, body);
        if events[i].eventSeq > max { max := events[i].eventSeq; }
        i := i + 1;
      }
      assert events[..i] == events;
      events := events + [Event(max + 1, body)];
      return true;
    }

    /** Scan and append under one lock: a second record for the same session is never written. */
    method AppendEndedIdempotent(body: Body) returns (appended: bool, scanOk: bool)
      requires body.WorkerEnded? || body.ReviewerEnded?
      modifies `events
      ensures scanOk <==> old(Readable())
      ensures appended <==> events != old(events)
      ensures events == AppendedOnce(old(events), body, scanOk)
      ensures scanOk ==> HasEnd(events, body)
    {
      var max := 0;
      var alreadyEnded := false;
      var i := 0;
      while i < |events|
        invariant 0 <= i <= |events|
        invariant events == old(events)
        invariant max == MaxEventSeq(events[..i])
        invariant alreadyEnded <==> HasEnd(events[..i], body)
        invariant corruptAt.Some? ==> corruptAt.value >= i
      {
        if corruptAt == Some(i) { return false, false; }
        OneMoreEvent(events, i, body);
        if events[i].eventSeq > max { max := events[i].eventSeq; }
        if SameEnd(events[i].body, body) { alreadyEnded := true; }
        i := i + 1;
      }
      assert events[..i] == events;
      if alreadyEnded { return false, true; }
      HasEndSnoc(events, Event(max + 1, body), body);
      events := events + [Event(max + 1, body)];
      return true, true;
    }
  }

  lemma HasEndSnoc(log: seq<Event>, e: Event, body: Body)
    ensures HasEnd(log + [e], body) <==> HasEnd(log, body) || SameEnd(e.body, body)
  {
    if HasEnd(log, body) {
      var i :| 0 <= i < |log| && SameEnd(log[i].body, body);
      assert (log + [e])[i] == log[i];
    }
    if SameEnd(e.body, body) { assert (log + [e])[|log|] == e; }
  }

  lemma {:induction false} OneMoreEvent(log: seq<Event>, i: nat, body: Body)
    requires i < |log|
    ensures MaxEventSeq(log[..i + 1]) ==
      if log[i].eventSeq > MaxEventSeq(log[..i]) then log[i].eventSeq else MaxEventSeq(log[..i])
    ensures HasEnd(log[..i + 1], body) <==> HasEnd(log[..i], body) || SameEnd(log[i].body, body)
  {
    assert log[..i + 1] == log[..i] + [log[i]];
    assert log[..i + 1][..i] == log[..i];
    HasEndSnoc(log[..i], log[i], body);
  }

  lemma Snoc(log: seq<Event>, e: Event)
    ensures StartedSeqs(log + [e]) == StartedSeqs(log) + (if e.body.WorkerStarted? then [e.body.session] else [])
    ensures EndedSeqs(log + [e]) == EndedSeqs(log) + (if e.body.WorkerEnded? then [e.body.session] else [])
    ensures ReviewersEnded(log + [e]) == ReviewersEnded(log) + (if e.body.ReviewerEnded? then [e.body.sid] else [])
    ensures MaxEventSeq(log + [e]) == if e.eventSeq > MaxEventSeq(log) then e.eventSeq else MaxEventSeq(log)
  {
    assert (log + [e])[..|log|] == log;
  }

  /** The log holds an end of session `n` exactly when `n` is among the ended numbers. */
  lemma {:induction false} HasEndIff(log: seq<Event>, body: Body)
    ensures body.WorkerEnded? ==> (HasEnd(log, body) <==> body.session in EndedSeqs(log))
    ensures body.ReviewerEnded? ==> (HasEnd(log, body) <==> body.sid in ReviewersEnded(log))
  {
    if log != [] {
      var front, last := log[..|log| - 1], log[|log| - 1];
      HasEndIff(front, body);
      assert log == front + [last];
      HasEndSnoc(front, last, body);
    }
  }

  // ---- what every append keeps ----

  predicate EndsOnce(log: seq<Event>) {
    Distinct(EndedSeqs(log)) && Distinct(ReviewersEnded(log))
  }

  lemma DistinctSnoc(s: seq<nat>, x: nat)
    requires Distinct(s) && x !in s
    ensures Distinct(s + [x])
  {
    forall i, j | 0 <= i < j < |s + [x]| ensures (s + [x])[i] != (s + [x])[j] {
      assert (s + [x])[i] == s[i];
    }
  }

  /** What an idempotent append of a worker's end does to the sessions in the log. */
  lemma EndedAfter(log: seq<Event>, session: nat, reason: ExitReason, readable: bool)
    ensures var r := AppendedOnce(log, WorkerEnded(session, reason), readable);
            && StartedSeqs(r) == StartedSeqs(log)
            && (forall n :: n in EndedSeqs(r) <==> n in EndedSeqs(log) || (readable && n == session))
            && (!readable || session in EndedSeqs(log) ==> r == log)
  {
    var body := WorkerEnded(session, reason);
    HasEndIff(log, body);
    Snoc(log, Event(MaxEventSeq(log) + 1, body));
  }

  /** One idempotent append per closeout entry keeps every session's end unique, whatever was
      written before it, and records the end whenever the scan succeeds. */
  lemma IdempotentKeepsEndsOnce(log: seq<Event>, body: Body, readable: bool)
    requires EndsOnce(log) && (body.WorkerEnded? || body.ReviewerEnded?)
    ensures EndsOnce(AppendedOnce(log, body, readable))
    ensures StartedSeqs(AppendedOnce(log, body, readable)) == StartedSeqs(log)
  {
    HasEndIff(log, body);
    var e := Event(MaxEventSeq(log) + 1, body);
    Snoc(log, e);
    if readable && !HasEnd(log, body) {
      if body.WorkerEnded? { DistinctSnoc(EndedSeqs(log), body.session); } else { DistinctSnoc(ReviewersEnded(log), body.sid); }
    }
  }

  /** Any append that is not an end keeps them unique too. */
  lemma PlainKeepsEndsOnce(log: seq<Event>, body: Body)
    requires EndsOnce(log) && !body.WorkerEnded? && !body.ReviewerEnded?
    ensures EndsOnce(Appended(log, body)) && EndedSeqs(Appended(log, body)) == EndedSeqs(log)
    ensures StartedSeqs(Appended(log, body)) ==
            StartedSeqs(log) + (if body.WorkerStarted? then [body.session] else [])
  {
    Snoc(log, Event(MaxEventSeq(log) + 1, body));
  }

  /** Records are numbered in log order. */
  lemma AppendKeepsNumbers(log: seq<Event>, body: Body)
    requires NumbersIncrease(log)
    ensures NumbersIncrease(Appended(log, body))
  {
    var r := Appended(log, body);
    forall i, j | 0 <= i < j < |r| ensures r[i].eventSeq < r[j].eventSeq {
      assert r[i] == log[i];
      if j < |log| { assert r[j] == log[j]; }
    }
  }

  /** The first record is number 1. */
  predicate Numbered(log: seq<Event>) {
    forall i :: 0 <= i < |log| ==> log[i].eventSeq == i + 1
  }

  lemma {:induction false} NumberedMax(log: seq<Event>)
    requires Numbered(log)
    ensures MaxEventSeq(log) == |log|
  {
    if log != [] {
      NumberedMax(log[..|log| - 1]);
      assert log[|log| - 1].eventSeq == |log|;
    }
  }

  /** The records of a log that was only appended to are numbered 1, 2, 3 and so on. */
  lemma AppendNumbersOn(log: seq<Event>, body: Body)
    requires Numbered(log)
    ensures Numbered(Appended(log, body)) && Appended(log, body)[|log|].body == body && log <= Appended(log, body)
  {
    NumberedMax(log);
  }
}
