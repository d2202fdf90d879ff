/** Exactly what repeated recovery does: whose end it enqueues twice, and whom it never reports. */
module RecoveryExact {
  import opened Prelude
  import opened Events
  import opened Sessions
  import opened Recovery
  import opened RecoveryConverges

  // ---- which worker a run answers ----

  /** The session that the wait state of a run is about. */
  function AnsweredBy(r: RepairResult): Option<nat> {
    match r
    case NoRepair => None
    case SynthesizedEnd(n, _) => Some(n)
    case CrashPending(n, _, _) => Some(n)
  }

  /** A run answers the newer signal if its envelope can be written; without a newer signal the latest
      end, if no worker was started after it; and otherwise the greatest unmatched worker. */
  lemma AnswersIff(store: Store, o: Outcome, n: nat)
    requires !o.corrupted
    ensures AnsweredBy(ResultOf(store, o)) == Some(n) <==>
      || (SignalIsNewer(store) && o.enqueueOk && LatestSignal(store.signals).value.session == n)
      || (!SignalIsNewer(store) && EndIsLast(store) && LatestEnd(store.ends).value.session == n)
      || (!SignalIsNewer(store) && !EndIsLast(store) && Unmatched(store.log) == Some(n))
  {
    if !SignalIsNewer(store) && !EndIsLast(store) && Unmatched(store.log).Some? {
      var durable := EndFor(store.ends, Unmatched(store.log).value);
      assert durable.Some? ==> durable.value.session == Unmatched(store.log).value;
    }
  }

  // ---- what matters of a store ----

  /** The sessions of the latest end, of the latest active signal and of the newest worker, those that
      have an end, and those that have been started and that have an end record. */
  datatype Summary = Summary(latest: Option<nat>, signal: Option<nat>, newest: Option<nat>,
                             withEnd: set<nat>, started: set<nat>, ended: set<nat>) {
    /** The unmatched sessions. */
    function Open(): set<nat> {
      started - ended
    }
  }

  predicate EndsReadable(ends: seq<End>) {
    forall e :: e in ends && !e.failed ==> e.readable
  }

  function SessionsWithEnd(ends: seq<End>): set<nat> {
    set e | e in ends && !e.failed :: e.session
  }

  function SetOf(s: seq<nat>): set<nat> {
    set n | n in s
  }

  function SummaryOf(store: Store): Summary {
    var signal, end := LatestSignal(store.signals), LatestEnd(store.ends);
    Summary(if end.Some? then Some(end.value.session) else None,
            if signal.Some? then Some(signal.value.session) else None,
            NewestStarted(store.log), SessionsWithEnd(store.ends),
            SetOf(StartedSeqs(store.log)), SetOf(EndedSeqs(store.log)))
  }

  predicate IsSummary(v: Summary) {
    && (v.latest.Some? ==> v.latest.value in v.withEnd)
    && (forall n :: n in v.started ==> v.newest.Some? && n <= v.newest.value)
  }

  predicate Newer(v: Summary) {
    v.signal.Some? && (v.latest.None? || v.signal.value > v.latest.value)
  }

  predicate IsLast(v: Summary) {
    v.latest.Some? && (v.newest.None? || v.newest.value <= v.latest.value)
  }

  predicate IsGreatest(v: Summary, n: nat) {
    n in v.Open() && forall m :: m in v.Open() ==> m <= n
  }

  ghost function Greatest(v: Summary): (n: nat)
    requires v.Open() != {}
    ensures IsGreatest(v, n)
  {
    GreatestExists(v.Open());
    var n :| n in v.Open() && forall m :: m in v.Open() ==> m <= n;
    n
  }

  lemma {:induction false} GreatestExists(s: set<nat>)
    requires s != {}
    ensures exists n :: n in s && forall m :: m in s ==> m <= n
  {
    var x :| x in s;
    if s != {x} {
      GreatestExists(s - {x});
      var n :| n in s - {x} && forall m :: m in s - {x} ==> m <= n;
      assert s == (s - {x}) + {x};
      if n < x { assert forall m :: m in s ==> m <= x; } else { assert forall m :: m in s ==> m <= n; }
    }
  }

  /** An end for `n` is enqueued, and its record written. */
  function Announced(v: Summary, n: nat): Summary {
    v.(latest := Some(n), withEnd := v.withEnd + {n}, ended := v.ended + {n})
  }

  /** One run in which all writes succeed. */
  ghost function Next(v: Summary): Summary {
    if Newer(v) then Announced(v, v.signal.value)
    else if IsLast(v) then v.(ended := v.ended + {v.latest.value})
    else if v.Open() == {} then v
    else if Greatest(v) in v.withEnd then v.(ended := v.ended + {Greatest(v)})
    else Announced(v, Greatest(v))
  }

  ghost function Enqueues(v: Summary): Option<nat> {
    if Newer(v) then v.signal
    else if IsLast(v) || v.Open() == {} || Greatest(v) in v.withEnd then None
    else Some(Greatest(v))
  }

  lemma SummaryIsSound(store: Store)
    ensures IsSummary(SummaryOf(store))
  {
    forall n | n in StartedSeqs(store.log) ensures NewestStarted(store.log).Some? && n <= NewestStarted(store.log).value {}
  }

  lemma SummaryTests(store: Store)
    ensures Newer(SummaryOf(store)) <==> SignalIsNewer(store)
    ensures IsLast(SummaryOf(store)) <==> EndIsLast(store)
    ensures SummaryOf(store).Open() == {} <==> Unmatched(store.log).None?
    ensures Unmatched(store.log).Some? ==> Greatest(SummaryOf(store)) == Unmatched(store.log).value
  {
    var v := SummaryOf(store);
    forall m | m in v.Open() ensures IsUnmatched(store.log, m) {}
    if Unmatched(store.log).Some? {
      var n := Unmatched(store.log).value;
      assert n in v.Open();
      assert IsUnmatched(store.log, Greatest(v));
    }
  }

  lemma HasEndIffInSummary(ends: seq<End>, n: nat)
    requires EndsReadable(ends)
    ensures n in SessionsWithEnd(ends) <==> HasEndFor(ends, n)
    ensures n in SessionsWithEnd(ends) <==> EndFor(ends, n).Some?
  {
    if HasEndFor(ends, n) {
      var e :| e in ends && !e.failed && e.session == n;
      assert IsEndOf(e, n);
    }
  }

  lemma EndedInSummary(log: seq<Event>, n: nat, reason: ExitReason)
    ensures var after := AppendedOnce(log, WorkerEnded(n, reason), true);
      StartedSeqs(after) == StartedSeqs(log) && SetOf(EndedSeqs(after)) == SetOf(EndedSeqs(log)) + {n}
  {
    EndedAfter(log, n, reason, true);
  }

  lemma EndAddedToSummary(ends: seq<End>, n: nat, reason: ExitReason, key: Key)
    requires EndsReadable(ends) && forall e :: e in ends ==> Above(key, e.key)
    ensures var after := ends + [End(key, n, reason, false, true)];
      && EndsReadable(after) && SessionsWithEnd(after) == SessionsWithEnd(ends) + {n}
      && LatestEnd(after).Some? && LatestEnd(after).value.session == n
  {
    var e := End(key, n, reason, false, true);
    NewestEndSnoc(ends, e);
    assert e in ends + [e];
  }

  lemma SignalFollows(store: Store, o: Outcome)
    requires WritesSucceed(o) && KeyIsNew(store, o) && EndsReadable(store.ends) && SignalIsNewer(store)
    ensures var after := RepairedStore(store, o);
      && EndsReadable(after.ends) && SummaryOf(after) == Announced(SummaryOf(store), LatestSignal(store.signals).value.session)
      && EnqueuedFor(store, o) == Some(LatestSignal(store.signals).value.session)
  {
    var s := LatestSignal(store.signals).value;
    EndedInSummary(store.log, s.session, SignalReason(s));
    EndAddedToSummary(store.ends, s.session, SignalReason(s), o.key);
  }

  lemma LastEndFollows(store: Store, o: Outcome)
    requires WritesSucceed(o) && !SignalIsNewer(store) && EndIsLast(store)
    ensures var after := RepairedStore(store, o);
      && after.ends == store.ends && EnqueuedFor(store, o).None?
      && SummaryOf(after) == SummaryOf(store).(ended := SetOf(EndedSeqs(store.log)) + {LatestEnd(store.ends).value.session})
  {
    var e := LatestEnd(store.ends).value;
    EndedInSummary(store.log, e.session, e.reason);
  }

  lemma CrashFollows(store: Store, o: Outcome)
    requires WritesSucceed(o) && KeyIsNew(store, o) && EndsReadable(store.ends)
    requires !SignalIsNewer(store) && !EndIsLast(store) && Unmatched(store.log).Some?
    ensures var after, v, n := RepairedStore(store, o), SummaryOf(store), Unmatched(store.log).value;
      && EndsReadable(after.ends)
      && SummaryOf(after) == (if n in v.withEnd then v.(ended := v.ended + {n}) else Announced(v, n))
      && EnqueuedFor(store, o) == (if n in v.withEnd then None else Some(n))
  {
    var n := Unmatched(store.log).value;
    HasEndIffInSummary(store.ends, n);
    if EndFor(store.ends, n).Some? {
      RecordFollows(store, RepairedStore(store, o), n, EndFor(store.ends, n).value.reason);
    } else {
      EndFollows(store, RepairedStore(store, o), n, o.key);
    }
  }

  lemma RecordFollows(store: Store, after: Store, n: nat, reason: ExitReason)
    requires after == store.(log := AppendedOnce(store.log, WorkerEnded(n, reason), true))
    ensures var v := SummaryOf(store); SummaryOf(after) == v.(ended := v.ended + {n})
  {
    EndedInSummary(store.log, n, reason);
  }

  lemma EndFollows(store: Store, after: Store, n: nat, key: Key)
    requires EndsReadable(store.ends) && forall e :: e in store.ends ==> Above(key, e.key)
    requires after.log == AppendedOnce(store.log, WorkerEnded(n, SdkCrash), true) && after.signals == store.signals
    requires after.ends == store.ends + [End(key, n, SdkCrash, false, true)]
    ensures EndsReadable(after.ends) && SummaryOf(after) == Announced(SummaryOf(store), n)
  {
    EndedInSummary(store.log, n, SdkCrash);
    EndAddedToSummary(store.ends, n, SdkCrash, key);
  }

  /** A run of the repair is a step of the summary. */
  lemma RunFollows(store: Store, o: Outcome)
    requires WritesSucceed(o) && KeyIsNew(store, o) && EndsReadable(store.ends)
    ensures EndsReadable(RepairedStore(store, o).ends)
    ensures SummaryOf(RepairedStore(store, o)) == Next(SummaryOf(store))
    ensures EnqueuedFor(store, o) == Enqueues(SummaryOf(store))
  {
    SummaryTests(store);
    if SignalIsNewer(store) { SignalFollows(store, o); }
    else if EndIsLast(store) { LastEndFollows(store, o); }
    else if Unmatched(store.log).Some? { CrashFollows(store, o); }
  }

  // ---- whose end is enqueued twice ----

  /** An unmatched worker without an end that is older than the signal's. */
  predicate IsOlder(v: Summary, n: nat) {
    v.signal.Some? && n in v.Open() && n !in v.withEnd && n < v.signal.value
  }

  /** No signal is newer, and yet the signal will be answered again after it has an end. */
  ghost predicate WillRepeat(v: Summary) {
    && v.signal.Some? && v.latest.Some?
    && v.newest.Some? && v.newest.value > v.latest.value
    && !(v.newest.value in v.Open() && v.newest.value !in v.withEnd)
    && (exists n :: IsOlder(v, n) && (v.signal.value in v.withEnd + v.Open() || exists m :: m != n && IsOlder(v, m)))
  }

  /** The exact condition: a newer signal is about a worker that already has an end; or, once the signal
      is answered, a newer worker was started that is not itself reported, and an older one is unmatched
      without an end, and the signal's worker has an end by then (if it has none yet, it gets one for
      being unmatched, or after one such older worker, so that there must be two of them). */
  ghost predicate Duplicates(v: Summary) {
    || (Newer(v) && v.signal.value in v.withEnd)
    || WillRepeat(if Newer(v) then Announced(v, v.signal.value) else v)
  }

  ghost predicate RepeatsNow(v: Summary) {
    Enqueues(v).Some? && Enqueues(v).value in v.withEnd
  }

  predicate IsSettled(v: Summary) {
    !Newer(v) && (if IsLast(v) then v.latest.value in v.ended else v.Open() == {})
  }

  lemma NextIsSummary(v: Summary)
    requires IsSummary(v)
    ensures IsSummary(Next(v))
  {}

  lemma SettledRepeatsNothing(v: Summary)
    requires IsSummary(v) && IsSettled(v)
    ensures !Duplicates(v)
  {}

  lemma ReportingKeepsCondition(v: Summary, n: nat)
    requires IsSummary(v) && !Newer(v) && !IsLast(v) && IsGreatest(v, n) && n !in v.withEnd
    ensures Duplicates(v) <==> Duplicates(Announced(v, n))
  {
    var after := Announced(v, n);
    assert v.newest.Some? && n <= v.newest.value;
    if v.signal.Some? && n < v.signal.value {
      assert Newer(after);
      OlderReported(v, n);
    } else {
      assert forall m :: IsOlder(v, m) <==> IsOlder(after, m);
    }
  }

  /** After an older worker was reported, the signal is answered again. */
  lemma OlderReported(v: Summary, n: nat)
    requires IsSummary(v) && !Newer(v) && !IsLast(v) && IsGreatest(v, n) && IsOlder(v, n)
    ensures Duplicates(v) <==> Duplicates(Announced(v, n))
  {
    var after := Announced(v, n);
    var again := Announced(after, v.signal.value);
    assert Newer(after) && Next(after) == again;
    assert v.signal.value !in v.Open();
    assert forall m :: IsOlder(again, m) <==> IsOlder(v, m) && m != n;
  }

  lemma RecordingKeepsCondition(v: Summary, n: nat)
    requires IsSummary(v) && !Newer(v) && !IsLast(v) && IsGreatest(v, n) && n in v.withEnd
    ensures Duplicates(v) <==> Duplicates(v.(ended := v.ended + {n}))
  {
    var after := v.(ended := v.ended + {n});
    assert forall m :: IsOlder(v, m) <==> IsOlder(after, m);
  }

  /** One run either repeats an end, or passes the condition on unchanged. */
  lemma NextKeepsCondition(v: Summary)
    requires IsSummary(v)
    ensures Duplicates(v) <==> RepeatsNow(v) || Duplicates(Next(v))
  {
    if Newer(v) {
      assert !Newer(Next(v));
    } else if !IsLast(v) && v.Open() != {} {
      if Greatest(v) in v.withEnd { RecordingKeepsCondition(v, Greatest(v)); } else { ReportingKeepsCondition(v, Greatest(v)); }
    }
  }

  /** The sessions for which a run enqueues an end although they have one, in order. */
  function Repeated(store: Store, os: seq<Outcome>): seq<nat> {
    if os == [] then []
    else
      var m := |os| - 1;
      var before := Restarts(store, os[..m]);
      var n := EnqueuedFor(before, os[m]);
      Repeated(store, os[..m]) + (if n.Some? && HasEndFor(before.ends, n.value) then [n.value] else [])
  }

  lemma {:induction false} RunsKeepCondition(store: Store, os: seq<Outcome>)
    requires EndsReadable(store.ends) && Undisturbed(store, os)
    ensures EndsReadable(Restarts(store, os).ends)
    ensures Duplicates(SummaryOf(store)) <==> Repeated(store, os) != [] || Duplicates(SummaryOf(Restarts(store, os)))
  {
    if os != [] {
      var n := |os| - 1;
      var before := Restarts(store, os[..n]);
      UndisturbedPrefix(store, os, n);
      RunsKeepCondition(store, os[..n]);
      assert KeyIsNew(before, os[n]);
      RunFollows(before, os[n]);
      SummaryIsSound(before);
      NextKeepsCondition(SummaryOf(before));
      if EnqueuedFor(before, os[n]).Some? { HasEndIffInSummary(before.ends, EnqueuedFor(before, os[n]).value); }
    }
  }

  lemma SettledSummary(store: Store)
    ensures Settled(store) <==> IsSettled(SummaryOf(store))
  {
    SummaryTests(store);
  }

  /** Exactly when repeated recovery enqueues an end for a session that already has one: over any
      number of runs that is enough for it to settle. */
  lemma DuplicatesIff(store: Store, os: seq<Outcome>)
    requires EndsReadable(store.ends) && Undisturbed(store, os) && |os| >= Measure(store)
    ensures Repeated(store, os) != [] <==> Duplicates(SummaryOf(store))
  {
    var now := Restarts(store, os);
    RunsKeepCondition(store, os);
    RecoveryAlwaysConverges(store, os);
    SettledSummary(now);
    SummaryIsSound(now);
    SettledRepeatsNothing(SummaryOf(now));
  }

  // ---- in how many runs it settles ----

  /** One more run leaves nothing to do. */
  ghost predicate SettlesInOne(v: Summary) {
    if Newer(v) then v.newest.None? || v.newest.value <= v.signal.value || v.Open() <= {v.signal.value}
    else if IsLast(v) || v.Open() == {} then true
    else if Greatest(v) in v.withEnd then v.Open() == {Greatest(v)}
    else v.newest == Some(Greatest(v)) || (v.Open() == {Greatest(v)} && (v.signal.Some? ==> v.signal.value <= Greatest(v)))
  }

  lemma SettlesInOneIff(v: Summary)
    requires IsSummary(v)
    ensures IsSettled(Next(v)) <==> SettlesInOne(v)
  {
    var after := Next(v);
    if Newer(v) {
      assert after.Open() == v.Open() - {v.signal.value};
    } else if !IsLast(v) && v.Open() != {} {
      var n := Greatest(v);
      assert after.Open() == v.Open() - {n};
      assert v.newest.Some? && n <= v.newest.value;
    }
  }

  /** Exactly when two runs are enough: read off the files before the second one, or before the first
      with the step that `Next` is. */
  lemma TwoRunsSettleIff(store: Store, os: seq<Outcome>)
    requires EndsReadable(store.ends) && Undisturbed(store, os) && |os| == 2
    ensures Settled(Restarts(store, os)) <==> SettlesInOne(Next(SummaryOf(store)))
  {
    assert os[..1][..0] == [] && os[..0] == [];
    assert Restarts(store, os[..0]) == store && Restarts(store, os[..1]) == RepairedStore(store, os[0]);
    assert KeyIsNew(Restarts(store, os[..0]), os[0]) && KeyIsNew(Restarts(store, os[..1]), os[1]);
    RunFollows(store, os[0]);
    RunFollows(RepairedStore(store, os[0]), os[1]);
    SummaryIsSound(RepairedStore(store, os[0]));
    SettlesInOneIff(Next(SummaryOf(store)));
    SettledSummary(Restarts(store, os));
  }

  // ---- who is never reported ----

  /** The unmatched workers that stay so: behind the latest end if no worker was started after it, and
      behind the newest worker if that is the one to be reported. */
  ghost function Masked(v: Summary): set<nat> {
    var t := if Newer(v) then Announced(v, v.signal.value) else v;
    if IsLast(t) then t.Open() - {t.latest.value}
    else if t.newest.Some? && t.newest.value in t.Open() && t.newest.value !in t.withEnd then t.Open() - {t.newest.value}
    else {}
  }

  lemma SettledIsMasked(v: Summary)
    requires IsSummary(v) && IsSettled(v)
    ensures v.Open() == Masked(v)
  {}

  lemma ReportingKeepsMasked(v: Summary, n: nat)
    requires IsSummary(v) && !Newer(v) && !IsLast(v) && IsGreatest(v, n) && n !in v.withEnd
    ensures Masked(Announced(v, n)) == Masked(v)
  {
    var after := Announced(v, n);
    assert v.newest.Some? && n <= v.newest.value;
    if Newer(after) {
      var again := Announced(after, v.signal.value);
      assert Next(after) == again && !IsLast(again);
    }
  }

  lemma RecordingKeepsMasked(v: Summary, n: nat)
    requires IsSummary(v) && !Newer(v) && !IsLast(v) && IsGreatest(v, n) && n in v.withEnd
    ensures Masked(v.(ended := v.ended + {n})) == Masked(v)
  {}

  lemma NextKeepsMasked(v: Summary)
    requires IsSummary(v)
    ensures Masked(Next(v)) == Masked(v)
  {
    if Newer(v) {
      assert !Newer(Next(v));
    } else if !IsLast(v) && v.Open() != {} {
      if Greatest(v) in v.withEnd { RecordingKeepsMasked(v, Greatest(v)); } else { ReportingKeepsMasked(v, Greatest(v)); }
    }
  }

  lemma {:induction false} RunsKeepMasked(store: Store, os: seq<Outcome>)
    requires EndsReadable(store.ends) && Undisturbed(store, os)
    ensures EndsReadable(Restarts(store, os).ends)
    ensures Masked(SummaryOf(Restarts(store, os))) == Masked(SummaryOf(store))
  {
    if os != [] {
      var n := |os| - 1;
      var before := Restarts(store, os[..n]);
      UndisturbedPrefix(store, os, n);
      RunsKeepMasked(store, os[..n]);
      assert KeyIsNew(before, os[n]);
      RunFollows(before, os[n]);
      SummaryIsSound(before);
      NextKeepsMasked(SummaryOf(before));
    }
  }

  /** Exactly which workers are still unmatched when recovery has settled, and so stay unmatched. */
  lemma UnmatchedInTheEndIff(store: Store, os: seq<Outcome>, n: nat)
    requires EndsReadable(store.ends) && Undisturbed(store, os) && |os| >= Measure(store)
    ensures IsUnmatched(Restarts(store, os).log, n) <==> n in Masked(SummaryOf(store))
  {
    var now := Restarts(store, os);
    RunsKeepMasked(store, os);
    RecoveryAlwaysConverges(store, os);
    SettledSummary(now);
    SummaryIsSound(now);
    SettledIsMasked(SummaryOf(now));
  }

  /** An unmatched worker gets its record in the run that answers it, and in no other. */
  lemma RecordedIffAnswered(store: Store, o: Outcome, n: nat)
    requires WritesSucceed(o) && IsUnmatched(store.log, n)
    ensures !IsUnmatched(RepairedStore(store, o).log, n) <==> AnsweredBy(ResultOf(store, o)) == Some(n)
  {
    AnswersIff(store, o, n);
    if SignalIsNewer(store) {
      var s := LatestSignal(store.signals).value;
      EndedAfter(store.log, s.session, SignalReason(s), true);
    } else if EndIsLast(store) {
      var e := LatestEnd(store.ends).value;
      EndedAfter(store.log, e.session, e.reason, true);
    } else {
      var m := Unmatched(store.log).value;
      var durable := EndFor(store.ends, m);
      EndedAfter(store.log, m, if durable.Some? then durable.value.reason else SdkCrash, true);
    }
  }

  /** The sessions that the runs answer, in order. */
  function Answers(store: Store, os: seq<Outcome>): seq<Option<nat>> {
    if os == [] then []
    else
      var m := |os| - 1;
      Answers(store, os[..m]) + [AnsweredBy(ResultOf(Restarts(store, os[..m]), os[m]))]
  }

  lemma MatchedStays(store: Store, o: Outcome, n: nat)
    requires WritesSucceed(o) && n in EndedSeqs(store.log)
    ensures n in EndedSeqs(RepairedStore(store, o).log)
  {
    if SignalIsNewer(store) {
      var s := LatestSignal(store.signals).value;
      EndedAfter(store.log, s.session, SignalReason(s), true);
    } else if EndIsLast(store) {
      var e := LatestEnd(store.ends).value;
      EndedAfter(store.log, e.session, e.reason, true);
    } else if Unmatched(store.log).Some? {
      var m := Unmatched(store.log).value;
      var durable := EndFor(store.ends, m);
      EndedAfter(store.log, m, if durable.Some? then durable.value.reason else SdkCrash, true);
    }
  }

  lemma StartedStays(store: Store, o: Outcome)
    requires WritesSucceed(o)
    ensures StartedSeqs(RepairedStore(store, o).log) == StartedSeqs(store.log)
  {
    if SignalIsNewer(store) {
      var s := LatestSignal(store.signals).value;
      EndedAfter(store.log, s.session, SignalReason(s), true);
    } else if EndIsLast(store) {
      var e := LatestEnd(store.ends).value;
      EndedAfter(store.log, e.session, e.reason, true);
    } else if Unmatched(store.log).Some? {
      var m := Unmatched(store.log).value;
      var durable := EndFor(store.ends, m);
      EndedAfter(store.log, m, if durable.Some? then durable.value.reason else SdkCrash, true);
    }
  }

  lemma {:induction false} AnsweredIsMatched(store: Store, os: seq<Outcome>, n: nat)
    requires (forall i :: 0 <= i < |os| ==> WritesSucceed(os[i])) && IsUnmatched(store.log, n)
    ensures n in StartedSeqs(Restarts(store, os).log)
    ensures n in EndedSeqs(Restarts(store, os).log) <==> Some(n) in Answers(store, os)
  {
    if os != [] {
      var m := |os| - 1;
      var before := Restarts(store, os[..m]);
      AnsweredIsMatched(store, os[..m], n);
      StartedStays(before, os[m]);
      if n in EndedSeqs(before.log) { MatchedStays(before, os[m], n); } else { RecordedIffAnswered(before, os[m], n); }
    }
  }

  /** Exactly which unmatched workers are reported by some run: all but the masked ones. */
  lemma ReportedIff(store: Store, os: seq<Outcome>, n: nat)
    requires EndsReadable(store.ends) && Undisturbed(store, os) && |os| >= Measure(store)
    requires IsUnmatched(store.log, n)
    ensures Some(n) in Answers(store, os) <==> n !in Masked(SummaryOf(store))
  {
    UnmatchedInTheEndIff(store, os, n);
    AnsweredIsMatched(store, os, n);
  }

  /** With ends in the order of their sessions, a newer signal is never about a worker that has an end. */
  lemma InOrderNewerIsNew(store: Store)
    requires EndsInOrder(store.ends) && SignalIsNewer(store)
    ensures LatestSignal(store.signals).value.session !in SummaryOf(store).withEnd
  {
    forall e | e in store.ends && !e.failed ensures e.session != LatestSignal(store.signals).value.session {
      LatestIsGreatest(store.ends, e);
    }
  }
}
