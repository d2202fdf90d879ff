/** What repeated recovery does, and what it never does. */
module RecoveryConverges {
  import opened Prelude
  import opened Events
  import opened Sessions
  import opened Recovery

  // ---- a crashed worker is never silently replaced ----

  /** With a readable event log, recovery answers a worker that was started and never ended with a
      waiting state, except in one case: the worker had signalled its exit (or another worker has,
      later than the latest end) and the envelope for that could not be written. */
  lemma CrashIsReported(store: Store, o: Outcome)
    requires !o.corrupted && Unmatched(store.log).Some?
    ensures ResultOf(store, o).NoRepair? <==> SignalIsNewer(store) && !o.enqueueOk
  {}

  // ---- convergence ----

  predicate WritesSucceed(o: Outcome) {
    !o.corrupted && o.appendOk && o.enqueueOk
  }

  /** Ends that did not fail have readable payloads, distinct keys, and are keyed in session order. */
  predicate EndsInOrder(ends: seq<End>) {
    && (forall e :: e in ends && !e.failed ==> e.readable)
    && (forall e, f :: e in ends && f in ends && !e.failed && !f.failed ==> Ordered(e, f))
  }

  predicate Ordered(e: End, f: End) {
    (e.key == f.key ==> e == f) && (Above(e.key, f.key) ==> e.session >= f.session)
  }

  /** Only the newest started worker may lack an end record. */
  predicate OnlyNewestUnmatched(log: seq<Event>) {
    forall n :: n in StartedSeqs(log) && n !in EndedSeqs(log) ==> n == MaxStarted(log)
  }

  predicate Consistent(store: Store) {
    EndsInOrder(store.ends) && OnlyNewestUnmatched(store.log)
  }

  /** The key of a new envelope is above all earlier ones. */
  predicate KeyIsNew(store: Store, o: Outcome) {
    forall e :: e in store.ends ==> Above(o.key, e.key)
  }

  predicate HasEndFor(ends: seq<End>, session: nat) {
    exists e :: e in ends && !e.failed && e.session == session
  }

  lemma NewestEndSnoc(ends: seq<End>, e: End)
    requires !e.failed && forall f :: f in ends ==> Above(e.key, f.key)
    ensures NewestEnd(ends + [e]) == Some(e)
  {
    assert (ends + [e])[..|ends|] == ends;
  }

  /** In order, the latest end is about the greatest session that has one. */
  lemma LatestIsGreatest(ends: seq<End>, e: End)
    requires EndsInOrder(ends) && e in ends && !e.failed
    ensures LatestEnd(ends).Some? && e.session <= LatestEnd(ends).value.session
  {
    var best := NewestEnd(ends).value;
    assert Ordered(best, e);
  }

  /** A new end with a new key for a session that is at least the latest keeps the order. */
  lemma EndAdded(store: Store, session: nat, reason: ExitReason, o: Outcome)
    requires EndsInOrder(store.ends) && KeyIsNew(store, o) && WritesSucceed(o)
    requires LatestEnd(store.ends).None? || LatestEnd(store.ends).value.session < session
    ensures var after := WithEnd(store, session, reason, o).ends;
            && EndsInOrder(after)
            && LatestEnd(after) == Some(End(o.key, session, reason, false, true))
    ensures !HasEndFor(store.ends, session)
  {
    var e := End(o.key, session, reason, false, true);
    NewestEndSnoc(store.ends, e);
    forall f | f in store.ends && !f.failed ensures f.session < session && Ordered(e, f) && Ordered(f, e) {
      LatestIsGreatest(store.ends, f);
    }
    assert Ordered(e, e);
  }

  /** Nothing is left to write: the latest end is about the last worker and its record is there. */
  predicate Settled(store: Store) {
    && !SignalIsNewer(store)
    && (if EndIsLast(store) then LatestEnd(store.ends).value.session in EndedSeqs(store.log)
        else Unmatched(store.log).None?)
  }

  lemma SettledStays(store: Store, o: Outcome)
    requires Settled(store) && WritesSucceed(o)
    ensures RepairedStore(store, o) == store
  {
    if EndIsLast(store) {
      var e := LatestEnd(store.ends).value;
      EndedAfter(store.log, e.session, e.reason, o.appendOk);
    }
  }

  /** A run that finds no newer signal leaves nothing to do. */
  lemma NoSignalSettles(store: Store, o: Outcome)
    requires Consistent(store) && KeyIsNew(store, o) && WritesSucceed(o) && !SignalIsNewer(store)
    ensures Settled(RepairedStore(store, o))
  {
    if EndIsLast(store) {
      var e := LatestEnd(store.ends).value;
      EndedAfter(store.log, e.session, e.reason, true);
    } else if Unmatched(store.log).Some? {
      var n := Unmatched(store.log).value;
      NoDurableEnd(store, n);
      EndAdded(store, n, SdkCrash, o);
      EndedAfter(store.log, n, SdkCrash, true);
    }
  }

  /** The crashed worker that recovery picks has no end yet. */
  lemma NoDurableEnd(store: Store, n: nat)
    requires Consistent(store) && !SignalIsNewer(store) && !EndIsLast(store) && Unmatched(store.log) == Some(n)
    ensures EndFor(store.ends, n).None?
    ensures LatestEnd(store.ends).None? || LatestEnd(store.ends).value.session < n
  {
    assert n in StartedSeqs(store.log);
    if EndFor(store.ends, n).Some? { LatestIsGreatest(store.ends, EndFor(store.ends, n).value); }
  }

  /** A run that answers a newer signal keeps the store consistent and uses that signal up. */
  lemma SignalAnswered(store: Store, o: Outcome)
    requires Consistent(store) && KeyIsNew(store, o) && WritesSucceed(o) && SignalIsNewer(store)
    ensures var after := RepairedStore(store, o);
            Consistent(after) && !SignalIsNewer(after)
  {
    var s := LatestSignal(store.signals).value;
    EndAdded(store, s.session, SignalReason(s), o);
    EndedAfter(store.log, s.session, SignalReason(s), true);
    var after := RepairedStore(store, o);
    forall n: nat | IsUnmatched(after.log, n) ensures n == MaxStarted(after.log) {
      assert IsUnmatched(store.log, n);
    }
  }

  /** The stores after each of a series of restarts. */
  function Restarts(store: Store, os: seq<Outcome>): Store {
    if os == [] then store else RepairedStore(Restarts(store, os[..|os| - 1]), os[|os| - 1])
  }

  /** All writes succeed, and every envelope gets a key above those written before it. */
  predicate Undisturbed(store: Store, os: seq<Outcome>) {
    && (forall i :: 0 <= i < |os| ==> WritesSucceed(os[i]))
    && (forall i :: 0 <= i < |os| ==> KeyIsNew(Restarts(store, os[..i]), os[i]))
  }

  lemma UndisturbedPrefix(store: Store, os: seq<Outcome>, k: nat)
    requires Undisturbed(store, os) && k <= |os|
    ensures Undisturbed(store, os[..k])
  {
    forall i | 0 <= i < k ensures KeyIsNew(Restarts(store, os[..k][..i]), os[..k][i]) {
      assert os[..k][..i] == os[..i];
    }
  }

  /** After one run at most the crash of the newest worker is left to report, after two runs nothing. */
  lemma {:induction false} TwoRunsSettle(store: Store, os: seq<Outcome>)
    requires Consistent(store) && Undisturbed(store, os) && os != []
    ensures var now := Restarts(store, os);
            Settled(now) || (|os| == 1 && Consistent(now) && !SignalIsNewer(now))
  {
    var k := |os| - 1;
    var before := Restarts(store, os[..k]);
    assert KeyIsNew(before, os[k]);
    if k == 0 {
      assert before == store;
      if SignalIsNewer(store) { SignalAnswered(store, os[0]); } else { NoSignalSettles(store, os[0]); }
    } else {
      UndisturbedPrefix(store, os, k);
      TwoRunsSettle(store, os[..k]);
      if Settled(before) { SettledStays(before, os[k]); } else { NoSignalSettles(before, os[k]); }
    }
  }

  /** Repeated recovery converges: at most the first two consecutive runs write anything. */
  lemma {:induction false} RecoveryConverges(store: Store, os: seq<Outcome>)
    requires Consistent(store) && Undisturbed(store, os) && |os| >= 2
    ensures Restarts(store, os) == Restarts(store, os[..2])
  {
    var k := |os| - 1;
    if k == 1 {
      assert os[..2] == os;
    } else {
      UndisturbedPrefix(store, os, k);
      RecoveryConverges(store, os[..k]);
      assert os[..k][..2] == os[..2];
      TwoRunsSettle(store, os[..k]);
      SettledStays(Restarts(store, os[..k]), os[k]);
    }
  }

  /** The session of the end that a run would enqueue. */
  function EnqueuedFor(store: Store, o: Outcome): Option<nat> {
    var after := RepairedStore(store, o).ends;
    if |after| > |store.ends| then Some(after[|after| - 1].session) else None
  }

  /** No run enqueues an end for a session that already has one. */
  lemma NoDuplicateEnd(store: Store, o: Outcome, session: nat)
    requires Consistent(store) && KeyIsNew(store, o) && WritesSucceed(o)
    requires EnqueuedFor(store, o) == Some(session)
    ensures !HasEndFor(store.ends, session)
  {
    if SignalIsNewer(store) {
      EndAdded(store, session, SignalReason(LatestSignal(store.signals).value), o);
    } else if !EndIsLast(store) && Unmatched(store.log).Some? {
      NoDurableEnd(store, Unmatched(store.log).value);
      EndAdded(store, Unmatched(store.log).value, SdkCrash, o);
    }
  }

  /** ... in any of the runs. */
  lemma NoRunDuplicates(store: Store, os: seq<Outcome>, k: nat, session: nat)
    requires Consistent(store) && Undisturbed(store, os) && k < |os|
    requires EnqueuedFor(Restarts(store, os[..k]), os[k]) == Some(session)
    ensures k < 2 && !HasEndFor(Restarts(store, os[..k]).ends, session)
  {
    var before := Restarts(store, os[..k]);
    assert KeyIsNew(before, os[k]);
    if k > 0 {
      UndisturbedPrefix(store, os, k);
      TwoRunsSettle(store, os[..k]);
      if Settled(before) { SettledStays(before, os[k]); }
    } else {
      assert before == store;
    }
    NoDuplicateEnd(before, os[k], session);
  }

  // ---- convergence without any hypothesis about the files ----

  /** The sessions that a run may still have to end: those that were started, and those that the latest
      end and the latest signal are about. */
  function Pending(store: Store): set<nat> {
    var signal, end := LatestSignal(store.signals), LatestEnd(store.ends);
    (set n | n in StartedSeqs(store.log) && n !in EndedSeqs(store.log))
    + (if end.Some? && end.value.session !in EndedSeqs(store.log) then {end.value.session} else {})
    + (if signal.Some? && signal.value.session !in EndedSeqs(store.log) then {signal.value.session} else {})
  }

  function Measure(store: Store): nat {
    2 * |Pending(store)| + (if SignalIsNewer(store) then 1 else 0)
  }

  lemma FewerPending(store: Store, after: Store, n: nat)
    requires Pending(after) <= Pending(store)
    ensures |Pending(after)| <= |Pending(store)|
    ensures n in Pending(store) && n !in Pending(after) ==> |Pending(after)| < |Pending(store)|
  {
    SubsetSize(Pending(after), Pending(store));
    if n in Pending(store) && n !in Pending(after) { SubsetSize(Pending(after), Pending(store) - {n}); }
  }

  lemma SignalShrinks(store: Store, o: Outcome)
    requires WritesSucceed(o) && KeyIsNew(store, o) && SignalIsNewer(store)
    ensures Measure(RepairedStore(store, o)) < Measure(store)
  {
    var s := LatestSignal(store.signals).value;
    var after := RepairedStore(store, o);
    NewestEndSnoc(store.ends, End(o.key, s.session, SignalReason(s), false, true));
    EndedAfter(store.log, s.session, SignalReason(s), true);
    assert LatestEnd(after.ends).value.session == s.session;
    FewerPending(store, after, s.session);
  }

  lemma LastEndShrinks(store: Store, o: Outcome)
    requires WritesSucceed(o) && !SignalIsNewer(store) && EndIsLast(store)
    requires LatestEnd(store.ends).value.session !in EndedSeqs(store.log)
    ensures Measure(RepairedStore(store, o)) < Measure(store)
  {
    var e := LatestEnd(store.ends).value;
    assert e.session in Pending(store);
    RecordShrinks(store, RepairedStore(store, o), e.session, e.reason);
  }

  lemma CrashShrinks(store: Store, o: Outcome)
    requires WritesSucceed(o) && KeyIsNew(store, o) && !SignalIsNewer(store) && !EndIsLast(store)
    requires Unmatched(store.log).Some?
    ensures Measure(RepairedStore(store, o)) < Measure(store)
  {
    var n := Unmatched(store.log).value;
    var durable := EndFor(store.ends, n);
    assert n in Pending(store);
    if durable.Some? {
      RecordShrinks(store, RepairedStore(store, o), n, durable.value.reason);
    } else {
      NewestEndSnoc(store.ends, End(o.key, n, SdkCrash, false, true));
      EndShrinks(store, RepairedStore(store, o), n);
    }
  }

  /** Only the record of a pending session was added. */
  lemma RecordShrinks(store: Store, after: Store, n: nat, reason: ExitReason)
    requires n in Pending(store)
    requires after == store.(log := AppendedOnce(store.log, WorkerEnded(n, reason), true))
    ensures Measure(after) < Measure(store)
  {
    EndedAfter(store.log, n, reason, true);
    FewerPending(store, after, n);
  }

  /** The record was added, and the latest end is now about that worker. */
  lemma EndShrinks(store: Store, after: Store, n: nat)
    requires IsUnmatched(store.log, n) && after.signals == store.signals
    requires after.log == AppendedOnce(store.log, WorkerEnded(n, SdkCrash), true)
    requires LatestEnd(after.ends).Some? && LatestEnd(after.ends).value.session == n
    ensures Measure(after) < Measure(store)
  {
    EndedAfter(store.log, n, SdkCrash, true);
    FewerPending(store, after, n);
  }

  lemma {:induction false} AlwaysShrinks(store: Store, os: seq<Outcome>)
    requires Undisturbed(store, os)
    ensures Settled(Restarts(store, os)) || Measure(Restarts(store, os)) + |os| <= Measure(store)
  {
    if os != [] {
      var k := |os| - 1;
      var before := Restarts(store, os[..k]);
      UndisturbedPrefix(store, os, k);
      AlwaysShrinks(store, os[..k]);
      assert KeyIsNew(before, os[k]);
      if Settled(before) { SettledStays(before, os[k]); }
      else if SignalIsNewer(before) { SignalShrinks(before, os[k]); }
      else if EndIsLast(before) { LastEndShrinks(before, os[k]); }
      else { CrashShrinks(before, os[k]); }
    }
  }

  lemma UnsettledIsPending(store: Store)
    requires !Settled(store) && !SignalIsNewer(store)
    ensures Pending(store) != {}
  {
    if EndIsLast(store) {
      assert LatestEnd(store.ends).value.session in Pending(store);
    } else {
      assert Unmatched(store.log).value in Pending(store);
    }
  }

  /** Whatever the two logs hold, with any number of unmatched workers and with ends in any order: if
      all writes succeed, recovery writes nothing any more after `Measure` runs, at most two for
      each session that is pending and one more. */
  lemma RecoveryAlwaysConverges(store: Store, os: seq<Outcome>)
    requires Undisturbed(store, os) && |os| >= Measure(store)
    ensures Settled(Restarts(store, os))
    ensures forall o :: WritesSucceed(o) ==> RepairedStore(Restarts(store, os), o) == Restarts(store, os)
  {
    AlwaysShrinks(store, os);
    var now := Restarts(store, os);
    if !Settled(now) { UnsettledIsPending(now); }
    forall o | WritesSucceed(o) ensures RepairedStore(now, o) == now { SettledStays(now, o); }
  }

  // ---- with an older worker unmatched ----

  /** Sessions 1, 2 and 3 started, only 3 ended, and 2 signalled its exit: the second run reports 1 under
      a younger key, and the third answers the same signal again. */
  lemma ThreeRuns(store: Store, signal: Signal, o1: Outcome, o2: Outcome, o3: Outcome)
    requires WritesSucceed(o1) && WritesSucceed(o2) && WritesSucceed(o3)
    requires Above(o2.key, o1.key) && Above(o3.key, o2.key) && Above(o3.key, o1.key)
    requires StartedSeqs(store.log) == [1, 2, 3] && MaxStarted(store.log) == 3
    requires forall n :: n in EndedSeqs(store.log) <==> n == 3
    requires store.signals == [signal] && IsActiveSignal(signal) && signal.session == 2 && store.ends == []
    ensures var ends := RepairedStore(RepairedStore(RepairedStore(store, o1), o2), o3).ends;
            |ends| == 3 && ends[0].session == ends[2].session == 2 && ends[1].session == 1
  {
    var first := AnswersSignal(store, signal, o1);
    var second := OlderIsReported(first, signal, o1, o2);
    var third := AnswersSignal(second, signal, o3);
  }

  /** The second of those runs. */
  lemma OlderIsReported(first: Store, signal: Signal, o1: Outcome, o2: Outcome) returns (second: Store)
    requires WritesSucceed(o2) && Above(o2.key, o1.key)
    requires StartedSeqs(first.log) == [1, 2, 3]
    requires forall n :: n in EndedSeqs(first.log) <==> n == 3 || n == 2
    requires first.signals == [signal] && IsActiveSignal(signal) && signal.session == 2
    requires first.ends == [End(o1.key, 2, SignalReason(signal), false, true)]
    ensures second == RepairedStore(first, o2) && second.signals == first.signals
    ensures second.ends == first.ends + [End(o2.key, 1, SdkCrash, false, true)]
    ensures LatestEnd(second.ends).Some? && LatestEnd(second.ends).value.session == 1
  {
    SignalIs(first, signal);
    NewestEndSnoc([], first.ends[0]);
    assert [] + first.ends == first.ends;
    assert LatestEnd(first.ends) == Some(first.ends[0]);
    second := ReportsCrash(first, 2, 1, o2);
  }

  lemma SignalIs(store: Store, signal: Signal)
    requires store.signals == [signal] && IsActiveSignal(signal)
    ensures LatestSignal(store.signals) == Some(signal)
  {
    assert [signal][..0] == [];
  }

  lemma AnswersSignal(store: Store, signal: Signal, o: Outcome) returns (after: Store)
    requires store.signals == [signal] && IsActiveSignal(signal) && WritesSucceed(o) && KeyIsNew(store, o)
    requires LatestEnd(store.ends).None? || LatestEnd(store.ends).value.session < signal.session
    ensures after == RepairedStore(store, o) && after.signals == store.signals
    ensures StartedSeqs(after.log) == StartedSeqs(store.log)
    ensures forall n :: n in EndedSeqs(after.log) <==> n in EndedSeqs(store.log) || n == signal.session
    ensures after.ends == store.ends + [End(o.key, signal.session, SignalReason(signal), false, true)]
    ensures LatestEnd(after.ends).Some? && LatestEnd(after.ends).value.session == signal.session
  {
    SignalIs(store, signal);
    after := RepairedStore(store, o);
    EndedAfter(store.log, signal.session, SignalReason(signal), true);
    NewestEndSnoc(store.ends, End(o.key, signal.session, SignalReason(signal), false, true));
  }

  lemma ReportsCrash(store: Store, latest: nat, crashed: nat, o: Outcome) returns (after: Store)
    requires WritesSucceed(o) && KeyIsNew(store, o) && !SignalIsNewer(store) && !EndIsLast(store)
    requires IsUnmatched(store.log, crashed) && forall n: nat :: IsUnmatched(store.log, n) ==> n == crashed
    requires forall e :: e in store.ends ==> e.session == latest
    requires latest != crashed
    ensures after == RepairedStore(store, o) && after.signals == store.signals
    ensures after.ends == store.ends + [End(o.key, crashed, SdkCrash, false, true)]
    ensures LatestEnd(after.ends).Some? && LatestEnd(after.ends).value.session == crashed
  {
    after := RepairedStore(store, o);
    NewestEndSnoc(store.ends, End(o.key, crashed, SdkCrash, false, true));
  }
}
