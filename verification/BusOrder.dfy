/** What the log determines: unique numbers for enqueued envelopes, hence one pull order. */
module BusOrder {
  import opened Prelude
  import opened Extras
  import opened Bus
  import Recovery

  // ---- numbers ----

  /** Every envelope is enqueued once (ids are drawn fresh). */
  predicate FreshIds(log: seq<BusEvent>) {
    forall i, j :: 0 <= i < j < |log| && log[i].Enqueued? && log[j].Enqueued? ==> log[i].id != log[j].id
  }

  /** Enqueued envelopes are numbered in log order, without repetition. */
  predicate NumbersIncrease(log: seq<BusEvent>) {
    forall i, j :: 0 <= i < j < |log| && log[i].Enqueued? && log[j].Enqueued? ==> log[i].stateSeq < log[j].stateSeq
  }

  /** The folded state shows every enqueued envelope under the number it was given. */
  lemma {:induction false} FoldShows(log: seq<BusEvent>, i: nat)
    requires FreshIds(log) && i < |log| && log[i].Enqueued?
    ensures log[i].id in Fold(log)
    ensures var e := Fold(log)[log[i].id]; e.stateSeq == log[i].stateSeq && e.createdAt == log[i].createdAt
  {
    var n := |log| - 1;
    if i < n {
      assert forall a :: 0 <= a < n ==> log[..n][a] == log[a];
      FoldShows(log[..n], i);
    }
  }

  /** ... and nothing else. */
  lemma {:induction false} FoldComesFrom(log: seq<BusEvent>, id: Id) returns (i: nat)
    requires id in Fold(log)
    ensures i < |log| && log[i].Enqueued? && log[i].id == id && log[i].stateSeq == Fold(log)[id].stateSeq
  {
    var n := |log| - 1;
    if log[n].Enqueued? && log[n].id == id {
      i := n;
    } else {
      i := FoldComesFrom(log[..n], id);
    }
  }

  /** An envelope enqueued under a new id, with the number that the lock holder computes from the
      folded log, continues the numbering, whoever appended what came before. */
  lemma EnqueueContinues(log: seq<BusEvent>, e: BusEvent)
    requires FreshIds(log) && NumbersIncrease(log)
    requires e.Enqueued? && e.id !in Fold(log) && IsNextSeq(Fold(log), e.stateSeq)
    ensures FreshIds(log + [e]) && NumbersIncrease(log + [e])
  {
    forall i | 0 <= i < |log| && log[i].Enqueued? ensures log[i].id != e.id && log[i].stateSeq < e.stateSeq {
      FoldShows(log, i);
    }
    assert forall i :: 0 <= i < |log| ==> (log + [e])[i] == log[i];
  }

  lemma OtherEventsContinue(log: seq<BusEvent>, e: BusEvent)
    requires FreshIds(log) && NumbersIncrease(log) && !e.Enqueued?
    ensures FreshIds(log + [e]) && NumbersIncrease(log + [e])
  {
    assert forall i :: 0 <= i < |log| ==> (log + [e])[i] == log[i];
  }

  /** Only enqueued events advance the numbering: after any other event the next number is the same,
      so read, responded and failed events can share theirs. */
  lemma OnlyEnqueueAdvances(log: seq<BusEvent>, e: BusEvent, s: nat)
    requires !e.Enqueued?
    ensures IsNextSeq(Fold(log + [e]), s) <==> IsNextSeq(Fold(log), s)
  {
    FoldSnoc(log, e);
    var before, after := Fold(log), Fold(log + [e]);
    assert after.Keys == before.Keys;
    assert forall id :: id in before ==> after[id].stateSeq == before[id].stateSeq;
    if IsNextSeq(before, s) && s > 1 {
      var id :| id in before && before[id].stateSeq == s - 1;
      assert after[id].stateSeq == s - 1;
    }
    if IsNextSeq(after, s) && s > 1 {
      var id :| id in after && after[id].stateSeq == s - 1;
      assert before[id].stateSeq == s - 1;
    }
  }

  /** A log to which only bus operations have appended, of however many processes. */
  ghost predicate GrownByBus(log: seq<BusEvent>) {
    forall i :: 0 <= i < |log| && log[i].Enqueued? ==> IsNextEnqueue(log[..i], log[i])
  }

  ghost predicate IsNextEnqueue(log: seq<BusEvent>, e: BusEvent) {
    e.id !in Fold(log) && (e.Enqueued? ==> IsNextSeq(Fold(log), e.stateSeq))
  }

  lemma {:induction false} GrownLogsAreNumbered(log: seq<BusEvent>)
    requires GrownByBus(log)
    ensures FreshIds(log) && NumbersIncrease(log)
  {
    if log != [] {
      var n := |log| - 1;
      var front := log[..n];
      forall i | 0 <= i < n && front[i].Enqueued? ensures IsNextEnqueue(front[..i], front[i]) {
        assert front[..i] == log[..i] && IsNextEnqueue(log[..i], log[i]);
      }
      GrownLogsAreNumbered(front);
      assert log == front + [log[n]];
      if log[n].Enqueued? {
        assert IsNextEnqueue(log[..n], log[n]);
        EnqueueContinues(front, log[n]);
      } else {
        OtherEventsContinue(front, log[n]);
      }
    }
  }

  // ---- one order ----

  predicate NumbersDiffer(m: Cache) {
    forall a, b :: a in m && b in m && a != b ==> m[a].stateSeq != m[b].stateSeq
  }

  lemma FoldNumbersDiffer(log: seq<BusEvent>)
    requires FreshIds(log) && NumbersIncrease(log)
    ensures NumbersDiffer(Fold(log))
  {
    forall a, b | a in Fold(log) && b in Fold(log) && a != b ensures Fold(log)[a].stateSeq != Fold(log)[b].stateSeq {
      var i := FoldComesFrom(log, a);
      var j := FoldComesFrom(log, b);
    }
  }

  /** With distinct numbers the keys are totally ordered, so the pull order is fixed by the log. */
  lemma {:induction false} OrderIsUnique(m: Cache, s: set<Id>, p: seq<Id>, q: seq<Id>)
    requires NumbersDiffer(m) && IsOrder(m, s, p) && IsOrder(m, s, q)
    ensures p == q
    decreases |p|
  {
    if p == [] {
      assert s == {};
    } else {
      SameHead(m, s, p, q);
      TailOrder(m, s, p);
      TailOrder(m, s, q);
      OrderIsUnique(m, s - {p[0]}, p[1..], q[1..]);
      assert p == [p[0]] + p[1..] && q == [q[0]] + q[1..];
    }
  }

  lemma HeadIsLeast(m: Cache, s: set<Id>, p: seq<Id>, id: Id)
    requires NumbersDiffer(m) && IsOrder(m, s, p) && id in s
    ensures p != [] && (id == p[0] || Recovery.Above(KeyOf(m[id]), KeyOf(m[p[0]])))
  {
    var i :| 0 <= i < |p| && p[i] == id;
    if i > 0 { assert InKeyOrder(m, p[0], p[i]); }
  }

  lemma SameHead(m: Cache, s: set<Id>, p: seq<Id>, q: seq<Id>)
    requires NumbersDiffer(m) && IsOrder(m, s, p) && IsOrder(m, s, q) && p != []
    ensures q != [] && p[0] == q[0]
  {
    HeadIsLeast(m, s, q, p[0]);
    HeadIsLeast(m, s, p, q[0]);
  }

  lemma TailOrder(m: Cache, s: set<Id>, p: seq<Id>)
    requires IsOrder(m, s, p) && p != []
    ensures IsOrder(m, s - {p[0]}, p[1..])
  {
    forall id | id in s - {p[0]} ensures id in p[1..] {
      var i :| 0 <= i < |p| && p[i] == id;
      assert p[1..][i - 1] == id;
    }
  }

  // ---- what reading does ----

  /** Going through a list of different envelopes changes exactly those, each in its own way. */
  lemma {:induction false} ProcessedAt(m: Cache, ids: seq<Id>, readable: set<Id>, mark: Option<string>, id: Id)
    requires id in m && forall i, j :: 0 <= i < j < |ids| ==> ids[i] != ids[j]
    ensures Processed(m, ids, readable, mark).Keys == m.Keys
    ensures id !in ids ==> Processed(m, ids, readable, mark)[id] == m[id]
    ensures id in ids && id !in readable ==> Processed(m, ids, readable, mark)[id] == m[id].(failed := true)
    ensures id in ids && id in readable ==>
      Processed(m, ids, readable, mark)[id] == if mark.Some? && m[id].readBy.None? then m[id].(readBy := mark) else m[id]
  {
    if ids != [] {
      var n := |ids| - 1;
      ProcessedAt(m, ids[..n], readable, mark, id);
      assert ids == ids[..n] + [ids[n]];
      assert forall i :: 0 <= i < n ==> ids[..n][i] == ids[i];
      assert ids[n] !in ids[..n];
    }
  }

  /** After a pull that went through, no unread envelope is left on the channel: the next pull
      delivers only what was enqueued in between. */
  lemma PullEmptiesInbox(m: Cache, channel: Channel, includeRead: bool, order: seq<Id>, readable: set<Id>, who: string)
    requires IsOrder(m, Candidates(m, channel, includeRead), order)
    ensures Candidates(Processed(m, order, readable, Some(who)), channel, false) == {}
  {
    var after := Processed(m, order, readable, Some(who));
    forall id | id in m ensures id in after && id !in Candidates(after, channel, false) {
      ProcessedAt(m, order, readable, Some(who), id);
      if id in order && id in readable { assert after[id].readBy.Some?; }
    }
    if m != map[] {
      var id :| id in m;
      ProcessedAt(m, order, readable, Some(who), id);
    } else {
      ProcessedNothing(order, readable, Some(who));
    }
  }

  lemma {:induction false} ProcessedNothing(ids: seq<Id>, readable: set<Id>, mark: Option<string>)
    ensures Processed(map[], ids, readable, mark) == map[]
  {
    if ids != [] { ProcessedNothing(ids[..|ids| - 1], readable, mark); }
  }

  /** Marking read is idempotent: what is read already keeps its first reader, and nothing is written. */
  lemma {:induction false} MarkedReadAt(m: Cache, ids: seq<Id>, who: string, id: Id)
    requires id in m
    ensures MarkedRead(m, ids, who).Keys == m.Keys
    ensures MarkedRead(m, ids, who)[id] ==
            if id in ids && !m[id].failed && m[id].readBy.None? then m[id].(readBy := Some(who)) else m[id]
  {
    if ids != [] {
      var n := |ids| - 1;
      MarkedReadAt(m, ids[..n], who, id);
      assert ids == ids[..n] + [ids[n]];
    }
  }

  lemma {:induction false} MarkReadIsIdempotent(m: Cache, ids: seq<Id>, more: seq<Id>, who: string, again: string)
    requires forall id :: id in more ==> id in ids && id in m
    ensures MarkedRead(MarkedRead(m, ids, who), more, again) == MarkedRead(m, ids, who)
  {
    if more != [] {
      var n := |more| - 1;
      MarkReadIsIdempotent(m, ids, more[..n], who, again);
      assert more[n] in more;
      MarkedReadAt(m, ids, who, more[n]);
    }
  }
}
