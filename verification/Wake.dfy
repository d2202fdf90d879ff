/** Waking Meta with the unread envelopes of its inbox (`src/host/main_loop.ts`, `driveMetaWake` in
    `src/host/daemon.ts`). Injecting a message and marking its envelopes read are two steps, and the
    second can fail. */
module Wake {
  import opened Prelude

  type Id = nat

  const MARK_READ_FAIL_THRESHOLD_K := 3

  /** The signals of a failing mark: the first ones name the new envelopes, the last one says that no
      more will follow. */
  datatype Notice = MarkReadFailed(ids: seq<Id>) | Degraded(ids: seq<Id>)

  datatype Cursor = Cursor(lastInject: Option<Id>, unmarked: set<Id>, streak: nat, notified: set<Id>, degraded: bool)

  const NewCursor := Cursor(None, {}, 0, {}, false)

  function IdSet(ids: seq<Id>): set<Id> {
    set id | id in ids
  }

  /** The ids that were not announced yet, in order. */
  function NotYet(ids: seq<Id>, notified: set<Id>): (r: seq<Id>)
    ensures forall id :: id in r <==> id in ids && id !in notified
  {
    if ids == [] then []
    else
      var front := NotYet(ids[..|ids| - 1], notified);
      if ids[|ids| - 1] in notified then front else front + [ids[|ids| - 1]]
  }

  function Succeeded(c: Cursor, latest: Option<Id>, marked: seq<Id>): Cursor {
    Cursor(if latest.Some? then latest else c.lastInject, c.unmarked - IdSet(marked), 0, {}, false)
  }

  function NoticeOf(c: Cursor, ids: seq<Id>): Option<Notice> {
    if c.streak + 1 > MARK_READ_FAIL_THRESHOLD_K then if c.degraded then None else Some(Degraded(ids))
    else if NotYet(ids, c.notified) == [] then None
    else Some(MarkReadFailed(NotYet(ids, c.notified)))
  }

  function FailedToMark(c: Cursor, ids: seq<Id>): Cursor {
    var late := c.streak + 1 > MARK_READ_FAIL_THRESHOLD_K;
    Cursor(c.lastInject, c.unmarked + IdSet(ids), c.streak + 1,
           if late then c.notified else c.notified + IdSet(ids), late || c.degraded)
  }

  class WakeCursor {
    var lastInjectEnvId: Option<Id>
    var injectDoneUnmarked: set<Id>
    var markReadFailStreak: nat
    var notifiedFailedEnvIds: set<Id>
    var degraded: bool

    ghost function View(): Cursor
      reads this
    {
      Cursor(lastInjectEnvId, injectDoneUnmarked, markReadFailStreak, notifiedFailedEnvIds, degraded)
    }

    constructor ()
      ensures View() == NewCursor
    {
      lastInjectEnvId, injectDoneUnmarked, markReadFailStreak := None, {}, 0;
      notifiedFailedEnvIds, degraded := {}, false;
    }

    /** A new long session starts a new life of the cursor. */
    method InitFromLatestRead(latest: Option<Id>)
      modifies this
      ensures View() == NewCursor.(lastInject := latest)
    {
      lastInjectEnvId := latest;
      injectDoneUnmarked := {};
      markReadFailStreak := 0;
      notifiedFailedEnvIds := {};
      degraded := false;
    }

    method OnInjectAndMarkSuccess(latest: Option<Id>, marked: seq<Id>)
      modifies this
      ensures View() == Succeeded(old(View()), latest, marked)
    {
      if latest.Some? { lastInjectEnvId := latest; }
      for i := 0 to |marked|
        invariant lastInjectEnvId == if latest.Some? then latest else old(lastInjectEnvId)
        invariant injectDoneUnmarked == old(injectDoneUnmarked) - IdSet(marked[..i])
      {
        injectDoneUnmarked := injectDoneUnmarked - {marked[i]};
        assert marked[..i + 1] == marked[..i] + [marked[i]];
      }
      assert marked[..|marked|] == marked;
      markReadFailStreak := 0;
      degraded := false;
      notifiedFailedEnvIds := {};
    }

    method OnMarkReadFailure(ids: seq<Id>) returns (notice: Option<Notice>)
      modifies this
      ensures View() == FailedToMark(old(View()), ids)
      ensures notice == NoticeOf(old(View()), ids)
    {
      for i := 0 to |ids|
        invariant unchanged(`lastInjectEnvId, `markReadFailStreak, `notifiedFailedEnvIds, `degraded)
        invariant injectDoneUnmarked == old(injectDoneUnmarked) + IdSet(ids[..i])
      {
        injectDoneUnmarked := injectDoneUnmarked + {ids[i]};
        assert ids[..i + 1] == ids[..i] + [ids[i]];
      }
      assert ids[..|ids|] == ids;
      markReadFailStreak := markReadFailStreak + 1;
      if markReadFailStreak > MARK_READ_FAIL_THRESHOLD_K {
        if !degraded {
          degraded := true;
          return Some(Degraded(ids));
        }
        return None;
      }
      var freshIds := NotYet(ids, notifiedFailedEnvIds);
      assert notifiedFailedEnvIds + IdSet(ids) == notifiedFailedEnvIds + IdSet(freshIds);
      if |freshIds| == 0 {
        assert IdSet(freshIds) == {};
        return None;
      }
      notifiedFailedEnvIds := notifiedFailedEnvIds + IdSet(freshIds);
      return Some(MarkReadFailed(freshIds));
    }
  }

  // ---- delivery ----

  /** One life of a cursor. `known` are all ids that were ever enqueued, `unread` those that a peek
      returns; the rest is the record of what happened: the injected batches, what the host itself
      marked read, and the notices of the current streak of failures. */
  datatype World = World(cursor: Cursor, known: set<Id>, unread: set<Id>,
                         injected: seq<seq<Id>>, hostMarked: set<Id>, notices: seq<Notice>)

  datatype Action =
    | Enqueued(id: Id)
    | ReadByMeta(ids: set<Id>)
    | Woken(batch: seq<Id>, delivered: bool, marked: bool, partly: set<Id>)

  /** The envelopes that a wake may inject, each once. */
  predicate IsBatch(w: World, batch: seq<Id>) {
    && batch != [] && IdSet(batch) == w.unread - w.cursor.unmarked
    && forall i, j :: 0 <= i < j < |batch| ==> batch[i] != batch[j]
  }

  /** `delivered`: the inject was acknowledged; `marked`: marking the whole batch succeeded, otherwise
      only `partly` got marked. */
  function Step(w: World, a: Action): World {
    match a
    case Enqueued(id) => if id in w.known then w else w.(known := w.known + {id}, unread := w.unread + {id})
    case ReadByMeta(ids) => w.(unread := w.unread - ids)
    case Woken(batch, delivered, marked, partly) =>
      if !IsBatch(w, batch) || !delivered then w
      else if marked then
        World(Succeeded(w.cursor, Some(batch[|batch| - 1]), batch), w.known, w.unread - IdSet(batch),
              w.injected + [batch], w.hostMarked + IdSet(batch), [])
      else
        var done := IdSet(batch) * partly;
        var notice := NoticeOf(w.cursor, batch);
        World(FailedToMark(w.cursor, batch), w.known, w.unread - done, w.injected + [batch], w.hostMarked + done,
              if notice.Some? then w.notices + [notice.value] else w.notices)
  }

  function Run(w: World, actions: seq<Action>): World {
    if actions == [] then w else Step(Run(w, actions[..|actions| - 1]), actions[|actions| - 1])
  }

  /** A life begins with whatever is in the inbox. */
  function Begin(known: set<Id>, unread: set<Id>, latest: Option<Id>): World {
    World(NewCursor.(lastInject := latest), known, unread, [], {}, [])
  }

  predicate WasInjected(w: World, id: Id) {
    exists k :: 0 <= k < |w.injected| && id in w.injected[k]
  }

  /** No envelope is in two batches. */
  predicate InjectedOnce(injected: seq<seq<Id>>) {
    forall j, k :: 0 <= j < k < |injected| ==> Apart(injected[j], injected[k])
  }

  predicate Apart(a: seq<Id>, b: seq<Id>) {
    forall id :: id in a ==> id !in b
  }

  /** The notices of one streak: at most one for each failure up to the threshold, about different
      envelopes, and at most one more at the end. */
  predicate NoticesBounded(w: World) {
    && |w.notices| <= w.cursor.streak && |w.notices| <= MARK_READ_FAIL_THRESHOLD_K + (if w.cursor.degraded then 1 else 0)
    && (w.cursor.streak <= MARK_READ_FAIL_THRESHOLD_K ==> !w.cursor.degraded)
    && (w.cursor.streak > MARK_READ_FAIL_THRESHOLD_K ==> w.cursor.degraded)
    && (forall k :: 0 <= k < |w.notices| && w.notices[k].MarkReadFailed? ==>
          forall id :: id in w.notices[k].ids ==> id in w.cursor.notified)
    && (forall j, k :: 0 <= j < k < |w.notices| ==> NoticesApart(w.notices[j], w.notices[k]))
  }

  predicate NoticesApart(a: Notice, b: Notice) {
    a.MarkReadFailed? && b.MarkReadFailed? ==> Apart(a.ids, b.ids)
  }

  predicate Sound(w: World) {
    && w.unread <= w.known
    && (forall k :: 0 <= k < |w.injected| ==> IdSet(w.injected[k]) <= w.known)
    && (forall k :: 0 <= k < |w.injected| ==> IdSet(w.injected[k]) * w.unread <= w.cursor.unmarked)
    && InjectedOnce(w.injected)
    && (forall id :: id in w.hostMarked ==> WasInjected(w, id))
    && NoticesBounded(w)
  }

  lemma NewBatchIsApart(w: World, batch: seq<Id>)
    requires Sound(w) && IsBatch(w, batch)
    ensures InjectedOnce(w.injected + [batch])
    ensures forall id :: id in batch ==> id in w.unread
  {
    forall id | id in batch ensures id in w.unread && id !in w.cursor.unmarked { assert id in IdSet(batch); }
    forall j | 0 <= j < |w.injected| ensures Apart(w.injected[j], batch) {
      forall id | id in w.injected[j] ensures id !in batch {
        assert id in IdSet(w.injected[j]);
      }
    }
  }

  lemma StillInjected(w: World, batch: seq<Id>, id: Id)
    ensures WasInjected(w, id) || id in batch ==> WasInjected(w.(injected := w.injected + [batch]), id)
  {
    var after := w.injected + [batch];
    if WasInjected(w, id) {
      var k :| 0 <= k < |w.injected| && id in w.injected[k];
      assert after[k] == w.injected[k];
    } else if id in batch {
      assert after[|w.injected|] == batch;
    }
  }

  lemma NoticeAdded(w: World, batch: seq<Id>)
    requires NoticesBounded(w)
    ensures var notice := NoticeOf(w.cursor, batch);
      NoticesBounded(w.(cursor := FailedToMark(w.cursor, batch),
                        notices := if notice.Some? then w.notices + [notice.value] else w.notices))
  {
    var notice := NoticeOf(w.cursor, batch);
    if notice.Some? && notice.value.MarkReadFailed? {
      forall k | 0 <= k < |w.notices| ensures NoticesApart(w.notices[k], notice.value) {}
      forall id | id in notice.value.ids ensures id in IdSet(batch) {}
    }
  }

  lemma WokenKeepsInjected(w: World, batch: seq<Id>, marked: bool, partly: set<Id>)
    requires Sound(w) && IsBatch(w, batch)
    ensures var after := Step(w, Woken(batch, true, marked, partly));
      && after.unread <= after.known
      && (forall k :: 0 <= k < |after.injected| ==> IdSet(after.injected[k]) <= after.known)
      && (forall k :: 0 <= k < |after.injected| ==> IdSet(after.injected[k]) * after.unread <= after.cursor.unmarked)
  {
    NewBatchIsApart(w, batch);
    forall k | 0 <= k < |w.injected| ensures IdSet(w.injected[k]) * IdSet(batch) == {} {
      var all := w.injected + [batch];
      assert Apart(all[k], all[|w.injected|]);
    }
  }

  lemma WokenKeepsSound(w: World, batch: seq<Id>, marked: bool, partly: set<Id>)
    requires Sound(w) && IsBatch(w, batch)
    ensures Sound(Step(w, Woken(batch, true, marked, partly)))
  {
    var after := Step(w, Woken(batch, true, marked, partly));
    NewBatchIsApart(w, batch);
    WokenKeepsInjected(w, batch, marked, partly);
    NoticeAdded(w, batch);
    forall id | id in after.hostMarked ensures WasInjected(after, id) {
      StillInjected(w, batch, id);
      assert after.injected == w.injected + [batch];
      assert WasInjected(w, id) || id in batch;
    }
  }

  lemma StepKeepsSound(w: World, a: Action)
    requires Sound(w)
    ensures Sound(Step(w, a))
  {
    match a
    case Woken(batch, delivered, marked, partly) =>
      if IsBatch(w, batch) && delivered { WokenKeepsSound(w, batch, marked, partly); }
    case _ =>
      var after := Step(w, a);
      forall id | id in after.hostMarked ensures WasInjected(after, id) { assert WasInjected(w, id); }
  }

  /** If an acknowledged inject was delivered and an unacknowledged one was not, then in one life of
      the cursor no envelope is injected twice, the host marks read only what it has injected, and an
      unbroken streak of failures raises at most one notice more than the threshold, the first of
      them about pairwise different envelopes. */
  lemma {:induction false} WakeDeliversOnce(known: set<Id>, unread: set<Id>, latest: Option<Id>, actions: seq<Action>)
    requires unread <= known
    ensures var w := Run(Begin(known, unread, latest), actions);
      && Sound(w)
      && InjectedOnce(w.injected)
      && (forall id :: id in w.hostMarked ==> WasInjected(w, id))
      && |w.notices| <= MARK_READ_FAIL_THRESHOLD_K + 1
      && (forall j, k :: 0 <= j < k < |w.notices| ==> NoticesApart(w.notices[j], w.notices[k]))
  {
    if actions != [] {
      var n := |actions| - 1;
      WakeDeliversOnce(known, unread, latest, actions[..n]);
      StepKeepsSound(Run(Begin(known, unread, latest), actions[..n]), actions[n]);
    }
  }

  // ---- the notices of a streak ----

  /** The cursor after so many failures in a row to mark a batch. */
  function AfterFailures(batches: seq<seq<Id>>): Cursor {
    if batches == [] then NewCursor
    else FailedToMark(AfterFailures(batches[..|batches| - 1]), batches[|batches| - 1])
  }

  predicate InSome(batches: seq<seq<Id>>, id: Id) {
    exists i :: 0 <= i < |batches| && id in batches[i]
  }

  /** Up to the third failure the ids are named, from the fourth on nothing more is. */
  lemma {:induction false} FailuresAddUp(batches: seq<seq<Id>>)
    ensures var c := AfterFailures(batches);
      && c.streak == |batches| && (c.degraded <==> |batches| > 3) && c.lastInject.None?
      && (forall id :: id in c.unmarked <==> InSome(batches, id))
      && (forall id :: id in c.notified <==> InSome(if |batches| > 3 then batches[..3] else batches, id))
  {
    if batches != [] {
      var n := |batches| - 1;
      FailuresAddUp(batches[..n]);
      InSomeSnoc(batches[..n], batches[n]);
      assert batches == batches[..n] + [batches[n]];
      if n >= 3 {
        assert batches[..n][..3] == batches[..3];
        if n == 3 { assert batches[..n] == batches[..3]; }
      }
    }
  }

  lemma InSomeSnoc(batches: seq<seq<Id>>, batch: seq<Id>)
    ensures forall id :: InSome(batches + [batch], id) <==> InSome(batches, id) || id in batch
  {
    forall id ensures InSome(batches + [batch], id) <==> InSome(batches, id) || id in batch {
      var all := batches + [batch];
      if InSome(batches, id) {
        var i :| 0 <= i < |batches| && id in batches[i];
        assert id in all[i];
      }
      if id in batch { assert id in all[|batches|]; }
    }
  }

  /** An early failure names the ids that no failure of the streak had, if any. */
  lemma EarlyNotice(batches: seq<seq<Id>>, ids: seq<Id>)
    requires |batches| < 3
    ensures var notice := NoticeOf(AfterFailures(batches), ids);
      && (notice.None? ==> forall id :: id in ids ==> InSome(batches, id))
      && (notice.Some? ==> notice.value.MarkReadFailed? && notice.value.ids != [] && NamesNew(batches, ids, notice.value.ids))
  {
    FailuresAddUp(batches);
    var c := AfterFailures(batches);
    assert NoticeOf(c, ids) == if NotYet(ids, c.notified) == [] then None else Some(MarkReadFailed(NotYet(ids, c.notified)));
    forall id ensures id in NotYet(ids, c.notified) <==> id in ids && !InSome(batches, id) {}
  }

  ghost predicate NamesNew(batches: seq<seq<Id>>, ids: seq<Id>, named: seq<Id>) {
    forall id :: id in named <==> id in ids && !InSome(batches, id)
  }

  /** The fourth failure raises the last notice, and later ones none. */
  lemma LateNotice(batches: seq<seq<Id>>, ids: seq<Id>)
    requires |batches| >= 3
    ensures NoticeOf(AfterFailures(batches), ids) == if |batches| == 3 then Some(Degraded(ids)) else None
  {
    FailuresAddUp(batches);
  }

  /** A success makes an end of the streak. */
  lemma SuccessEndsStreak(c: Cursor, latest: Option<Id>, marked: seq<Id>, ids: seq<Id>)
    requires ids != []
    ensures var after := Succeeded(c, latest, marked);
      && (forall id :: id in after.unmarked <==> id in c.unmarked && id !in marked)
      && (latest.Some? ==> after.lastInject == latest)
      && NoticeOf(after, ids).Some? && NoticeOf(after, ids).value.MarkReadFailed?
      && forall id :: id in NoticeOf(after, ids).value.ids <==> id in ids
  {
    assert ids[0] in NotYet(ids, {});
  }
}
