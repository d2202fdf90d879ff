/** Reminding Meta of a worker that has ended (`reconcileWorkerCompletionPending` and `finalizeWorker` in
    `src/host/daemon.ts`): numbered reminders, at most one while Meta stays idle. */
module Reminders {
  import opened Prelude

  /** `pending`: Meta has to decide about an ended worker; `awaiting`: some other wait is on; `known`: the
      end that reminders refer to; `count`: the reminders of this round; `posted`: one was posted and Meta
      was not seen busy since. */
  datatype Cadence = Cadence(pending: bool, awaiting: bool, known: bool, count: nat, posted: bool)

  /** What a tick finds: an instruction that opens the gate, a default continuation, whether Meta is idle,
      and whether the reminder can be enqueued. */
  datatype Look = Look(triggered: bool, continues: bool, idle: bool, ok: bool)

  /** The reminder that a tick tries to post. */
  predicate Reminds(c: Cadence, l: Look) {
    c.pending && !l.triggered && !l.continues && l.idle && !c.posted && c.known
  }

  function Ticked(c: Cadence, l: Look): Cadence {
    if !c.pending && !c.awaiting then c.(posted := false)
    else if l.triggered then c.(pending := false, awaiting := false, count := 0, posted := false)
    else if l.continues then (if l.idle then c.(posted := false) else c)
    else if !c.pending then c
    else if !l.idle then c.(posted := false)
    else if Reminds(c, l) && l.ok then c.(count := c.count + 1, posted := true)
    else c
  }

  /** A new round: the worker has ended, and the first reminder is posted at once. */
  function RoundBegun(c: Cadence, ok: bool): Cadence {
    Cadence(true, c.awaiting, true, if ok then 1 else 0, if ok then true else c.posted)
  }

  class ReminderState {
    var workerCompletionPending: bool
    var otherwiseAwaiting: bool
    var lastEndKnown: bool
    var workerCompletionReminderSeq: nat
    var metaReminderPostedForCurrentIdle: bool

    ghost function View(): Cadence
      reads this
    {
      Cadence(workerCompletionPending, otherwiseAwaiting, lastEndKnown, workerCompletionReminderSeq,
              metaReminderPostedForCurrentIdle)
    }

    /** `continues` says that an interrupt is waiting for its default continuation. A reminder counts only
        when it was enqueued, so a failed one is tried again under the same number. */
    method Reconcile(l: Look) returns (number: Option<nat>)
      modifies this
      ensures View() == Ticked(old(View()), l)
      ensures number == if Reminds(old(View()), l) && l.ok then Some(old(workerCompletionReminderSeq) + 1) else None
    {
      if !workerCompletionPending && !otherwiseAwaiting {
        metaReminderPostedForCurrentIdle := false;
        return None;
      }
      if l.triggered {
        workerCompletionPending := false;
        otherwiseAwaiting := false;
        workerCompletionReminderSeq := 0;
        metaReminderPostedForCurrentIdle := false;
        return None;
      }
      if l.continues {
        if l.idle { metaReminderPostedForCurrentIdle := false; }
        return None;
      }
      if !workerCompletionPending { return None; }
      if !l.idle {
        metaReminderPostedForCurrentIdle := false;
        return None;
      }
      if metaReminderPostedForCurrentIdle { return None; }
      if !lastEndKnown { return None; }
      var candidateSeq := workerCompletionReminderSeq + 1;
      if !l.ok { return None; }
      workerCompletionReminderSeq := candidateSeq;
      metaReminderPostedForCurrentIdle := true;
      return Some(candidateSeq);
    }

    method BeginRound(ok: bool) returns (number: Option<nat>)
      modifies this
      ensures View() == RoundBegun(old(View()), ok)
      ensures number == if ok then Some(1) else None
    {
      workerCompletionPending := true;
      workerCompletionReminderSeq := 0;
      lastEndKnown := true;
      if !ok { return None; }
      workerCompletionReminderSeq := 1;
      metaReminderPostedForCurrentIdle := true;
      return Some(1);
    }
  }

  // ---- one tick ----

  /** Only an instruction ends the round, and with it every other wait. */
  lemma OnlyTriggerEnds(c: Cadence, l: Look)
    ensures Ticked(c, l).pending <==> c.pending && !l.triggered
    ensures l.triggered ==> !Ticked(c, l).pending && !Ticked(c, l).awaiting
  {}

  /** Meta can be reminded again once there was no wait at all, an instruction came, an interrupt was
      continued, or Meta was seen busy. */
  lemma MayRemindAgainIff(c: Cadence, l: Look)
    requires c.posted
    ensures !Ticked(c, l).posted <==>
      || (!c.pending && !c.awaiting) || l.triggered
      || (l.continues && l.idle) || (c.pending && !l.continues && !l.idle)
  {}

  /** So the first reminder of a round that follows an instruction, if it fails, is tried again by the next
      idle tick, under number 1. */
  lemma FirstIsRetried(c: Cadence, l: Look, next: Look)
    requires (c.pending || c.awaiting) && l.triggered
    requires next.idle && !next.triggered && !next.continues
    ensures var begun := RoundBegun(Ticked(c, l), false);
      Reminds(begun, next) && (next.ok ==> Ticked(begun, next).count == 1 && Ticked(begun, next).posted)
  {}

  // ---- over runs ----

  /** `numbers` are the reminders posted in this round; `recent` counts those posted since Meta was last
      seen busy or woken, or a wait was left. */
  datatype World = World(c: Cadence, numbers: seq<nat>, recent: nat)

  datatype Action =
    | Tick(l: Look)
    | WorkerEnds(ok: bool)
    | MetaWoken
    | MetaDecides(awaiting: bool)
    | WaitBegins

  const Begin := World(Cadence(false, false, false, 0, false), [], 0)

  function AfterTick(w: World, l: Look): World {
    var c := Ticked(w.c, l);
    if Reminds(w.c, l) && l.ok then World(c, w.numbers + [c.count], w.recent + 1)
    else World(c, w.numbers, if c.posted then w.recent else 0)
  }

  function Step(w: World, a: Action): World {
    match a
    case Tick(l) => AfterTick(w, l)
    case WorkerEnds(ok) =>
      var c := RoundBegun(w.c, ok);
      World(c, if ok then [1] else [], if ok then 1 else 0)
    case MetaWoken => World(w.c.(posted := false), w.numbers, 0)
    case MetaDecides(awaiting) => w.(c := w.c.(pending := false, awaiting := awaiting, count := 0))
    case WaitBegins => w.(c := w.c.(awaiting := true))
  }

  function Run(w: World, actions: seq<Action>): World {
    if actions == [] then w else Step(Run(w, actions[..|actions| - 1]), actions[|actions| - 1])
  }

  /** 1, 2, 3, ... */
  predicate CountUp(s: seq<nat>) {
    forall i :: 0 <= i < |s| ==> s[i] == i + 1
  }

  predicate Sound(w: World) {
    && CountUp(w.numbers) && (w.c.pending ==> w.c.count == |w.numbers|)
    && w.recent <= 1 && (w.recent == 1 ==> w.c.posted)
  }

  lemma TickKeepsSound(w: World, l: Look)
    requires Sound(w)
    ensures Sound(AfterTick(w, l))
  {
    var c := Ticked(w.c, l);
    if Reminds(w.c, l) && l.ok {
      assert c.count == |w.numbers| + 1 && w.recent == 0;
    }
  }

  /** In every run the reminders of a round are numbered 1, 2, 3 and so on without a gap, failed ones are
      tried again under their number, and no two of them are posted while Meta stays idle. */
  lemma {:induction false} RemindersCountUp(actions: seq<Action>)
    ensures var w := Run(Begin, actions); Sound(w) && CountUp(w.numbers) && w.recent <= 1
  {
    if actions != [] {
      var n := |actions| - 1;
      var w := Run(Begin, actions[..n]);
      RemindersCountUp(actions[..n]);
      match actions[n]
      case Tick(l) => TickKeepsSound(w, l);
      case _ =>
    }
  }

  /** None is lost for good: as long as the decision is pending, the next tick that finds Meta idle after it
      was busy posts the next number. */
  lemma NextIsPosted(actions: seq<Action>, busy: Look, idle: Look)
    requires var w := Run(Begin, actions); w.c.pending && w.c.known
    requires !busy.triggered && !busy.continues && !busy.idle
    requires !idle.triggered && !idle.continues && idle.idle && idle.ok
    ensures var w := Run(Begin, actions); var after := AfterTick(AfterTick(w, busy), idle);
      after.numbers == w.numbers + [|w.numbers| + 1]
  {
    RemindersCountUp(actions);
  }
}
