/** What the stage history of a task says about its final review, and about pauses and resumes. */
module StageHistory {
  import opened Prelude
  import opened Stages

  // ---- edges of the history ----

  /** The gate of the final review looks at these edges. */
  predicate IsGated(from: Stage, to: Stage) {
    from.Running? && (to.AwaitingUser? || to.Done?)
  }

  /** What is known of two stages that follow each other. */
  predicate EdgeSound(from: Stage, to: Stage, reviewSeen: bool) {
    && !IsTerminal(from)
    && (from.Running? ==> !to.Submitted?)
    && (IsGated(from, to) ==> reviewSeen)
  }

  predicate EdgesSound(t: Task) {
    var h := t.manifest.history;
    && (forall i :: 0 <= i < |h| - 1 ==> EdgeSound(h[i], h[i + 1], t.reviewSeen))
    && (t.manifest.stage.Paused? ==> |h| >= 2 && t.manifest.pausedFrom == Some(h[|h| - 2]))
  }

  predicate WriterSound(w: Writer, reviewSeen: bool) {
    w.Writing? ==>
      && EdgeSound(w.expected, w.target, reviewSeen)
      && (w.target.Paused? ==> w.pausedFrom == Some(w.expected))
  }

  predicate HistorySound(t: Task) {
    && Sound(t) && EdgesSound(t)
    && (t.reviewNow ==> t.reviewSeen)
    && (forall i :: 0 <= i < |t.writers| ==> WriterSound(t.writers[i], t.reviewSeen))
  }

  lemma WriteKeepsEdges(t: Task, i: nat)
    requires HistorySound(t)
    ensures EdgesSound(Step(t, Writes(i)))
  {
    var after := Step(t, Writes(i));
    if after.manifest != t.manifest {
      var h, g := t.manifest.history, after.manifest.history;
      assert WriterSound(t.writers[i], t.reviewSeen);
      forall k | 0 <= k < |g| - 1 ensures EdgeSound(g[k], g[k + 1], after.reviewSeen) {
        if k < |h| - 1 { assert EdgeSound(h[k], h[k + 1], t.reviewSeen); }
      }
    }
  }

  lemma StepKeepsEdges(t: Task, a: Action)
    requires HistorySound(t)
    ensures EdgesSound(Step(t, a))
  {
    if a.Writes? {
      WriteKeepsEdges(t, a.i);
    } else {
      var h := t.manifest.history;
      forall k | 0 <= k < |h| - 1 ensures EdgeSound(h[k], h[k + 1], Step(t, a).reviewSeen) {
        assert EdgeSound(h[k], h[k + 1], t.reviewSeen);
      }
    }
  }

  /** The writer that a load creates, if any. */
  lemma NewWriterSound(t: Task, a: Action)
    requires HistorySound(t) && |Step(t, a).writers| > |t.writers|
    ensures WriterSound(Step(t, a).writers[|t.writers|], t.reviewSeen)
  {
    match a
    case PauseLoads =>
    case ResumeLoads =>
    case DoneLoads =>
    case CancelLoads =>
    case AdvanceLoads(_) =>
    case HostSeesSubmitted =>
    case HostGivesUp =>
  }

  lemma AnsweredWriterSound(t: Task, i: nat)
    requires HistorySound(t) && i < |t.writers| && t.writers[i].AtGate?
    ensures WriterSound(Step(t, GateAnswers(i)).writers[i], t.reviewSeen)
  {}

  lemma StepKeepsWriterSound(t: Task, a: Action, k: nat)
    requires HistorySound(t) && k < |Step(t, a).writers|
    ensures WriterSound(Step(t, a).writers[k], Step(t, a).reviewSeen)
  {
    if k >= |t.writers| {
      NewWriterSound(t, a);
    } else {
      assert WriterSound(t.writers[k], t.reviewSeen);
      if a.GateAnswers? && a.i == k && t.writers[k].AtGate? { AnsweredWriterSound(t, k); }
    }
  }

  lemma StepKeepsHistory(t: Task, a: Action)
    requires HistorySound(t)
    ensures HistorySound(Step(t, a))
  {
    StepKeepsManifest(t, a);
    StepKeepsReviewed(t, a);
    StepKeepsWriters(t, a);
    StepKeepsEdges(t, a);
    forall k | 0 <= k < |Step(t, a).writers| ensures WriterSound(Step(t, a).writers[k], Step(t, a).reviewSeen) {
      StepKeepsWriterSound(t, a, k);
    }
  }

  lemma {:induction false} RunKeepsHistory(t: Task, actions: seq<Action>)
    requires HistorySound(t)
    ensures HistorySound(Run(t, actions))
  {
    if actions != [] {
      var n := |actions| - 1;
      RunKeepsHistory(t, actions[..n]);
      StepKeepsHistory(Run(t, actions[..n]), actions[n]);
    }
  }

  // ---- the final review ----

  /** In every run, with all writers interleaved: a task went from running directly to done, or to
      waiting for the user, only if the final review query has passed. */
  lemma FinalReviewGuardsDirectEdges(actions: seq<Action>, i: nat)
    requires var h := Run(Start, actions).manifest.history; i + 1 < |h| && IsGated(h[i], h[i + 1])
    ensures Run(Start, actions).reviewSeen
  {
    RunKeepsHistory(Start, actions);
    var t := Run(Start, actions);
    assert EdgeSound(t.manifest.history[i], t.manifest.history[i + 1], t.reviewSeen);
  }

  /** Running is left for a stage from which the gate does not look: backwards, or by a resume that
      does not return to running. */
  predicate IsDetour(h: seq<Stage>, i: nat) {
    && i + 2 < |h| && h[i].Running?
    && (h[i + 1].Clarifying? || h[i + 1].Bootstrapping? || (h[i + 1].Paused? && !h[i + 2].Running?))
  }

  lemma LastRunning(h: seq<Stage>, j: nat, k: nat) returns (i: nat)
    requires j < k < |h| && h[j].Running? && !h[k].Running?
    ensures j <= i < k && h[i].Running? && forall l :: i < l <= k ==> !h[l].Running?
    decreases k - j
  {
    if l :| j < l < k && h[l].Running? { i := LastRunning(h, l, k); } else { i := j; }
  }

  /** In every run: if a task that was running is later done, or waits for the user, and the final
      review query has never passed, then it took a detour in between. */
  lemma {:induction false} UnreviewedTookDetour(actions: seq<Action>, j: nat, k: nat)
    requires var h := Run(Start, actions).manifest.history;
      j < k < |h| && h[j].Running? && (h[k].AwaitingUser? || h[k].Done?)
    requires !Run(Start, actions).reviewSeen
    ensures var h := Run(Start, actions).manifest.history; exists i :: j <= i < k && IsDetour(h, i)
  {
    RunKeepsHistory(Start, actions);
    var t := Run(Start, actions);
    var h := t.manifest.history;
    var i := LastRunning(h, j, k);
    LeftUnreviewed(t, i, k);
  }

  lemma LeftUnreviewed(t: Task, i: nat, k: nat)
    requires EdgesSound(t) && !t.reviewSeen
    requires var h := t.manifest.history;
      i < k < |h| && h[i].Running? && (h[k].AwaitingUser? || h[k].Done?) && forall l :: i < l <= k ==> !h[l].Running?
    ensures IsDetour(t.manifest.history, i)
  {
    var h := t.manifest.history;
    assert EdgeSound(h[i], h[i + 1], false);
    assert i + 1 < k;
    assert EdgeSound(h[i + 1], h[i + 2], false);
  }

  // ---- and every detour can be taken ----

  /** The task, and nothing else, has changed; `more` are the stages it went through. */
  predicate WentOn(t: Task, after: Task, more: seq<Stage>) {
    && HistorySound(after) && after.manifest.history == t.manifest.history + more
    && after.reviewNow == t.reviewNow && after.reviewSeen == t.reviewSeen
    && after.verdictNow == t.verdictNow && after.verdictSeen == t.verdictSeen
  }

  lemma {:induction false} RunConcat(t: Task, a: seq<Action>, b: seq<Action>)
    ensures Run(t, a + b) == Run(Run(t, a), b)
  {
    if b == [] {
      assert a + b == a;
    } else {
      var n := |b| - 1;
      RunConcat(t, a, b[..n]);
      assert (a + b)[..|a + b| - 1] == a + b[..n];
    }
  }

  lemma RunOne(t: Task, a: Action)
    ensures Run(t, [a]) == Step(t, a)
  {
    assert [a][..0] == [];
  }

  /** No answer of a gate changes. */
  predicate LeavesGates(actions: seq<Action>) {
    forall k :: 0 <= k < |actions| ==> !actions[k].BusChanges?
  }

  lemma Then(t: Task, soFar: seq<Action>, now: Task, a: Action) returns (actions: seq<Action>)
    requires now == Run(t, soFar) && LeavesGates(soFar) && !a.BusChanges?
    ensures Run(t, actions) == Step(now, a) && LeavesGates(actions)
  {
    actions := soFar + [a];
    RunConcat(t, soFar, [a]);
    RunOne(now, a);
  }

  /** A writer that finds the stage it expects changes it. */
  lemma WriteGoes(t: Task, i: nat)
    requires HistorySound(t) && i < |t.writers| && t.writers[i].Writing? && t.writers[i].expected == t.manifest.stage
    ensures var after := Step(t, Writes(i));
      WentOn(t, after, [t.writers[i].target]) && after.manifest.stage == t.writers[i].target
  {
    StepKeepsHistory(t, Writes(i));
  }

  /** A load adds at most a writer. */
  lemma LoadAdds(t: Task, load: Action)
    requires |Step(t, load).writers| > |t.writers|
    ensures Step(t, load) == t.(writers := Step(t, load).writers) && t.writers <= Step(t, load).writers
  {
    match load
    case PauseLoads =>
    case ResumeLoads =>
    case DoneLoads =>
    case CancelLoads =>
    case AdvanceLoads(_) =>
    case HostSeesSubmitted =>
    case HostGivesUp =>
  }

  /** A load and the write that follows it. */
  lemma LoadGoes(t: Task, load: Action) returns (actions: seq<Action>, after: Task)
    requires HistorySound(t)
    requires var w := Step(t, load).writers;
      |w| > |t.writers| && w[|t.writers|].Writing? && w[|t.writers|].expected == t.manifest.stage
    ensures LeavesGates(actions) && after == Run(t, actions) && after.manifest.stage == Step(t, load).writers[|t.writers|].target
    ensures WentOn(t, after, [after.manifest.stage])
    ensures |after.writers| > |t.writers| && forall k :: 0 <= k < |t.writers| ==> after.writers[k] == t.writers[k]
  {
    var loaded, i := Step(t, load), |t.writers|;
    LoadAdds(t, load);
    StepKeepsHistory(t, load);
    after := LoadedGoes(t, loaded);
    RunOne(t, load);
    actions := Then(t, [load], loaded, Writes(i));
  }

  lemma LoadedGoes(t: Task, loaded: Task) returns (after: Task)
    requires HistorySound(loaded) && loaded == t.(writers := loaded.writers) && t.writers <= loaded.writers
    requires |loaded.writers| > |t.writers| && loaded.writers[|t.writers|].Writing?
    requires loaded.writers[|t.writers|].expected == t.manifest.stage
    ensures after == Step(loaded, Writes(|t.writers|))
    ensures after.manifest.stage == loaded.writers[|t.writers|].target && WentOn(t, after, [after.manifest.stage])
    ensures |after.writers| > |t.writers| && forall k :: 0 <= k < |t.writers| ==> after.writers[k] == t.writers[k]
  {
    WriteGoes(loaded, |t.writers|);
    after := Step(loaded, Writes(|t.writers|));
    assert |after.writers| == |loaded.writers|;
    assert forall k :: 0 <= k < |t.writers| ==> loaded.writers[k] == t.writers[k];
  }

  /** An advance by Meta that the table and the gate allow. */
  lemma AdvanceGoes(t: Task, to: Stage) returns (actions: seq<Action>, after: Task)
    requires HistorySound(t) && CheckTransitionAllowed(t.manifest.stage, to, MetaTool)
    requires GatePasses(t, t.manifest.stage, to)
    ensures LeavesGates(actions) && after == Run(t, actions) && after.manifest.stage == to && WentOn(t, after, [to])
  {
    var i := |t.writers|;
    var asked := Step(t, AdvanceLoads(to));
    StepKeepsHistory(t, AdvanceLoads(to));
    assert asked.writers[i] == AtGate(t.manifest.stage, to);
    var passed := Step(asked, GateAnswers(i));
    StepKeepsHistory(asked, GateAnswers(i));
    assert passed.writers[i] == Writing(StageAdvance, to, None, t.manifest.stage);
    WriteGoes(passed, i);
    after := Step(passed, Writes(i));
    RunOne(t, AdvanceLoads(to));
    actions := Then(t, [AdvanceLoads(to)], asked, GateAnswers(i));
    actions := Then(t, actions, passed, Writes(i));
  }

  /** From clarifying and bootstrapping no gate is on the way to done. */
  lemma EarlyStageFinishes(t: Task) returns (actions: seq<Action>, after: Task)
    requires HistorySound(t) && (t.manifest.stage.Clarifying? || t.manifest.stage.Bootstrapping?)
    ensures LeavesGates(actions) && after == Run(t, actions) && after.manifest.stage.Done? && WentOn(t, after, [AwaitingUser, Done])
  {
    var first, waiting := AdvanceGoes(t, AwaitingUser);
    var second;
    second, after := AdvanceGoes(waiting, Done);
    actions := first + second;
    RunConcat(t, first, second);
  }

  /** Every detour backwards ends a running task without a review, whatever else is under way. */
  lemma DetourSkipsFinalReview(t: Task, back: Stage) returns (actions: seq<Action>, after: Task)
    requires HistorySound(t) && t.manifest.stage.Running? && (back.Clarifying? || back.Bootstrapping?)
    ensures LeavesGates(actions) && after == Run(t, actions) && after.manifest.stage.Done? && WentOn(t, after, [back, AwaitingUser, Done])
  {
    var first, left := AdvanceGoes(t, back);
    var second;
    second, after := EarlyStageFinishes(left);
    actions := first + second;
    RunConcat(t, first, second);
  }

  /** The third detour: a resume that was loaded in an earlier pause takes a task that is paused from
      running somewhere else. */
  lemma StaleResumeSkipsFinalReview(t: Task, i: nat) returns (actions: seq<Action>, after: Task)
    requires HistorySound(t) && t.manifest.stage.Running? && i < |t.writers|
    requires t.writers[i].Writing? && t.writers[i].origin.ResumeCommand? && t.writers[i].expected.Paused?
    requires t.writers[i].target.Clarifying? || t.writers[i].target.Bootstrapping?
    ensures LeavesGates(actions) && after == Run(t, actions) && after.manifest.stage.Done?
    ensures WentOn(t, after, [Paused, t.writers[i].target, AwaitingUser, Done])
  {
    var first, paused := LoadGoes(t, PauseLoads);
    WriteGoes(paused, i);
    var resumed := Step(paused, Writes(i));
    actions := Then(t, first, paused, Writes(i));
    var last;
    last, after := EarlyStageFinishes(resumed);
    RunConcat(t, actions, last);
    actions := actions + last;
  }

  /** Some way of going on, in which no gate's answer changes, finishes the task. */
  ghost predicate CanFinish(t: Task) {
    exists actions: seq<Action> :: LeavesGates(actions) && Run(t, actions).manifest.stage.Done?
  }

  lemma InProgressFinishes(t: Task) returns (actions: seq<Action>)
    requires HistorySound(t) && IsInProgress(t.manifest.stage)
    ensures LeavesGates(actions) && Run(t, actions).manifest.stage.Done?
  {
    var after;
    match t.manifest.stage
    case Submitted =>
      var first, clarifying := LoadGoes(t, HostSeesSubmitted);
      var second;
      second, after := EarlyStageFinishes(clarifying);
      RunConcat(t, first, second);
      actions := first + second;
    case Running => actions, after := DetourSkipsFinalReview(t, Clarifying);
    case AwaitingUser => actions, after := AdvanceGoes(t, Done);
    case _ => actions, after := EarlyStageFinishes(t);
  }

  /** The review is never certain: exactly as long as a task has not failed or been cancelled it can
      be finished without one. */
  lemma UnreviewedEndIff(earlier: seq<Action>)
    ensures var t := Run(Start, earlier);
      CanFinish(t) <==> !t.manifest.stage.Failed? && !t.manifest.stage.Cancelled?
  {
    var t := Run(Start, earlier);
    RunKeepsHistory(Start, earlier);
    if IsInProgress(t.manifest.stage) {
      var actions := InProgressFinishes(t);
      assert CanFinish(t);
    } else if t.manifest.stage.Paused? {
      var first, resumed := LoadGoes(t, ResumeLoads);
      var second := InProgressFinishes(resumed);
      RunConcat(t, first, second);
      assert CanFinish(t);
    } else if t.manifest.stage.Done? {
      assert LeavesGates([]) && Run(t, []) == t;
      assert CanFinish(t);
    } else {
      EndedNeverFinishes(t);
    }
  }

  lemma EndedNeverFinishes(t: Task)
    requires Sound(t) && IsTerminal(t.manifest.stage) && !t.manifest.stage.Done?
    ensures !CanFinish(t)
  {
    if actions: seq<Action> :| LeavesGates(actions) && Run(t, actions).manifest.stage.Done? {
      TerminalIsAbsorbing(t, actions);
    }
  }

  // ---- pause and resume ----

  /** A load that is left alone stays as it is, whatever the other writers do meanwhile. */
  lemma {:induction false} WriterWaits(t: Task, i: nat, actions: seq<Action>)
    requires i < |t.writers| && t.writers[i].Writing?
    requires forall k :: 0 <= k < |actions| ==> actions[k] != Writes(i)
    ensures i < |Run(t, actions).writers| && Run(t, actions).writers[i] == t.writers[i]
    ensures t.manifest.history <= Run(t, actions).manifest.history
  {
    if actions != [] {
      var n := |actions| - 1;
      WriterWaits(t, i, actions[..n]);
      WriterWaitsOne(Run(t, actions[..n]), i, actions[n]);
    }
  }

  lemma WriterWaitsOne(t: Task, i: nat, a: Action)
    requires i < |t.writers| && t.writers[i].Writing? && a != Writes(i)
    ensures i < |Step(t, a).writers| && Step(t, a).writers[i] == t.writers[i]
    ensures t.manifest.history <= Step(t, a).manifest.history
  {
    match a
    case PauseLoads =>
    case ResumeLoads =>
    case DoneLoads =>
    case CancelLoads =>
    case AdvanceLoads(_) =>
    case GateAnswers(_) =>
    case HostSeesSubmitted =>
    case HostGivesUp =>
    case Writes(_) =>
    case BusChanges(_, _) =>
  }

  /** The stage that the pause at the end of a history interrupted. */
  function Interrupted(h: seq<Stage>): Stage
    requires |h| >= 2
  {
    h[|h| - 2]
  }

  /** A paused task that has been loaded for a resume, just before the resume is written. `t` is the
      task at the load; any writers may have come in between. */
  ghost predicate ResumePending(earlier: seq<Action>, between: seq<Action>, t: Task, now: Task) {
    && t == Run(Start, earlier) && t.manifest.stage.Paused?
    && (forall k :: 0 <= k < |between| ==> between[k] != Writes(|t.writers|))
    && now == Run(Step(t, ResumeLoads), between)
  }

  /** Exactly when a resume restores the stage that the last pause interrupted: the write succeeds if
      the task is still, or again, paused; it restores that stage if and only if the last pause
      interrupted the same stage as the one that was loaded. If nothing was written in between, it did. */
  lemma {:induction false} ResumeRestoresIff(earlier: seq<Action>, between: seq<Action>, t: Task, now: Task)
    requires ResumePending(earlier, between, t, now)
    ensures var h, after := now.manifest.history, Step(now, Writes(|t.writers|)).manifest;
      && t.manifest.history <= h && |t.manifest.history| >= 2
      && (!now.manifest.stage.Paused? ==> after == now.manifest)
      && (now.manifest.stage.Paused? ==> now.manifest.pausedFrom == Some(Interrupted(h)))
      && (now.manifest.stage.Paused? ==>
            (after.stage == Interrupted(h) <==> Interrupted(h) == Interrupted(t.manifest.history)))
      && (h == t.manifest.history ==> after.stage == Interrupted(h))
  {
    PendingIsSound(earlier, between, t, now);
    ResumeWrites(now, |t.writers|);
  }

  lemma PendingIsSound(earlier: seq<Action>, between: seq<Action>, t: Task, now: Task)
    requires ResumePending(earlier, between, t, now)
    ensures HistorySound(t) && HistorySound(now) && t.manifest.history <= now.manifest.history
    ensures t.manifest.pausedFrom.Some? && |t.writers| < |now.writers|
    ensures now.writers[|t.writers|] == Writing(ResumeCommand, t.manifest.pausedFrom.value, None, Paused)
  {
    var i, loaded := |t.writers|, Step(t, ResumeLoads);
    RunKeepsHistory(Start, earlier);
    StepKeepsHistory(t, ResumeLoads);
    RunKeepsHistory(loaded, between);
    assert loaded.writers[i] == Writing(ResumeCommand, t.manifest.pausedFrom.value, None, Paused);
    WriterWaits(loaded, i, between);
  }

  lemma ResumeWrites(now: Task, i: nat)
    requires HistorySound(now) && i < |now.writers| && now.writers[i].Writing?
    requires now.writers[i].expected.Paused? && !now.writers[i].target.Paused?
    ensures var after := Step(now, Writes(i)).manifest;
      && (now.manifest.stage.Paused? ==> after.stage == now.writers[i].target)
      && (!now.manifest.stage.Paused? ==> after == now.manifest)
  {}
}
