/** Meta's stage tool: the transition table, the review gates over the bus, and the compare-and-swap
    on the manifest (`handleStageAdvance` in `src/host/stage_machine.ts`). */
module StageMachine {
  import opened Prelude
  import opened Bus
  import opened Gates
  import opened Stages
  import opened StageTable

  datatype AdvanceResult = Advanced | IllegalState | ReviewerRequired | ConcurrentConflict

  /** The reviews that a transition needs, as a statement about the bus: a bootstrap review before running,
      and from running on to the end a final review after every claim. */
  ghost predicate ReviewHeld(bus: Option<Cache>, payloads: Payloads, from: Stage, to: Stage) {
    && (to.Running? && !from.Running? ==> bus.Some? && HasVerdict(bus.value, payloads, "bootstrap_self_review"))
    && (from.Running? && to in {AwaitingUser, Done} ==> bus.Some? && FinalReviewDone(bus.value, payloads))
  }

  method CheckStageGate(bus: Option<Cache>, payloads: Payloads, from: Stage, to: Stage) returns (passed: bool)
    ensures passed <==> ReviewHeld(bus, payloads, from, to)
  {
    if to.Running? && !from.Running? {
      passed := CheckBootstrapGate(bus, payloads);
    } else if from.Running? && (to.AwaitingUser? || to.Done?) {
      passed := CheckFinalReviewGate(bus, payloads);
    } else {
      passed := true;
    }
  }

  /** `loaded` is the stage that the load saw; the file may have moved on since. The stage advances
      exactly if the table allows it, the review was held, and nobody else wrote in between. */
  method HandleStageAdvance(file: ManifestFile, loaded: Stage, bus: Option<Cache>, payloads: Payloads, to: Stage)
    returns (r: AdvanceResult)
    modifies file
    ensures r.IllegalState? <==> !MetaMay(loaded, to)
    ensures r.ReviewerRequired? <==> MetaMay(loaded, to) && !ReviewHeld(bus, payloads, loaded, to)
    ensures r.Advanced? <==> MetaMay(loaded, to) && ReviewHeld(bus, payloads, loaded, to) && old(file.stage) == loaded
    ensures r.Advanced? ==> file.stage == to && file.pausedFrom.None? && file.history == old(file.history) + [to]
    ensures !r.Advanced? ==> file.View() == old(file.View())
  {
    TableForMeta(loaded, to);
    if !CheckTransitionAllowed(loaded, to, MetaTool) { return IllegalState; }
    var passed := CheckStageGate(bus, payloads, loaded, to);
    if !passed { return ReviewerRequired; }
    var written := file.ApplyStageTransition(to, None, loaded);
    return if written.Applied? then Advanced else ConcurrentConflict;
  }

  // ---- the gates of the interleaved writers ----

  /** The answers that a task's gates would give are those of the bus. */
  ghost predicate AnswersFromBus(t: Task, bus: Option<Cache>, payloads: Payloads) {
    && (t.verdictNow <==> bus.Some? && HasVerdict(bus.value, payloads, "bootstrap_self_review"))
    && (t.reviewNow <==> bus.Some? && FinalReviewDone(bus.value, payloads))
  }

  /** Then a writer at the gate goes on exactly if the bus holds the review that its edge needs. */
  lemma GateReadsBus(t: Task, bus: Option<Cache>, payloads: Payloads, i: nat)
    requires AnswersFromBus(t, bus, payloads) && i < |t.writers| && t.writers[i].AtGate?
    ensures Step(t, GateAnswers(i)).writers[i].Writing? <==>
            ReviewHeld(bus, payloads, t.writers[i].from, t.writers[i].to)
  {}
}
