/** Who may change the stage to what, read off from outside (`src/host/stage_machine.ts`,
    `src/cli/exec.ts`, `src/host/daemon.ts`). */
module StageTable {
  import opened Prelude
  import opened Stages

  // ---- the table ----

  /** Meta moves a task on from where it works on it, anywhere but back to the beginning or into a pause;
      only a running task, or one that waits for the user, can be done. */
  predicate MetaMay(from: Stage, to: Stage) {
    && from in {Clarifying, Bootstrapping, Running, AwaitingUser} && to !in {Submitted, Paused}
    && (to.Done? ==> from in {Running, AwaitingUser})
  }

  /** The user accepts what waits for acceptance, cancels what has not ended, pauses what is in progress,
      and resumes a pause. */
  predicate UserMay(from: Stage, to: Stage) {
    match to
    case Done => from.AwaitingUser?
    case Cancelled => from !in {Done, Failed, Cancelled}
    case Paused => from in {Submitted, Clarifying, Bootstrapping, Running, AwaitingUser}
    case Submitted => false
    case Failed => false
    case _ => from.Paused?
  }

  /** The host begins a new task, pauses and resumes, and gives up what is in progress. */
  predicate HostMay(from: Stage, to: Stage) {
    match to
    case Clarifying => from in {Submitted, Paused}
    case Bootstrapping => from.Paused?
    case Running => from.Paused?
    case AwaitingUser => from.Paused?
    case Paused => from in {Submitted, Clarifying, Bootstrapping, Running, AwaitingUser}
    case Failed => from in {Submitted, Clarifying, Bootstrapping, Running, AwaitingUser}
    case _ => false
  }

  lemma TableForMeta(from: Stage, to: Stage)
    ensures CheckTransitionAllowed(from, to, MetaTool) <==> MetaMay(from, to)
  {
    match from
    case Submitted => case Clarifying => case Bootstrapping => case Running => case AwaitingUser => case Paused =>
    case Done => case Failed => case Cancelled =>
  }

  lemma TableForUser(from: Stage, to: Stage)
    ensures CheckTransitionAllowed(from, to, UserCli) <==> UserMay(from, to)
  {
    match to
    case Submitted => case Clarifying => case Bootstrapping => case Running => case AwaitingUser => case Paused =>
    case Done => case Failed => case Cancelled =>
  }

  lemma TableForHost(from: Stage, to: Stage)
    ensures CheckTransitionAllowed(from, to, Host) <==> HostMay(from, to)
  {
    match to
    case Submitted => case Clarifying => case Bootstrapping => case Running => case AwaitingUser => case Paused =>
    case Done => case Failed => case Cancelled =>
  }

  // ---- what each writer does when nothing comes in between ----

  lemma LoadsAndWrites(t: Task, load: Action, w: Writer)
    requires Step(t, load) == t.(writers := t.writers + [w]) && w.Writing? && !load.Writes? && !load.BusChanges?
    requires w.expected == t.manifest.stage && ArgumentsValid(w.target, w.pausedFrom)
    ensures Alone(t, load).manifest == Manifest(w.target, if w.target.Paused? then w.pausedFrom else None,
                                                t.manifest.history + [w.target])
  {}

  /** Pausing works on what is in progress, and remembers it. */
  lemma PauseAlone(t: Task)
    ensures var m, after := t.manifest, Alone(t, PauseLoads).manifest;
      m.stage in {Submitted, Clarifying, Bootstrapping, Running, AwaitingUser} ==>
        after == Manifest(Paused, Some(m.stage), m.history + [Paused])
  {
    if IsInProgress(t.manifest.stage) {
      LoadsAndWrites(t, PauseLoads, Writing(PauseCommand, Paused, Some(t.manifest.stage), t.manifest.stage));
    }
  }

  /** Resuming goes back to where the pause came from. */
  lemma ResumeAlone(t: Task)
    requires t.manifest.stage.Paused? && t.manifest.pausedFrom.Some? && !t.manifest.pausedFrom.value.Paused?
    ensures Alone(t, ResumeLoads).manifest ==
      Manifest(t.manifest.pausedFrom.value, None, t.manifest.history + [t.manifest.pausedFrom.value])
  {
    LoadsAndWrites(t, ResumeLoads, Writing(ResumeCommand, t.manifest.pausedFrom.value, None, Paused));
  }

  /** Accepting ends a task that waits for the user. */
  lemma DoneAlone(t: Task)
    requires t.manifest.stage.AwaitingUser?
    ensures Alone(t, DoneLoads).manifest == Manifest(Done, None, t.manifest.history + [Done])
  {
    LoadsAndWrites(t, DoneLoads, Writing(DoneCommand, Done, None, AwaitingUser));
  }

  /** Cancelling ends any task that has not ended. */
  lemma CancelAlone(t: Task)
    requires t.manifest.stage !in {Done, Failed, Cancelled}
    ensures Alone(t, CancelLoads).manifest == Manifest(Cancelled, None, t.manifest.history + [Cancelled])
  {
    LoadsAndWrites(t, CancelLoads, Writing(CancelCommand, Cancelled, None, t.manifest.stage));
  }

  /** The host takes up a new task, and gives up one in progress. */
  lemma HostAlone(t: Task)
    ensures t.manifest.stage.Submitted? ==>
      Alone(t, HostSeesSubmitted).manifest == Manifest(Clarifying, None, t.manifest.history + [Clarifying])
    ensures t.manifest.stage in {Submitted, Clarifying, Bootstrapping, Running, AwaitingUser} ==>
      Alone(t, HostGivesUp).manifest == Manifest(Failed, None, t.manifest.history + [Failed])
  {
    if t.manifest.stage.Submitted? {
      LoadsAndWrites(t, HostSeesSubmitted, Writing(HostClarifies, Clarifying, None, Submitted));
    }
    if IsInProgress(t.manifest.stage) {
      LoadsAndWrites(t, HostGivesUp, Writing(HostFails, Failed, None, t.manifest.stage));
    }
  }

  /** No command is loaded from any other stage. */
  lemma NothingLoaded(t: Task)
    ensures t.manifest.stage !in {Submitted, Clarifying, Bootstrapping, Running, AwaitingUser} ==>
      Step(t, PauseLoads) == t && Step(t, HostGivesUp) == t
    ensures !t.manifest.stage.Paused? ==> Step(t, ResumeLoads) == t
    ensures !t.manifest.stage.AwaitingUser? ==> Step(t, DoneLoads) == t
    ensures t.manifest.stage in {Done, Failed, Cancelled} ==> Step(t, CancelLoads) == t
  {}
}
