/** The stage of a task and everybody who changes it (`src/shared/manifest.ts`,
    `src/host/stage_machine.ts`, `src/cli/exec.ts`, `src/host/daemon.ts`). Each writer loads the
    manifest, decides, and then writes under a lock if the stage is still the one it saw. */
module Stages {
  import opened Prelude

  datatype Stage = Submitted | Clarifying | Bootstrapping | Running | AwaitingUser | Paused | Done | Failed | Cancelled

  predicate IsInProgress(s: Stage) {
    s in {Submitted, Clarifying, Bootstrapping, Running, AwaitingUser}
  }

  predicate IsTerminal(s: Stage) {
    s in {Done, Failed, Cancelled}
  }

  datatype Trigger = MetaTool | UserCli | Host

  /** The table of legal transitions. */
  predicate CheckTransitionAllowed(from: Stage, to: Stage, trigger: Trigger) {
    if to.Submitted? then false
    else match trigger
      case MetaTool =>
        if to.Paused? || !IsInProgress(from) then false
        else (match from
          case Clarifying => to.Bootstrapping? || IsInProgress(to) || to.Failed? || to.Cancelled?
          case Bootstrapping => to.Running? || IsInProgress(to) || to.Failed? || to.Cancelled?
          case Running => to.AwaitingUser? || to.Done? || IsInProgress(to) || to.Failed? || to.Cancelled?
          case AwaitingUser => to.Running? || to.Done? || IsInProgress(to) || to.Failed? || to.Cancelled?
          case _ => false)
      case UserCli =>
        if to.Done? then from.AwaitingUser?
        else if to.Cancelled? then IsInProgress(from) || from.Paused?
        else if to.Paused? then IsInProgress(from)
        else from.Paused? && IsInProgress(to)
      case Host =>
        || (from.Submitted? && to.Clarifying?)
        || (from.Paused? && IsInProgress(to))
        || (IsInProgress(from) && to.Paused?)
        || (IsInProgress(from) && to.Failed?)
  }

  datatype Manifest = Manifest(stage: Stage, pausedFrom: Option<Stage>, history: seq<Stage>)

  datatype WriteResult = Applied | CasMismatch | InvalidArgument

  /** A pause must say where it comes from. */
  predicate ArgumentsValid(target: Stage, pausedFrom: Option<Stage>) {
    target.Paused? ==> pausedFrom.Some? && IsInProgress(pausedFrom.value)
  }

  function Transitioned(m: Manifest, target: Stage, pausedFrom: Option<Stage>): Manifest {
    Manifest(target, if target.Paused? then pausedFrom else None, m.history + [target])
  }

  class ManifestFile {
    var stage: Stage
    var pausedFrom: Option<Stage>
    var history: seq<Stage>

    function View(): Manifest
      reads this
    {
      Manifest(stage, pausedFrom, history)
    }

    /** A new task. */
    constructor ()
      ensures View() == NewTask
    {
      stage, pausedFrom, history := Submitted, None, [Submitted];
    }

    /** Compare-and-swap under the manifest lock. */
    method ApplyStageTransition(target: Stage, from: Option<Stage>, expected: Stage) returns (r: WriteResult)
      modifies this
      ensures r == if !ArgumentsValid(target, from) then InvalidArgument
                   else if old(stage) != expected then CasMismatch else Applied
      ensures View() == if r.Applied? then Transitioned(old(View()), target, from) else old(View())
    {
      if target.Paused? && (from.None? || !IsInProgress(from.value)) { return InvalidArgument; }
      if stage != expected { return CasMismatch; }
      stage := target;
      pausedFrom := if target.Paused? then from else None;
      history := history + [target];
      return Applied;
    }
  }

  const NewTask := Manifest(Submitted, None, [Submitted])

  // ---- writers ----

  /** Who is writing. */
  datatype Origin = PauseCommand | ResumeCommand | DoneCommand | CancelCommand | StageAdvance | HostClarifies | HostFails

  /** A writer between its load and its write; `gate` is what its gate check said. */
  datatype Writer =
    | AtGate(from: Stage, to: Stage)
    | Writing(origin: Origin, target: Stage, pausedFrom: Option<Stage>, expected: Stage)
    | Gone

  /** `verdictSeen`: a live, readable bootstrap review has existed; `verdictNow` and `reviewNow`: what
      the two gate queries would answer at this moment; `reviewSeen`: the final review query would have
      passed at some moment. */
  datatype Task = Task(manifest: Manifest, writers: seq<Writer>, verdictNow: bool, verdictSeen: bool,
                       reviewNow: bool, reviewSeen: bool)

  datatype Action =
    | PauseLoads | ResumeLoads | DoneLoads | CancelLoads
    | AdvanceLoads(to: Stage)
    | GateAnswers(i: nat)
    | HostSeesSubmitted
    | HostGivesUp
    | Writes(i: nat)
    | BusChanges(verdict: bool, review: bool)

  function TriggerOf(o: Origin): Trigger {
    match o
    case StageAdvance => MetaTool
    case HostClarifies => Host
    case HostFails => Host
    case _ => UserCli
  }

  function With(t: Task, w: Writer): Task {
    t.(writers := t.writers + [w])
  }

  /** What `checkStageGate` asks. */
  predicate GatePasses(t: Task, from: Stage, to: Stage) {
    if to.Running? && !from.Running? then t.verdictNow
    else if from.Running? && (to.AwaitingUser? || to.Done?) then t.reviewNow
    else true
  }

  function Step(t: Task, a: Action): Task {
    var m := t.manifest;
    match a
    case PauseLoads => if IsInProgress(m.stage) then With(t, Writing(PauseCommand, Paused, Some(m.stage), m.stage)) else t
    case ResumeLoads =>
      if m.stage.Paused? && m.pausedFrom.Some? then With(t, Writing(ResumeCommand, m.pausedFrom.value, None, Paused)) else t
    case DoneLoads => if m.stage.AwaitingUser? then With(t, Writing(DoneCommand, Done, None, AwaitingUser)) else t
    case CancelLoads =>
      if IsInProgress(m.stage) || m.stage.Paused? then With(t, Writing(CancelCommand, Cancelled, None, m.stage)) else t
    case AdvanceLoads(to) =>
      if CheckTransitionAllowed(m.stage, to, MetaTool) then With(t, AtGate(m.stage, to)) else t
    case GateAnswers(i) =>
      if i < |t.writers| && t.writers[i].AtGate? then
        var w := t.writers[i];
        t.(writers := t.writers[i := if GatePasses(t, w.from, w.to) then Writing(StageAdvance, w.to, None, w.from) else Gone])
      else t
    case HostSeesSubmitted => With(t, Writing(HostClarifies, Clarifying, None, Submitted))
    case HostGivesUp => if IsInProgress(m.stage) then With(t, Writing(HostFails, Failed, None, m.stage)) else t
    case Writes(i) =>
      if i < |t.writers| && t.writers[i].Writing? then
        var w := t.writers[i];
        t.(writers := t.writers[i := Gone],
           manifest := if m.stage == w.expected && ArgumentsValid(w.target, w.pausedFrom)
                       then Transitioned(m, w.target, w.pausedFrom) else m)
      else t
    case BusChanges(verdict, review) =>
      t.(verdictNow := verdict, verdictSeen := t.verdictSeen || verdict,
         reviewNow := review, reviewSeen := t.reviewSeen || review)
  }

  function Run(t: Task, actions: seq<Action>): Task {
    if actions == [] then t else Step(Run(t, actions[..|actions| - 1]), actions[|actions| - 1])
  }

  const Start := Task(NewTask, [], false, false, false, false)

  // ---- safety ----

  predicate ManifestSound(m: Manifest) {
    && m.history != [] && m.history[|m.history| - 1] == m.stage
    && (m.pausedFrom.Some? <==> m.stage.Paused?)
    && (m.pausedFrom.Some? ==> IsInProgress(m.pausedFrom.value))
  }

  /** Running, or on its way to running, only after a bootstrap review. */
  predicate Reviewed(t: Task) {
    && (t.verdictNow ==> t.verdictSeen)
    && (Running in t.manifest.history ==> t.verdictSeen)
    && (t.manifest.pausedFrom == Some(Running) ==> t.verdictSeen)
    && (forall i :: 0 <= i < |t.writers| && t.writers[i].Writing? ==>
          && (t.writers[i].target.Running? ==> t.verdictSeen || t.writers[i].expected.Running?)
          && (t.writers[i].pausedFrom == Some(Running) ==> t.verdictSeen))
  }

  predicate WritersSound(t: Task) {
    forall i :: 0 <= i < |t.writers| ==>
      match t.writers[i]
      case Writing(o, target, from, expected) =>
        && !IsTerminal(expected) && ArgumentsValid(target, from)
        && (CheckTransitionAllowed(expected, target, TriggerOf(o)) || (o.ResumeCommand? && target.Submitted?))
        && (expected.Paused? && !target.Cancelled? ==> o.ResumeCommand?)
      case AtGate(from, to) => CheckTransitionAllowed(from, to, MetaTool)
      case Gone => true
  }

  predicate Sound(t: Task) {
    ManifestSound(t.manifest) && Reviewed(t) && WritersSound(t)
  }

  lemma StepKeepsManifest(t: Task, a: Action)
    requires Sound(t)
    ensures ManifestSound(Step(t, a).manifest)
  {}

  lemma StepKeepsReviewed(t: Task, a: Action)
    requires Sound(t)
    ensures Reviewed(Step(t, a))
  {}

  lemma StepKeepsWriters(t: Task, a: Action)
    requires Sound(t)
    ensures WritersSound(Step(t, a))
  {}

  lemma {:induction false} RunKeepsSound(t: Task, actions: seq<Action>)
    requires Sound(t)
    ensures Sound(Run(t, actions))
  {
    if actions != [] {
      var n := |actions| - 1;
      var now := Run(t, actions[..n]);
      RunKeepsSound(t, actions[..n]);
      StepKeepsManifest(now, actions[n]);
      StepKeepsReviewed(now, actions[n]);
      StepKeepsWriters(now, actions[n]);
    }
  }

  /** For all interleavings of all writers: the last entry of the history is the stage, a paused task
      knows where it came from and no other does, and a task that has ever been running (or is paused
      from running) has had its bootstrap review. */
  lemma StageSafety(actions: seq<Action>)
    ensures var t := Run(Start, actions);
      && t.manifest.history != [] && t.manifest.history[|t.manifest.history| - 1] == t.manifest.stage
      && (t.manifest.pausedFrom.Some? <==> t.manifest.stage.Paused?)
      && (Running in t.manifest.history || t.manifest.pausedFrom == Some(Running) ==> t.verdictSeen)
  {
    RunKeepsSound(Start, actions);
  }

  /** A task that has ended never changes again. */
  lemma {:induction false} TerminalIsAbsorbing(t: Task, actions: seq<Action>)
    requires Sound(t) && IsTerminal(t.manifest.stage)
    ensures Sound(Run(t, actions)) && Run(t, actions).manifest == t.manifest
  {
    if actions != [] {
      var n := |actions| - 1;
      var now := Run(t, actions[..n]);
      TerminalIsAbsorbing(t, actions[..n]);
      StepKeepsManifest(now, actions[n]);
      StepKeepsReviewed(now, actions[n]);
      StepKeepsWriters(now, actions[n]);
    }
  }

  /** Every change of the stage is in the transition table for its origin, with one exception: a task
      that was paused while submitted is resumed to a stage that the table calls unreachable. */
  lemma ChangesAreLegal(t: Task, i: nat)
    requires Sound(t) && i < |t.writers| && t.writers[i].Writing? && t.manifest.stage == t.writers[i].expected
    ensures Step(t, Writes(i)).manifest.stage == t.writers[i].target
    ensures CheckTransitionAllowed(t.manifest.stage, t.writers[i].target, TriggerOf(t.writers[i].origin))
            <==> !(t.writers[i].origin.ResumeCommand? && t.writers[i].target.Submitted?)
  {}

  // ---- pause and resume ----

  /** What one command does when nothing comes between its load and its write. */
  function Alone(t: Task, load: Action): Task {
    Step(Step(t, load), Writes(|t.writers|))
  }

  /** A resume right after a pause restores the stage. */
  lemma ResumeUndoesPause(t: Task)
    requires Sound(t) && IsInProgress(t.manifest.stage)
    ensures Alone(t, PauseLoads).manifest.stage.Paused?
    ensures var resumed := Alone(Alone(t, PauseLoads), ResumeLoads).manifest;
      resumed.stage == t.manifest.stage && resumed.pausedFrom.None?
  {}

  /** A resume that was loaded before another resume and another pause overwrites the new pause with
      the old origin: only the stage is compared, not the origin. */
  lemma {:induction false} StaleResume(t: Task)
    requires Sound(t) && t.manifest.stage.Running?
    ensures var paused := Alone(t, PauseLoads);
      var loaded := Step(paused, ResumeLoads);
      var resumed := Alone(loaded, ResumeLoads);
      var clarifying := Step(Step(Step(resumed, AdvanceLoads(Clarifying)), GateAnswers(|resumed.writers|)),
                             Writes(|resumed.writers|));
      var again := Alone(clarifying, PauseLoads);
      && again.manifest.stage.Paused? && again.manifest.pausedFrom == Some(Clarifying)
      && Step(again, Writes(|paused.writers|)).manifest.stage.Running?
  {
    var paused := Alone(t, PauseLoads);
    var loaded := Step(paused, ResumeLoads);
    assert loaded.writers[|paused.writers|] == Writing(ResumeCommand, Running, None, Paused);
    var resumed := Alone(loaded, ResumeLoads);
    assert resumed.manifest.stage.Running?;
    var gated := Step(resumed, AdvanceLoads(Clarifying));
    var passed := Step(gated, GateAnswers(|resumed.writers|));
    assert passed.writers[|resumed.writers|] == Writing(StageAdvance, Clarifying, None, Running);
    var clarifying := Step(passed, Writes(|resumed.writers|));
    assert clarifying.writers[|paused.writers|] == loaded.writers[|paused.writers|];
    var again := Alone(clarifying, PauseLoads);
    assert again.writers[|paused.writers|] == loaded.writers[|paused.writers|];
  }
}
