/** Which extras each kind of envelope carries (`src/messaging/envelope.ts`). */
module ExtrasTable {
  import opened Prelude
  import opened Extras

  predicate IsWhole(v: Value) {
    v.Number? && v.integral
  }

  /** The worker's session, by id and number. */
  predicate NamesSession(e: Record) {
    "workerSessionId" in e && e["workerSessionId"].Str? && "sessionSeq" in e && IsWhole(e["sessionSeq"])
  }

  lemma FieldIsChecked(kind: Kind, e: Record, key: string)
    requires ValidateExtras(kind, Some(e)) && key in Schema(kind).value
    ensures key in e && CheckField(e[key], Schema(kind).value[key])
  {
    assert CheckField(Get(e, key), Schema(kind).value[key]);
  }

  /** Instructions, interrupts and feedback carry none. */
  lemma NoExtras(kind: Kind, extras: Option<Record>)
    requires kind in {UserFeedback, MetaInstruction, MetaInterrupt}
    ensures ValidateExtras(kind, extras) <==> extras.None?
  {}

  /** All others must carry some. */
  lemma SomeExtras(kind: Kind)
    requires kind !in {UserFeedback, MetaInstruction, MetaInterrupt}
    ensures !ValidateExtras(kind, None)
  {
    assert Schema(kind).Some?;
  }

  lemma UploadIs(e: Record)
    ensures ValidateExtras(UserUpload, Some(e)) <==>
      && e.Keys == {"uploadId", "filename", "sizeBytes", "uploadedAt"}
      && e["uploadId"].Str? && e["filename"].Str? && IsWhole(e["sizeBytes"]) && e["uploadedAt"].Str?
  {
    if ValidateExtras(UserUpload, Some(e)) {
      FieldIsChecked(UserUpload, e, "uploadId");
      FieldIsChecked(UserUpload, e, "filename");
      FieldIsChecked(UserUpload, e, "sizeBytes");
      FieldIsChecked(UserUpload, e, "uploadedAt");
    }
  }

  lemma AnswerIs(e: Record)
    ensures ValidateExtras(UserClarifyAnswer, Some(e)) <==> e.Keys == {"round"} && IsWhole(e["round"])
  {
    if ValidateExtras(UserClarifyAnswer, Some(e)) { FieldIsChecked(UserClarifyAnswer, e, "round"); }
  }

  /** An escalation says whether the worker goes on or puts its work off. */
  lemma EscalationIs(e: Record)
    ensures ValidateExtras(WorkerEscalation, Some(e)) <==>
      && e.Keys == {"workerSessionId", "sessionSeq", "exitIntent"} && NamesSession(e)
      && (e["exitIntent"] == Str("continue") || e["exitIntent"] == Str("declare_deferred"))
  {
    if ValidateExtras(WorkerEscalation, Some(e)) {
      FieldIsChecked(WorkerEscalation, e, "workerSessionId");
      FieldIsChecked(WorkerEscalation, e, "sessionSeq");
      FieldIsChecked(WorkerEscalation, e, "exitIntent");
    }
  }

  lemma NoticeIs(kind: Kind, e: Record)
    requires kind in {WorkerNotification, WorkerCompletionClaim}
    ensures ValidateExtras(kind, Some(e)) <==> e.Keys == {"workerSessionId", "sessionSeq"} && NamesSession(e)
  {
    if ValidateExtras(kind, Some(e)) {
      FieldIsChecked(kind, e, "workerSessionId");
      FieldIsChecked(kind, e, "sessionSeq");
    }
  }

  lemma EndIs(e: Record)
    ensures ValidateExtras(WorkerSessionEnd, Some(e)) <==>
      && e.Keys == {"workerSessionId", "sessionSeq", "exitReason", "doneCriteriaOutcome"} && NamesSession(e)
      && e["exitReason"].Str? && (e["doneCriteriaOutcome"].Null? || e["doneCriteriaOutcome"].Obj?)
  {
    if ValidateExtras(WorkerSessionEnd, Some(e)) {
      FieldIsChecked(WorkerSessionEnd, e, "workerSessionId");
      FieldIsChecked(WorkerSessionEnd, e, "sessionSeq");
      FieldIsChecked(WorkerSessionEnd, e, "exitReason");
      FieldIsChecked(WorkerSessionEnd, e, "doneCriteriaOutcome");
    }
  }

  lemma ObservationIs(e: Record)
    ensures ValidateExtras(WatcherObservation, Some(e)) <==>
      && e.Keys == {"watcherSessionId", "evidenceRefs"} && e["watcherSessionId"].Str?
      && e["evidenceRefs"].Arr? && forall i :: 0 <= i < |e["evidenceRefs"].elements| ==> e["evidenceRefs"].elements[i].Str?
  {
    if ValidateExtras(WatcherObservation, Some(e)) {
      FieldIsChecked(WatcherObservation, e, "watcherSessionId");
      FieldIsChecked(WatcherObservation, e, "evidenceRefs");
    }
  }

  /** A review passes, asks for a revision, finds the work unsafe, or has no verdict. */
  lemma VerdictIs(e: Record)
    ensures ValidateExtras(ReviewerVerdict, Some(e)) <==>
      && e.Keys == {"reviewerPhase", "reviewerRound", "verdict", "issues"}
      && e["reviewerPhase"].Str? && IsWhole(e["reviewerRound"]) && e["issues"].Arr?
      && (e["verdict"] == Null || e["verdict"] == Str("pass") || e["verdict"] == Str("needs_revision")
          || e["verdict"] == Str("unsafe"))
  {
    if ValidateExtras(ReviewerVerdict, Some(e)) {
      FieldIsChecked(ReviewerVerdict, e, "reviewerPhase");
      FieldIsChecked(ReviewerVerdict, e, "reviewerRound");
      FieldIsChecked(ReviewerVerdict, e, "verdict");
      FieldIsChecked(ReviewerVerdict, e, "issues");
    }
  }

  lemma HostEventIs(e: Record)
    ensures ValidateExtras(HostEvent, Some(e)) <==>
      e.Keys == {"eventKind", "details"} && e["eventKind"].Str? && e["details"].Obj?
  {
    if ValidateExtras(HostEvent, Some(e)) {
      FieldIsChecked(HostEvent, e, "eventKind");
      FieldIsChecked(HostEvent, e, "details");
    }
  }

  lemma WindowIs(e: Record)
    ensures ValidateExtras(WorkerStreamWindow, Some(e)) <==>
      && e.Keys == {"windowStart", "windowEnd", "workerSessionId", "streamPath"}
      && forall k :: k in e ==> e[k].Str?
  {
    var valid := ValidateExtras(WorkerStreamWindow, Some(e));
    if valid {
      forall k | k in e ensures e[k].Str? { FieldIsChecked(WorkerStreamWindow, e, k); }
    }
  }
}
