/** The round trip of the extras through the text of `payload.json` (`src/messaging/bus.ts`,
    `src/messaging/schema.ts`). */
module TextRoundTrip {
  import opened Prelude
  import opened Extras
  import opened ExtrasTable
  import opened Matching

  /** What a value becomes when it is written as JSON and parsed: an undefined member is dropped, and an
      undefined element becomes null. */
  function OnText(v: Value): Value {
    match v
    case Arr(xs) => Arr(seq(|xs|, i requires 0 <= i < |xs| => if xs[i].Undefined? then Null else OnText(xs[i])))
    case Obj(f) => Obj(map k | k in f && !f[k].Undefined? :: OnText(f[k]))
    case _ => v
  }

  function Text(raw: Record): Record {
    map k | k in raw && !raw[k].Undefined? :: OnText(raw[k])
  }

  lemma ListOnTextIff(xs: seq<Value>)
    requires forall i :: 0 <= i < |xs| && !xs[i].Undefined? ==> (OnText(xs[i]) == xs[i] <==> Defined(xs[i]))
    ensures OnText(Arr(xs)) == Arr(xs) <==> Defined(Arr(xs))
  {
    var ys := OnText(Arr(xs)).elements;
    if ys == xs {
      forall i | 0 <= i < |xs| ensures Defined(xs[i]) { assert ys[i] == xs[i]; }
    }
    if Defined(Arr(xs)) {
      forall i | 0 <= i < |xs| ensures ys[i] == xs[i] { assert Defined(xs[i]); }
      assert ys == xs;
    }
  }

  lemma ObjectOnTextIff(f: Record)
    requires forall k :: k in f && !f[k].Undefined? ==> (OnText(f[k]) == f[k] <==> Defined(f[k]))
    ensures OnText(Obj(f)) == Obj(f) <==> Defined(Obj(f))
  {
    var g := OnText(Obj(f)).fields;
    if g == f {
      forall k | k in f ensures Defined(f[k]) { assert k in g && g[k] == f[k]; }
    }
    if Defined(Obj(f)) {
      forall k | k in f ensures k in g && g[k] == f[k] { assert Defined(f[k]); }
      assert g.Keys == f.Keys;
    }
  }

  /** Exactly the values without undefined parts survive. */
  lemma {:induction false} OnTextIff(v: Value)
    requires !v.Undefined?
    ensures OnText(v) == v <==> Defined(v)
    decreases v
  {
    match v
    case Arr(xs) =>
      forall i | 0 <= i < |xs| && !xs[i].Undefined? ensures OnText(xs[i]) == xs[i] <==> Defined(xs[i]) { OnTextIff(xs[i]); }
      ListOnTextIff(xs);
    case Obj(f) =>
      forall k | k in f && !f[k].Undefined? ensures OnText(f[k]) == f[k] <==> Defined(f[k]) { OnTextIff(f[k]); }
      ObjectOnTextIff(f);
    case _ =>
  }

  /** Nothing in the extras is undefined, at any depth. */
  predicate AllDefined(extras: Option<Record>) {
    extras.Some? ==> forall k :: k in extras.value ==> Defined(extras.value[k])
  }

  function ThroughText(kind: Kind, extras: Option<Record>): Option<Record> {
    var raw := ExtrasToJson(kind, extras);
    ExtrasFromJson(kind, if raw.Some? then Some(Text(raw.value)) else None)
  }

  lemma DefinedTextIsSame(raw: Record)
    requires forall k :: k in raw ==> Defined(raw[k])
    ensures Text(raw) == raw
  {
    forall k | k in raw ensures k in Text(raw) && Text(raw)[k] == raw[k] { OnTextIff(raw[k]); }
    assert Text(raw).Keys == raw.Keys;
  }

  /** Kinds whose fields are scalars or lists of strings. */
  predicate IsFlat(kind: Kind) {
    !kind.HostEvent? && !kind.WorkerSessionEnd? && !kind.ReviewerVerdict?
  }

  lemma FlatFields(kind: Kind, e: Record)
    requires ValidateExtras(kind, Some(e)) && IsFlat(kind)
    ensures AllDefined(Some(e))
  {
    var schema := Schema(kind).value;
    forall k | k in e ensures Defined(e[k]) { assert CheckField(Get(e, k), schema[k]); }
  }

  lemma FlatJson(kind: Kind, e: Record)
    requires ValidateExtras(kind, Some(e)) && IsFlat(kind)
    ensures var raw := ExtrasToJson(kind, Some(e)); raw.Some? && forall k :: k in raw.value ==> Defined(raw.value[k])
  {
    FlatFields(kind, e);
    match kind
    case UserUpload =>
    case UserClarifyAnswer =>
    case WorkerEscalation =>
    case WorkerNotification =>
    case WorkerCompletionClaim =>
    case WatcherObservation =>
    case WorkerStreamWindow =>
  }

  lemma FlatRoundTrip(kind: Kind, e: Record)
    requires ValidateExtras(kind, Some(e)) && IsFlat(kind)
    ensures ThroughText(kind, Some(e)) == Some(e) && AllDefined(Some(e))
  {
    FlatFields(kind, e);
    FlatJson(kind, e);
    DefinedTextIsSame(ExtrasToJson(kind, Some(e)).value);
    RoundTripIff(kind, Some(e));
  }

  lemma HostEventThrough(e: Record)
    requires e.Keys == {"eventKind", "details"} && e["eventKind"].Str? && e["details"].Obj?
    ensures ThroughText(HostEvent, Some(e)) == Some(map["eventKind" := e["eventKind"], "details" := OnText(e["details"])])
  {
    var raw := map["event_kind" := e["eventKind"], "details" := e["details"]];
    assert ExtrasToJson(HostEvent, Some(e)) == Some(raw);
    assert Text(raw) == map["event_kind" := e["eventKind"], "details" := OnText(e["details"])];
  }

  lemma HostEventRoundTrip(e: Record)
    requires ValidateExtras(HostEvent, Some(e))
    ensures ThroughText(HostEvent, Some(e)) == Some(e) <==> AllDefined(Some(e))
  {
    FieldIsChecked(HostEvent, e, "eventKind");
    FieldIsChecked(HostEvent, e, "details");
    HostEventThrough(e);
    OnTextIff(e["details"]);
    LastDecides(e, map["eventKind" := e["eventKind"]], "details", OnText(e["details"]));
  }

  predicate IsSessionEnd(e: Record) {
    && e.Keys == {"workerSessionId", "sessionSeq", "exitReason", "doneCriteriaOutcome"}
    && e["workerSessionId"].Str? && e["sessionSeq"].Number? && e["exitReason"].Str?
    && (e["doneCriteriaOutcome"].Null? || e["doneCriteriaOutcome"].Obj?)
  }

  lemma SessionEndFields(e: Record)
    requires ValidateExtras(WorkerSessionEnd, Some(e))
    ensures IsSessionEnd(e)
  {
    FieldIsChecked(WorkerSessionEnd, e, "workerSessionId");
    FieldIsChecked(WorkerSessionEnd, e, "sessionSeq");
    FieldIsChecked(WorkerSessionEnd, e, "exitReason");
    FieldIsChecked(WorkerSessionEnd, e, "doneCriteriaOutcome");
  }

  function SessionEndJson(e: Record): Record
    requires IsSessionEnd(e)
  {
    map["worker_session_id" := e["workerSessionId"], "session_seq" := e["sessionSeq"],
        "exit_reason" := e["exitReason"], "done_criteria_outcome" := e["doneCriteriaOutcome"]]
  }

  lemma SessionEndText(e: Record)
    requires IsSessionEnd(e)
    ensures Text(SessionEndJson(e)) == SessionEndJson(e)["done_criteria_outcome" := OnText(e["doneCriteriaOutcome"])]
  {}

  lemma SessionEndThrough(e: Record)
    requires IsSessionEnd(e)
    ensures ThroughText(WorkerSessionEnd, Some(e)) == Some(SessionEndScalars(e)["doneCriteriaOutcome" := OnText(e["doneCriteriaOutcome"])])
  {
    assert ExtrasToJson(WorkerSessionEnd, Some(e)) == Some(SessionEndJson(e));
    SessionEndText(e);
  }

  function SessionEndScalars(e: Record): Record
    requires IsSessionEnd(e)
  {
    map["workerSessionId" := e["workerSessionId"], "sessionSeq" := e["sessionSeq"], "exitReason" := e["exitReason"]]
  }

  lemma SessionEndDecides(e: Record, v: Value)
    requires IsSessionEnd(e)
    ensures SessionEndScalars(e)["doneCriteriaOutcome" := v] == e <==> v == e["doneCriteriaOutcome"]
    ensures AllDefined(Some(e)) <==> Defined(e["doneCriteriaOutcome"])
  {
    LastDecides(e, SessionEndScalars(e), "doneCriteriaOutcome", v);
  }

  lemma SessionEndRoundTrip(e: Record)
    requires ValidateExtras(WorkerSessionEnd, Some(e))
    ensures ThroughText(WorkerSessionEnd, Some(e)) == Some(e) <==> AllDefined(Some(e))
  {
    SessionEndFields(e);
    SessionEndOutcome(e);
  }

  lemma SessionEndOutcome(e: Record)
    requires IsSessionEnd(e)
    ensures ThroughText(WorkerSessionEnd, Some(e)) == Some(e) <==> AllDefined(Some(e))
  {
    SessionEndThrough(e);
    OnTextIff(e["doneCriteriaOutcome"]);
    SessionEndDecides(e, OnText(e["doneCriteriaOutcome"]));
  }

  /** If all other fields are scalars and come back, the one that need not decides. */
  lemma LastDecides(e: Record, scalars: Record, last: string, v: Value)
    requires e.Keys == scalars.Keys + {last} && last !in scalars
    requires forall k :: k in scalars ==> scalars[k] == e[k] && Defined(e[k])
    ensures scalars[last := v] == e <==> v == e[last]
    ensures AllDefined(Some(e)) <==> Defined(e[last])
  {
    var r := scalars[last := v];
    assert r.Keys == e.Keys && r[last] == v;
    if v == e[last] { assert r == e; }
  }

  lemma IssueOnText(x: Value)
    ensures OnText(Obj(Spread(x))) == x <==> x.Obj? && Defined(x)
  {
    if x.Obj? { OnTextIff(x); }
  }

  lemma IssuesOnText(xs: seq<Value>)
    ensures OnText(Arr(SpreadAll(xs))) == Arr(xs) <==> forall i :: 0 <= i < |xs| ==> xs[i].Obj? && Defined(xs[i])
  {
    var ys := OnText(Arr(SpreadAll(xs))).elements;
    forall i | 0 <= i < |xs| ensures ys[i] == xs[i] <==> xs[i].Obj? && Defined(xs[i]) { IssueOnText(xs[i]); }
    if forall i :: 0 <= i < |xs| ==> xs[i].Obj? && Defined(xs[i]) { assert ys == xs; }
  }

  predicate IsVerdictRecord(e: Record) {
    && e.Keys == {"reviewerPhase", "reviewerRound", "verdict", "issues"}
    && e["reviewerPhase"].Str? && e["reviewerRound"].Number? && e["issues"].Arr?
    && (e["verdict"].Null? || e["verdict"].Str?)
  }

  lemma VerdictFields(e: Record)
    requires ValidateExtras(ReviewerVerdict, Some(e))
    ensures IsVerdictRecord(e)
  {
    FieldIsChecked(ReviewerVerdict, e, "reviewerPhase");
    FieldIsChecked(ReviewerVerdict, e, "reviewerRound");
    FieldIsChecked(ReviewerVerdict, e, "verdict");
    FieldIsChecked(ReviewerVerdict, e, "issues");
  }

  function VerdictScalars(e: Record): Record
    requires IsVerdictRecord(e)
  {
    map["reviewerPhase" := e["reviewerPhase"], "reviewerRound" := e["reviewerRound"], "verdict" := e["verdict"]]
  }

  lemma VerdictThrough(e: Record)
    requires IsVerdictRecord(e)
    ensures ThroughText(ReviewerVerdict, Some(e)) == Some(VerdictScalars(e)["issues" := OnText(Arr(SpreadAll(e["issues"].elements)))])
  {
    var issues := Arr(SpreadAll(e["issues"].elements));
    var raw := map["reviewer_phase" := e["reviewerPhase"], "reviewer_round" := e["reviewerRound"],
                   "verdict" := e["verdict"], "issues" := issues];
    assert ExtrasToJson(ReviewerVerdict, Some(e)) == Some(raw);
    assert Text(raw) == raw["issues" := OnText(issues)];
  }

  lemma VerdictDecides(e: Record, v: Value)
    requires IsVerdictRecord(e)
    ensures VerdictScalars(e)["issues" := v] == e <==> v == e["issues"]
    ensures AllDefined(Some(e)) <==> Defined(e["issues"])
  {
    LastDecides(e, VerdictScalars(e), "issues", v);
  }

  lemma VerdictIssues(e: Record)
    requires IsVerdictRecord(e)
    ensures ThroughText(ReviewerVerdict, Some(e)) == Some(e) <==>
      IssuesAreObjects(ReviewerVerdict, Some(e)) && AllDefined(Some(e))
  {
    VerdictThrough(e);
    IssuesOnText(e["issues"].elements);
    VerdictDecides(e, OnText(Arr(SpreadAll(e["issues"].elements))));
  }

  lemma VerdictTextRoundTrip(e: Record)
    requires ValidateExtras(ReviewerVerdict, Some(e))
    ensures ThroughText(ReviewerVerdict, Some(e)) == Some(e) <==>
      IssuesAreObjects(ReviewerVerdict, Some(e)) && AllDefined(Some(e))
  {
    VerdictFields(e);
    VerdictIssues(e);
  }

  /** Through the text on disk the accepted extras come back if and only if nothing in them is undefined
      and the issues of a verdict are objects. */
  lemma TextRoundTripIff(kind: Kind, extras: Option<Record>)
    requires ValidateExtras(kind, extras)
    ensures ThroughText(kind, extras) == extras <==> IssuesAreObjects(kind, extras) && AllDefined(extras)
  {
    if extras.Some? {
      if IsFlat(kind) { FlatRoundTrip(kind, extras.value); }
      else if kind.HostEvent? { HostEventRoundTrip(extras.value); }
      else if kind.WorkerSessionEnd? { SessionEndRoundTrip(extras.value); }
      else { VerdictTextRoundTrip(extras.value); }
    }
  }

  // ---- the names on disk ----

  /** Under which names each kind is stored. */
  lemma NamesOnDisk(e: Record)
    ensures ExtrasToJson(UserUpload, Some(e)).value.Keys == {"upload_id", "filename", "size_bytes", "uploaded_at"}
    ensures ExtrasToJson(UserClarifyAnswer, Some(e)).value.Keys == {"round"}
    ensures ExtrasToJson(WorkerEscalation, Some(e)).value.Keys == {"worker_session_id", "session_seq", "exit_intent"}
    ensures ExtrasToJson(WorkerNotification, Some(e)).value.Keys == {"worker_session_id", "session_seq"}
  {}

  lemma MoreNamesOnDisk(e: Record)
    ensures ExtrasToJson(WorkerCompletionClaim, Some(e)).value.Keys == {"worker_session_id", "session_seq"}
    ensures ExtrasToJson(WatcherObservation, Some(e)).value.Keys == {"watcher_session_id", "evidence_refs"}
    ensures ExtrasToJson(HostEvent, Some(e)).value.Keys == {"event_kind", "details"}
  {}

  lemma LongNamesOnDisk(e: Record)
    ensures ExtrasToJson(WorkerSessionEnd, Some(e)).value.Keys ==
      {"worker_session_id", "session_seq", "exit_reason", "done_criteria_outcome"}
    ensures ExtrasToJson(ReviewerVerdict, Some(e)).value.Keys == {"reviewer_phase", "reviewer_round", "verdict", "issues"}
    ensures ExtrasToJson(WorkerStreamWindow, Some(e)).value.Keys ==
      {"window_start", "window_end", "worker_session_id", "stream_path"}
  {}

  // ---- copies and defaults ----

  lemma {:induction false} IndexedIs(elements: seq<Value>, key: string)
    ensures Get(Indexed(elements), key) == ElementAt(elements, key)
  {
    if elements != [] { IndexedIs(elements[..|elements| - 1], key); }
  }

  /** A copy by spreading has the properties of what is copied ... */
  lemma SpreadIs(v: Value, key: string)
    requires HasKeys(v)
    ensures Get(Spread(v), key) == Prop(v, key)
  {
    if v.Arr? { IndexedIs(v.elements, key); }
  }

  /** ... and that of a string its characters. */
  lemma SpreadString(s: string, i: nat)
    requires i < |s|
    ensures Get(Spread(Str(s)), Decimal(i)) == Str([s[i]])
  {
    var chars := seq(|s|, i requires 0 <= i < |s| => Str([s[i]]));
    IndexedIs(chars, Decimal(i));
    ElementAtIndex(chars, i);
  }

  /** What a reader gets for what is missing on disk. */
  lemma DefaultsFromDisk(raw: Record)
    ensures "evidence_refs" !in raw ==> ExtrasFromJson(WatcherObservation, Some(raw)).value["evidenceRefs"] == Arr([])
    ensures "issues" !in raw ==> ExtrasFromJson(ReviewerVerdict, Some(raw)).value["issues"] == Arr([])
    ensures "details" !in raw ==> ExtrasFromJson(HostEvent, Some(raw)).value["details"] == Obj(map[])
    ensures "done_criteria_outcome" !in raw ==>
      ExtrasFromJson(WorkerSessionEnd, Some(raw)).value["doneCriteriaOutcome"] == Null
  {}
}
