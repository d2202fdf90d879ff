/** The kind-specific part of an envelope and its form on disk (`src/messaging/envelope.ts`,
    `src/messaging/schema.ts`). */
module Extras {
  import opened Prelude

  datatype Kind =
    | UserFeedback | UserUpload | UserClarifyAnswer
    | WorkerEscalation | WorkerNotification | WorkerCompletionClaim | WorkerSessionEnd
    | WatcherObservation | ReviewerVerdict | HostEvent
    | MetaInstruction | MetaInterrupt | WorkerStreamWindow

  /** A value of the host language that can be written as JSON; `Undefined` is an absent property. */
  datatype Value =
    | Undefined | Null | Bool(b: bool) | Number(integral: bool, n: int) | Str(s: string)
    | Arr(elements: seq<Value>) | Obj(fields: map<string, Value>)

  type Record = map<string, Value>

  function Get(r: Record, key: string): Value {
    if key in r then r[key] else Undefined
  }

  // ---- validation ----

  datatype FieldSpec =
    | AString | AnInt | ListOfStrings | AList | ADict | DictOrNull
    | OneOf(options: set<string>) | OneOfOrNull(options: set<string>)

  predicate CheckField(v: Value, spec: FieldSpec) {
    match spec
    case AString => v.Str?
    case AnInt => v.Number? && v.integral
    case ListOfStrings => v.Arr? && forall i :: 0 <= i < |v.elements| ==> v.elements[i].Str?
    case AList => v.Arr?
    case ADict => v.Obj?
    case DictOrNull => v.Null? || v.Obj?
    case OneOf(options) => v.Str? && v.s in options
    case OneOfOrNull(options) => v.Null? || (v.Str? && v.s in options)
  }

  /** The exact fields of each kind; `None` for a kind without extras. */
  function Schema(kind: Kind): Option<map<string, FieldSpec>> {
    match kind
    case UserFeedback => None
    case UserUpload =>
      Some(map["uploadId" := AString, "filename" := AString, "sizeBytes" := AnInt, "uploadedAt" := AString])
    case UserClarifyAnswer => Some(map["round" := AnInt])
    case WorkerEscalation =>
      Some(map["workerSessionId" := AString, "sessionSeq" := AnInt, "exitIntent" := OneOf({"continue", "declare_deferred"})])
    case WorkerNotification => Some(map["workerSessionId" := AString, "sessionSeq" := AnInt])
    case WorkerCompletionClaim => Some(map["workerSessionId" := AString, "sessionSeq" := AnInt])
    case WorkerSessionEnd =>
      Some(map["workerSessionId" := AString, "sessionSeq" := AnInt, "exitReason" := AString,
               "doneCriteriaOutcome" := DictOrNull])
    case WatcherObservation => Some(map["watcherSessionId" := AString, "evidenceRefs" := ListOfStrings])
    case ReviewerVerdict =>
      Some(map["reviewerPhase" := AString, "reviewerRound" := AnInt,
               "verdict" := OneOfOrNull({"pass", "needs_revision", "unsafe"}), "issues" := AList])
    case HostEvent => Some(map["eventKind" := AString, "details" := ADict])
    case MetaInstruction => None
    case MetaInterrupt => None
    case WorkerStreamWindow =>
      Some(map["windowStart" := AString, "windowEnd" := AString, "workerSessionId" := AString, "streamPath" := AString])
  }

  /** Exactly the fields of the kind, each of its type; nothing at all for a kind without extras. */
  predicate ValidateExtras(kind: Kind, extras: Option<Record>) {
    match Schema(kind)
    case None => extras.None?
    case Some(schema) =>
      && extras.Some? && extras.value.Keys == schema.Keys
      && forall k :: k in schema ==> CheckField(Get(extras.value, k), schema[k])
  }

  // ---- to disk ----

  function Decimal(n: nat): string {
    if n < 10 then [Digit(n)] else Decimal(n / 10) + [Digit(n % 10)]
  }

  function Digit(d: nat): char
    requires d < 10
  {
    ("0123456789")[d]
  }

  predicate IsDigit(c: char) {
    '0' <= c <= '9'
  }

  predicate AllDigits(s: string) {
    forall i :: 0 <= i < |s| ==> IsDigit(s[i])
  }

  /** The number that a string of digits stands for. */
  function ValueOf(s: string): nat
    requires AllDigits(s)
  {
    if s == [] then 0 else 10 * ValueOf(s[..|s| - 1]) + (s[|s| - 1] as int - '0' as int)
  }

  lemma DigitIs(d: nat)
    requires d < 10
    ensures IsDigit(Digit(d)) && Digit(d) as int - '0' as int == d
  {}

  lemma {:induction false} DecimalValue(n: nat)
    ensures AllDigits(Decimal(n)) && Decimal(n) != [] && ValueOf(Decimal(n)) == n
  {
    var s := Decimal(n);
    DigitIs(n % 10);
    if n < 10 {
      assert s == [Digit(n)] && s[..0] == [];
    } else {
      DecimalValue(n / 10);
      assert s[..|s| - 1] == Decimal(n / 10);
    }
  }

  /** `{ ...v }`: an object keeps its fields, a list or a string gets its positions as keys, and
      everything else becomes empty. */
  function Spread(v: Value): Record {
    match v
    case Obj(fields) => fields
    case Arr(elements) => Indexed(elements)
    case Str(s) => Indexed(seq(|s|, i requires 0 <= i < |s| => Str([s[i]])))
    case _ => map[]
  }

  function Indexed(elements: seq<Value>): Record {
    if elements == [] then map[]
    else
      var n := |elements| - 1;
      Indexed(elements[..n])[Decimal(n) := elements[n]]
  }

  function SpreadAll(elements: seq<Value>): seq<Value> {
    seq(|elements|, i requires 0 <= i < |elements| => Obj(Spread(elements[i])))
  }

  function CopiedIssues(v: Value): Value {
    if v.Arr? then Arr(SpreadAll(v.elements)) else v
  }

  function ExtrasToJson(kind: Kind, extras: Option<Record>): Option<Record> {
    if extras.None? then None
    else
      var e := extras.value;
      match kind
      case UserUpload =>
        Some(map["upload_id" := Get(e, "uploadId"), "filename" := Get(e, "filename"),
                 "size_bytes" := Get(e, "sizeBytes"), "uploaded_at" := Get(e, "uploadedAt")])
      case UserClarifyAnswer => Some(map["round" := Get(e, "round")])
      case WorkerEscalation =>
        Some(map["worker_session_id" := Get(e, "workerSessionId"), "session_seq" := Get(e, "sessionSeq"),
                 "exit_intent" := Get(e, "exitIntent")])
      case WorkerNotification =>
        Some(map["worker_session_id" := Get(e, "workerSessionId"), "session_seq" := Get(e, "sessionSeq")])
      case WorkerCompletionClaim =>
        Some(map["worker_session_id" := Get(e, "workerSessionId"), "session_seq" := Get(e, "sessionSeq")])
      case WorkerSessionEnd =>
        Some(map["worker_session_id" := Get(e, "workerSessionId"), "session_seq" := Get(e, "sessionSeq"),
                 "exit_reason" := Get(e, "exitReason"), "done_criteria_outcome" := Get(e, "doneCriteriaOutcome")])
      case WatcherObservation =>
        Some(map["watcher_session_id" := Get(e, "watcherSessionId"), "evidence_refs" := Get(e, "evidenceRefs")])
      case ReviewerVerdict =>
        Some(map["reviewer_phase" := Get(e, "reviewerPhase"), "reviewer_round" := Get(e, "reviewerRound"),
                 "verdict" := Get(e, "verdict"), "issues" := CopiedIssues(Get(e, "issues"))])
      case HostEvent =>
        Some(map["event_kind" := Get(e, "eventKind"), "details" := Obj(Spread(Get(e, "details")))])
      case WorkerStreamWindow =>
        Some(map["window_start" := Get(e, "windowStart"), "window_end" := Get(e, "windowEnd"),
                 "worker_session_id" := Get(e, "workerSessionId"), "stream_path" := Get(e, "streamPath")])
      case _ => None
  }

  // ---- and back ----

  function AsRecordOrNull(v: Value): Value {
    if v.Obj? then v else Null
  }

  /** `v ?? d` */
  function OrElse(v: Value, d: Value): Value {
    if v.Undefined? || v.Null? then d else v
  }

  function ExtrasFromJson(kind: Kind, raw: Option<Record>): Option<Record> {
    if raw.None? then None
    else
      var o := raw.value;
      match kind
      case UserUpload =>
        Some(map["uploadId" := Get(o, "upload_id"), "filename" := Get(o, "filename"),
                 "sizeBytes" := Get(o, "size_bytes"), "uploadedAt" := Get(o, "uploaded_at")])
      case UserClarifyAnswer => Some(map["round" := Get(o, "round")])
      case WorkerEscalation =>
        Some(map["workerSessionId" := Get(o, "worker_session_id"), "sessionSeq" := Get(o, "session_seq"),
                 "exitIntent" := Get(o, "exit_intent")])
      case WorkerNotification =>
        Some(map["workerSessionId" := Get(o, "worker_session_id"), "sessionSeq" := Get(o, "session_seq")])
      case WorkerCompletionClaim =>
        Some(map["workerSessionId" := Get(o, "worker_session_id"), "sessionSeq" := Get(o, "session_seq")])
      case WorkerSessionEnd =>
        Some(map["workerSessionId" := Get(o, "worker_session_id"), "sessionSeq" := Get(o, "session_seq"),
                 "exitReason" := Get(o, "exit_reason"),
                 "doneCriteriaOutcome" := AsRecordOrNull(Get(o, "done_criteria_outcome"))])
      case WatcherObservation =>
        Some(map["watcherSessionId" := Get(o, "watcher_session_id"), "evidenceRefs" := OrElse(Get(o, "evidence_refs"), Arr([]))])
      case ReviewerVerdict =>
        Some(map["reviewerPhase" := Get(o, "reviewer_phase"), "reviewerRound" := Get(o, "reviewer_round"),
                 "verdict" := Get(o, "verdict"), "issues" := OrElse(Get(o, "issues"), Arr([]))])
      case HostEvent =>
        Some(map["eventKind" := Get(o, "event_kind"), "details" := OrElse(AsRecordOrNull(Get(o, "details")), Obj(map[]))])
      case WorkerStreamWindow =>
        Some(map["windowStart" := Get(o, "window_start"), "windowEnd" := Get(o, "window_end"),
                 "workerSessionId" := Get(o, "worker_session_id"), "streamPath" := Get(o, "stream_path")])
      case _ => None
  }

  // ---- the round trip ----

  /** Every issue of a verdict is an object; validation only asks for a list. */
  predicate IssuesAreObjects(kind: Kind, extras: Option<Record>) {
    kind.ReviewerVerdict? && extras.Some? && Get(extras.value, "issues").Arr? ==>
      forall i :: 0 <= i < |extras.value["issues"].elements| ==> extras.value["issues"].elements[i].Obj?
  }

  lemma SpreadAllIff(elements: seq<Value>)
    ensures SpreadAll(elements) == elements <==> forall i :: 0 <= i < |elements| ==> elements[i].Obj?
  {
    if SpreadAll(elements) == elements {
      forall i | 0 <= i < |elements| ensures elements[i].Obj? {
        assert SpreadAll(elements)[i] == elements[i];
      }
    }
  }

  /** Reading back what was written gives the accepted extras again, except that the elements of a
      verdict's issue list come back as objects: the round trip holds exactly if they were objects. */
  lemma RoundTripIff(kind: Kind, extras: Option<Record>)
    requires ValidateExtras(kind, extras)
    ensures ExtrasFromJson(kind, ExtrasToJson(kind, extras)) == extras <==> IssuesAreObjects(kind, extras)
  {
    if kind.ReviewerVerdict? {
      VerdictRoundTrip(extras.value);
    } else if extras.Some? {
      PlainRoundTrip(kind, extras.value);
    }
  }

  lemma PlainRoundTrip(kind: Kind, e: Record)
    requires ValidateExtras(kind, Some(e)) && !kind.ReviewerVerdict?
    ensures ExtrasFromJson(kind, ExtrasToJson(kind, Some(e))) == Some(e)
  {
    match kind
    case UserUpload => UploadRoundTrip(e);
    case WorkerStreamWindow => WindowRoundTrip(e);
    case WorkerSessionEnd => EndRoundTrip(e);
    case WorkerEscalation => EscalationRoundTrip(e);
    case _ => SmallRoundTrip(kind, e);
  }

  lemma UploadRoundTrip(e: Record)
    requires ValidateExtras(UserUpload, Some(e))
    ensures ExtrasFromJson(UserUpload, ExtrasToJson(UserUpload, Some(e))) == Some(e)
  {
    assert ExtrasFromJson(UserUpload, ExtrasToJson(UserUpload, Some(e))).value == e;
  }

  lemma WindowRoundTrip(e: Record)
    requires ValidateExtras(WorkerStreamWindow, Some(e))
    ensures ExtrasFromJson(WorkerStreamWindow, ExtrasToJson(WorkerStreamWindow, Some(e))) == Some(e)
  {
    assert ExtrasFromJson(WorkerStreamWindow, ExtrasToJson(WorkerStreamWindow, Some(e))).value == e;
  }

  lemma EndRoundTrip(e: Record)
    requires ValidateExtras(WorkerSessionEnd, Some(e))
    ensures ExtrasFromJson(WorkerSessionEnd, ExtrasToJson(WorkerSessionEnd, Some(e))) == Some(e)
  {
    assert ExtrasFromJson(WorkerSessionEnd, ExtrasToJson(WorkerSessionEnd, Some(e))).value == e;
  }

  lemma EscalationRoundTrip(e: Record)
    requires ValidateExtras(WorkerEscalation, Some(e))
    ensures ExtrasFromJson(WorkerEscalation, ExtrasToJson(WorkerEscalation, Some(e))) == Some(e)
  {
    assert ExtrasFromJson(WorkerEscalation, ExtrasToJson(WorkerEscalation, Some(e))).value == e;
  }

  lemma SmallRoundTrip(kind: Kind, e: Record)
    requires ValidateExtras(kind, Some(e))
    requires kind.UserClarifyAnswer? || kind.WorkerNotification? || kind.WorkerCompletionClaim?
          || kind.WatcherObservation? || kind.HostEvent?
    ensures ExtrasFromJson(kind, ExtrasToJson(kind, Some(e))) == Some(e)
  {
    assert ExtrasFromJson(kind, ExtrasToJson(kind, Some(e))).value == e;
  }

  lemma VerdictRoundTrip(e: Record)
    requires ValidateExtras(ReviewerVerdict, Some(e))
    ensures ExtrasFromJson(ReviewerVerdict, ExtrasToJson(ReviewerVerdict, Some(e))) == Some(e) <==>
            IssuesAreObjects(ReviewerVerdict, Some(e))
  {
    var r := ExtrasFromJson(ReviewerVerdict, ExtrasToJson(ReviewerVerdict, Some(e))).value;
    SpreadAllIff(e["issues"].elements);
    assert r["issues"] == Arr(SpreadAll(e["issues"].elements));
    if SpreadAll(e["issues"].elements) == e["issues"].elements { assert r == e; }
  }

  // ---- searching by a field ----

  /** The key under which a field of the extras is found on disk (`EXTRAS_KEY_MAP`). */
  function JsonKey(kind: Kind, field: string): string {
    match kind
    case UserUpload =>
      if field == "uploadId" then "upload_id" else if field == "sizeBytes" then "size_bytes"
      else if field == "uploadedAt" then "uploaded_at" else field
    case WorkerEscalation =>
      if field == "workerSessionId" then "worker_session_id" else if field == "sessionSeq" then "session_seq"
      else if field == "exitIntent" then "exit_intent" else field
    case WorkerNotification =>
      if field == "workerSessionId" then "worker_session_id" else if field == "sessionSeq" then "session_seq" else field
    case WorkerCompletionClaim =>
      if field == "workerSessionId" then "worker_session_id" else if field == "sessionSeq" then "session_seq" else field
    case WorkerSessionEnd =>
      if field == "workerSessionId" then "worker_session_id" else if field == "sessionSeq" then "session_seq"
      else if field == "exitReason" then "exit_reason"
      else if field == "doneCriteriaOutcome" then "done_criteria_outcome" else field
    case WatcherObservation =>
      if field == "watcherSessionId" then "watcher_session_id"
      else if field == "evidenceRefs" then "evidence_refs" else field
    case ReviewerVerdict =>
      if field == "reviewerPhase" then "reviewer_phase" else if field == "reviewerRound" then "reviewer_round" else field
    case HostEvent => if field == "eventKind" then "event_kind" else field
    case WorkerStreamWindow =>
      if field == "windowStart" then "window_start" else if field == "windowEnd" then "window_end"
      else if field == "workerSessionId" then "worker_session_id"
      else if field == "streamPath" then "stream_path" else field
    case _ => field
  }

  predicate SeesField(kind: Kind, e: Record, field: string, s: string) {
    var raw := ExtrasToJson(kind, Some(e));
    raw.Some? && field in e && (Get(raw.value, JsonKey(kind, field)) == Str(s) <==> e[field] == Str(s))
  }

  /** A search for a string field on disk finds exactly the accepted extras that hold that string:
      the key table agrees with the writer. */
  lemma SearchSeesField(kind: Kind, e: Record, field: string, s: string)
    requires ValidateExtras(kind, Some(e)) && field in e
    ensures SeesField(kind, e, field, s)
  {
    match kind
    case ReviewerVerdict => SearchSeesVerdict(e, field, s);
    case UserUpload => SearchSeesUpload(e, field, s);
    case WorkerSessionEnd => SearchSeesEnd(e, field, s);
    case WorkerStreamWindow => SearchSeesWindow(e, field, s);
    case _ => SearchSeesSmall(kind, e, field, s);
  }

  lemma SearchSeesVerdict(e: Record, field: string, s: string)
    requires ValidateExtras(ReviewerVerdict, Some(e)) && field in e
    ensures SeesField(ReviewerVerdict, e, field, s)
  {}

  lemma SearchSeesUpload(e: Record, field: string, s: string)
    requires ValidateExtras(UserUpload, Some(e)) && field in e
    ensures SeesField(UserUpload, e, field, s)
  {}

  lemma SearchSeesEnd(e: Record, field: string, s: string)
    requires ValidateExtras(WorkerSessionEnd, Some(e)) && field in e
    ensures SeesField(WorkerSessionEnd, e, field, s)
  {}

  lemma SearchSeesWindow(e: Record, field: string, s: string)
    requires ValidateExtras(WorkerStreamWindow, Some(e)) && field in e
    ensures SeesField(WorkerStreamWindow, e, field, s)
  {}

  lemma SearchSeesSmall(kind: Kind, e: Record, field: string, s: string)
    requires ValidateExtras(kind, Some(e)) && field in e
    requires !kind.ReviewerVerdict? && !kind.UserUpload? && !kind.WorkerSessionEnd? && !kind.WorkerStreamWindow?
    ensures SeesField(kind, e, field, s)
  {}
}
