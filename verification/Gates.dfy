/** The review gates of the stage machine, as questions to the bus (`src/host/stage_machine.ts`,
    `src/messaging/bus.ts`). */
module Gates {
  import opened Prelude
  import opened Extras
  import opened Matching
  import opened Bus
  import Recovery

  type Key = Recovery.Key

  /** The payloads that can be read, with the extras as they are on disk. */
  type Payloads = map<Id, Option<Record>>

  /** A live envelope of a kind. */
  predicate IsLive(m: Cache, id: Id, kind: Kind) {
    id in m && m[id].kind == kind && !m[id].failed
  }

  /** The greatest key of the live envelopes of a kind. */
  method FindLatestEnvelopeAnchorOfKind(m: Cache, kind: Kind) returns (latest: Option<Key>)
    ensures latest.None? <==> forall id :: id in m ==> !IsLive(m, id, kind)
    ensures latest.Some? ==> exists id :: IsLive(m, id, kind) && KeyOf(m[id]) == latest.value
    ensures latest.Some? ==> forall id :: IsLive(m, id, kind) ==> !Recovery.Above(KeyOf(m[id]), latest.value)
  {
    latest := None;
    var rest := m.Keys;
    while rest != {}
      invariant rest <= m.Keys
      invariant latest.None? <==> forall id :: id in m && id !in rest ==> !IsLive(m, id, kind)
      invariant latest.Some? ==> exists id :: IsLive(m, id, kind) && KeyOf(m[id]) == latest.value
      invariant latest.Some? ==>
        forall id :: IsLive(m, id, kind) && id !in rest ==> !Recovery.Above(KeyOf(m[id]), latest.value)
      decreases |rest|
    {
      var id :| id in rest;
      rest := rest - {id};
      if m[id].kind != kind || m[id].failed { continue; }
      assert IsLive(m, id, kind);
      if latest.None? || Recovery.Above(KeyOf(m[id]), latest.value) { latest := Some(KeyOf(m[id])); }
    }
  }

  /** A live envelope after `since` whose payload can be read and holds all that is wanted. */
  predicate IsHit(m: Cache, payloads: Payloads, kind: Kind, wanted: map<string, Value>, since: Option<Key>, id: Id) {
    && IsLive(m, id, kind)
    && (since.Some? ==> Recovery.Above(KeyOf(m[id]), since.value))
    && id in payloads && payloads[id].Some? && Holds(payloads[id].value, wanted)
  }

  /** `wanted` has the keys that are used on disk; searching for nothing is an error. An unreadable payload
      is skipped, it does not block the search. */
  method HasEnvelopeWithExtrasAfter(m: Cache, payloads: Payloads, kind: Kind, wanted: map<string, Value>, since: Option<Key>)
    returns (found: Option<bool>)
    ensures found.None? <==> wanted == map[]
    ensures found.Some? ==> (found.value <==> exists id :: id in m && IsHit(m, payloads, kind, wanted, since, id))
  {
    if wanted == map[] { return None; }
    var rest := m.Keys;
    while rest != {}
      invariant rest <= m.Keys
      invariant forall id :: id in m && id !in rest ==> !IsHit(m, payloads, kind, wanted, since, id)
      decreases |rest|
    {
      var id :| id in rest;
      rest := rest - {id};
      if m[id].kind != kind || m[id].failed { continue; }
      if since.Some? && !Recovery.Above(KeyOf(m[id]), since.value) { continue; }
      if id !in payloads { continue; }
      if payloads[id] == None { continue; }
      if Holds(payloads[id].value, wanted) {
        assert IsHit(m, payloads, kind, wanted, since, id);
        return Some(true);
      }
    }
    return Some(false);
  }

  /** The gates look for one string. */
  predicate IsMatch(m: Cache, payloads: Payloads, kind: Kind, field: string, value: string, since: Option<Key>, id: Id) {
    && IsLive(m, id, kind)
    && (since.Some? ==> Recovery.Above(KeyOf(m[id]), since.value))
    && id in payloads && payloads[id].Some? && Get(payloads[id].value, JsonKey(kind, field)) == Str(value)
  }

  method HasString(m: Cache, payloads: Payloads, kind: Kind, field: string, value: string, since: Option<Key>)
    returns (found: bool)
    ensures found <==> exists id :: id in m && IsMatch(m, payloads, kind, field, value, since, id)
  {
    var wanted: map<string, Value> := map[JsonKey(kind, field) := Str(value)];
    assert JsonKey(kind, field) in wanted;
    var hit := HasEnvelopeWithExtrasAfter(m, payloads, kind, wanted, since);
    found := hit.value;
    forall id | id in m
      ensures IsHit(m, payloads, kind, wanted, since, id)
              <==> IsMatch(m, payloads, kind, field, value, since, id)
    {
      if id in payloads && payloads[id].Some? { HoldsString(payloads[id].value, JsonKey(kind, field), value); }
    }
  }

  /** A reviewer's verdict of a phase, live and readable. */
  predicate IsVerdict(m: Cache, payloads: Payloads, phase: string, id: Id) {
    IsMatch(m, payloads, ReviewerVerdict, "reviewerPhase", phase, None, id)
  }

  ghost predicate HasVerdict(m: Cache, payloads: Payloads, phase: string) {
    exists id :: id in m && IsVerdict(m, payloads, phase, id)
  }

  /** A final review that is later than every live completion claim. */
  ghost predicate FinalReviewDone(m: Cache, payloads: Payloads) {
    || (forall c :: c in m ==> !IsLive(m, c, WorkerCompletionClaim))
    || exists v :: v in m && IsVerdict(m, payloads, "final_review", v) && AfterAllClaims(m, v)
  }

  ghost predicate AfterAllClaims(m: Cache, v: Id)
    requires v in m
  {
    forall c :: IsLive(m, c, WorkerCompletionClaim) ==> Recovery.Above(KeyOf(m[v]), KeyOf(m[c]))
  }

  /** `bus` is absent when the messaging bus is not initialized; the gate then fails closed. */
  method CheckBootstrapGate(bus: Option<Cache>, payloads: Payloads) returns (passed: bool)
    ensures passed <==> bus.Some? && HasVerdict(bus.value, payloads, "bootstrap_self_review")
  {
    if bus == None { return false; }
    passed := HasString(bus.value, payloads, ReviewerVerdict, "reviewerPhase", "bootstrap_self_review", None);
  }

  /** On one snapshot the gate passes exactly when there is no live claim, or a live and readable
      final review whose key is strictly above the greatest key of the claims. */
  method CheckFinalReviewGate(bus: Option<Cache>, payloads: Payloads) returns (passed: bool)
    ensures passed <==> bus.Some? && FinalReviewDone(bus.value, payloads)
  {
    if bus == None { return false; }
    var m := bus.value;
    var anchor := FindLatestEnvelopeAnchorOfKind(m, WorkerCompletionClaim);
    if anchor == None { return true; }
    passed := HasString(m, payloads, ReviewerVerdict, "reviewerPhase", "final_review", anchor);
    AnchorDecides(m, payloads, anchor.value);
  }

  /** Being above the greatest key of the claims is being above all of them. */
  lemma AnchorDecides(m: Cache, payloads: Payloads, anchor: Key)
    requires exists c :: IsLive(m, c, WorkerCompletionClaim) && KeyOf(m[c]) == anchor
    requires forall c :: IsLive(m, c, WorkerCompletionClaim) ==> !Recovery.Above(KeyOf(m[c]), anchor)
    ensures (exists id :: id in m && IsMatch(m, payloads, ReviewerVerdict, "reviewerPhase", "final_review", Some(anchor), id))
            <==> FinalReviewDone(m, payloads)
  {
    forall v | v in m
      ensures IsMatch(m, payloads, ReviewerVerdict, "reviewerPhase", "final_review", Some(anchor), v)
              <==> IsVerdict(m, payloads, "final_review", v) && AfterAllClaims(m, v)
    {}
  }

  /** For payloads written by the bus, the gate sees the phase that the sender put into the extras. */
  lemma VerdictSeesPhase(m: Cache, payloads: Payloads, id: Id, e: Record, phase: string)
    requires IsLive(m, id, ReviewerVerdict) && ValidateExtras(ReviewerVerdict, Some(e))
    requires id in payloads && payloads[id] == ExtrasToJson(ReviewerVerdict, Some(e))
    ensures IsVerdict(m, payloads, phase, id) <==> e["reviewerPhase"] == Str(phase)
  {
    SearchSeesField(ReviewerVerdict, e, "reviewerPhase", phase);
  }
}
