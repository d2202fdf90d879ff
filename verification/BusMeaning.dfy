/** What the events of the bus mean to those who read it. */
module BusMeaning {
  import opened Prelude
  import opened Extras
  import opened Matching
  import opened Bus
  import opened BusOrder
  import opened Gates
  import Recovery

  // ---- the order ----

  /** Created earlier, or at the same time with a number that is not greater. */
  predicate NotLater(e: Envelope, f: Envelope) {
    e.createdAt < f.createdAt || (e.createdAt == f.createdAt && e.stateSeq <= f.stateSeq)
  }

  /** Envelopes are pulled by the time of their creation, and at the same time by their number. */
  lemma PulledByTime(m: Cache, s: set<Id>, order: seq<Id>, i: nat, j: nat)
    requires IsOrder(m, s, order) && i < j < |order|
    ensures order[i] in m && order[j] in m && NotLater(m[order[i]], m[order[j]])
  {
    assert InKeyOrder(m, order[i], order[j]);
  }

  /** Two keys are ordered by time, then by number. */
  lemma AboveIff(e: Envelope, f: Envelope)
    ensures Recovery.Above(KeyOf(f), KeyOf(e)) <==> NotLater(e, f) && (e.createdAt, e.stateSeq) != (f.createdAt, f.stateSeq)
  {}

  /** The anchor of a gate is the key of a live envelope that no other one is later than. */
  lemma AnchorByTime(m: Cache, kind: Kind, anchor: Key, id: Id)
    requires (exists a :: IsLive(m, a, kind) && KeyOf(m[a]) == anchor)
    requires forall c :: IsLive(m, c, kind) ==> !Recovery.Above(KeyOf(m[c]), anchor)
    requires IsLive(m, id, kind)
    ensures m[id].createdAt < anchor.createdAt || (m[id].createdAt == anchor.createdAt && m[id].stateSeq <= anchor.stateSeq)
  {}

  /** Delivered is what can be read, in the order of the candidates. */
  lemma {:induction false} DeliveredIff(order: seq<Id>, readable: set<Id>, id: Id)
    ensures id in Filtered(order, readable) <==> id in order && id in readable
  {
    if order != [] {
      var n := |order| - 1;
      DeliveredIff(order[..n], readable, id);
      assert order == order[..n] + [order[n]];
    }
  }

  lemma {:induction false} DeliveredInOrder(order: seq<Id>, readable: set<Id>, i: nat, j: nat)
    requires i < j < |Filtered(order, readable)|
    requires forall a, b :: 0 <= a < b < |order| ==> order[a] != order[b]
    ensures exists a, b :: 0 <= a < b < |order| && order[a] == Filtered(order, readable)[i]
                                               && order[b] == Filtered(order, readable)[j]
  {
    var n := |order| - 1;
    var front := Filtered(order[..n], readable);
    if j < |front| {
      DeliveredInOrder(order[..n], readable, i, j);
      var a, b :| 0 <= a < b < n && order[..n][a] == front[i] && order[..n][b] == front[j];
      assert order[a] == front[i] && order[b] == front[j];
    } else {
      DeliveredIff(order[..n], readable, front[i]);
      var a :| 0 <= a < n && order[..n][a] == front[i];
      assert order[a] == front[i] && order[n] == Filtered(order, readable)[j];
    }
  }

  // ---- a new envelope ----

  ghost predicate OthersSame(m: Cache, after: Cache, id: Id) {
    forall k :: k != id ==> (k in after <==> k in m) && (k in m ==> after[k] == m[k])
  }

  /** A new envelope shows what was sent, unread and unanswered, and changes no other. */
  lemma EnqueueShows(log: seq<BusEvent>, e: BusEvent)
    requires e.Enqueued? && e.id !in Fold(log)
    ensures var m, after := Fold(log), Fold(log + [e]);
      && e.id in after && OthersSame(m, after, e.id)
      && after[e.id].channel == e.channel && after[e.id].kind == e.kind
      && after[e.id].createdAt == e.createdAt && after[e.id].stateSeq == e.stateSeq
      && after[e.id].readBy.None? && after[e.id].respondedBy.None? && !after[e.id].failed
  {
    FoldSnoc(log, e);
  }

  /** It reaches the readers of its channel and nobody else. */
  lemma EnqueueReaches(log: seq<BusEvent>, e: BusEvent, channel: Channel, includeRead: bool)
    requires e.Enqueued? && e.id !in Fold(log)
    ensures Candidates(Fold(log + [e]), channel, includeRead) ==
      Candidates(Fold(log), channel, includeRead) + (if channel == e.channel then {e.id} else {})
  {
    EnqueueShows(log, e);
  }

  /** In a log of new ids every enqueued envelope shows its channel and its kind for good. */
  lemma {:induction false} FoldShowsAll(log: seq<BusEvent>, i: nat)
    requires FreshIds(log) && i < |log| && log[i].Enqueued?
    ensures log[i].id in Fold(log)
    ensures Fold(log)[log[i].id].channel == log[i].channel && Fold(log)[log[i].id].kind == log[i].kind
  {
    var n := |log| - 1;
    assert log == log[..n] + [log[n]];
    FoldSnoc(log[..n], log[n]);
    if i < n { FoldShowsAll(log[..n], i); }
  }

  // ---- the other events ----

  /** An envelope that is read leaves the unread of its channel, and stays otherwise. */
  lemma ReadMeans(log: seq<BusEvent>, id: Id, number: nat, who: string, channel: Channel)
    requires id in Fold(log)
    ensures var m, after := Fold(log), Fold(log + [ReadBy(id, number, who)]);
      && id in after && OthersSame(m, after, id) && after[id] == m[id].(readBy := Some(who))
      && Candidates(after, channel, false) == Candidates(m, channel, false) - {id}
      && Candidates(after, channel, true) == Candidates(m, channel, true)
  {
    FoldSnoc(log, ReadBy(id, number, who));
  }

  /** An answer changes nothing about who can read. */
  lemma RespondedMeans(log: seq<BusEvent>, id: Id, number: nat, who: string, channel: Channel, includeRead: bool)
    requires id in Fold(log)
    ensures var m, after := Fold(log), Fold(log + [RespondedBy(id, number, who)]);
      && id in after && OthersSame(m, after, id) && after[id] == m[id].(respondedBy := Some(who))
      && Candidates(after, channel, includeRead) == Candidates(m, channel, includeRead)
  {
    FoldSnoc(log, RespondedBy(id, number, who));
  }

  /** A failed envelope is never delivered again. */
  lemma FailedMeans(log: seq<BusEvent>, id: Id, number: nat, channel: Channel, includeRead: bool)
    requires id in Fold(log)
    ensures var m, after := Fold(log), Fold(log + [Failed(id, number)]);
      && id in after && OthersSame(m, after, id) && after[id] == m[id].(failed := true)
      && Candidates(after, channel, includeRead) == Candidates(m, channel, includeRead) - {id}
  {
    FoldSnoc(log, Failed(id, number));
  }

  /** Events about an unknown envelope change nothing. */
  lemma UnknownMeans(log: seq<BusEvent>, e: BusEvent)
    requires !e.Enqueued? && e.id !in Fold(log)
    ensures Fold(log + [e]) == Fold(log)
  {
    FoldSnoc(log, e);
  }

  // ---- numbers, channels and gates ----

  /** The next number is one more than the greatest, and 1 in the beginning. */
  lemma NextNumber(m: Cache, s: nat)
    requires IsNextSeq(m, s)
    ensures m == map[] ==> s == 1
    ensures m != map[] && (forall id :: id in m ==> m[id].stateSeq >= 1) ==>
      (exists id :: id in m && m[id].stateSeq + 1 == s) && forall id :: id in m ==> m[id].stateSeq < s
  {
    if m != map[] {
      var k :| k in m;
      assert m[k].stateSeq < s;
    }
  }

  /** Which kinds each channel carries. */
  lemma KindsOfChannels(kind: Kind)
    ensures IsKindAllowedForChannel(WorkerChannel, kind) <==> kind in {MetaInstruction, MetaInterrupt}
    ensures IsKindAllowedForChannel(WatcherChannel, kind) <==> kind in {MetaInstruction, WorkerStreamWindow}
    ensures IsKindAllowedForChannel(MetaChannel, kind) <==>
      kind in {UserFeedback, UserUpload, UserClarifyAnswer, WorkerEscalation, WorkerNotification, WorkerCompletionClaim,
               WorkerSessionEnd, WatcherObservation, ReviewerVerdict, HostEvent}
  {
    match kind
    case UserFeedback => case UserUpload => case UserClarifyAnswer => case WorkerEscalation => case WorkerNotification =>
    case WorkerCompletionClaim => case WorkerSessionEnd => case WatcherObservation => case ReviewerVerdict =>
    case HostEvent => case MetaInstruction => case MetaInterrupt => case WorkerStreamWindow =>
  }

  /** What the gates look for on disk. */
  lemma VerdictOnDisk(m: Cache, payloads: Payloads, phase: string, id: Id)
    ensures IsVerdict(m, payloads, phase, id) <==>
      && id in m && m[id].kind.ReviewerVerdict? && !m[id].failed
      && id in payloads && payloads[id].Some? && "reviewer_phase" in payloads[id].value
      && payloads[id].value["reviewer_phase"] == Str(phase)
  {}

  /** The final review comes after every live completion claim, by time and then by number. */
  lemma FinalReviewByTime(m: Cache, payloads: Payloads)
    ensures FinalReviewDone(m, payloads) <==>
      || (forall c :: c in m ==> !(m[c].kind.WorkerCompletionClaim? && !m[c].failed))
      || exists v :: v in m && IsVerdict(m, payloads, "final_review", v) && LaterThanClaims(m, v)
  {
    forall c | c in m ensures IsLive(m, c, WorkerCompletionClaim) <==> m[c].kind.WorkerCompletionClaim? && !m[c].failed {}
    forall v | v in m ensures AfterAllClaims(m, v) <==> LaterThanClaims(m, v) {}
  }

  ghost predicate LaterThanClaims(m: Cache, v: Id)
    requires v in m
  {
    forall c :: c in m && m[c].kind.WorkerCompletionClaim? && !m[c].failed ==>
      m[v].createdAt > m[c].createdAt || (m[v].createdAt == m[c].createdAt && m[v].stateSeq > m[c].stateSeq)
  }
}
