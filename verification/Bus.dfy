/** The message bus over its event log (`src/messaging/bus.ts`, `src/messaging/state.ts`). Several
    processes append to the log, always under one lock; each keeps a cache of the folded log. */
module Bus {
  import opened Prelude
  import opened Extras
  import Recovery

  type Id = nat
  type Key = Recovery.Key

  datatype Channel = MetaChannel | WorkerChannel | WatcherChannel

  /** `state.jsonl`, one event a line. */
  datatype BusEvent =
    | Enqueued(id: Id, stateSeq: nat, channel: Channel, kind: Kind, createdAt: nat)
    | ReadBy(id: Id, stateSeq: nat, who: string)
    | RespondedBy(id: Id, stateSeq: nat, who: string)
    | Failed(id: Id, stateSeq: nat)

  /** The folded state of one envelope. */
  datatype Envelope = Envelope(channel: Channel, kind: Kind, createdAt: nat, stateSeq: nat,
                               readBy: Option<string>, respondedBy: Option<string>, failed: bool)

  type Cache = map<Id, Envelope>

  function Apply(m: Cache, e: BusEvent): Cache {
    match e
    case Enqueued(id, s, channel, kind, at) => m[id := Envelope(channel, kind, at, s, None, None, false)]
    case ReadBy(id, _, who) => if id in m then m[id := m[id].(readBy := Some(who))] else m
    case RespondedBy(id, _, who) => if id in m then m[id := m[id].(respondedBy := Some(who))] else m
    case Failed(id, _) => if id in m then m[id := m[id].(failed := true)] else m
  }

  function Fold(log: seq<BusEvent>): Cache {
    if log == [] then map[] else Apply(Fold(log[..|log| - 1]), log[|log| - 1])
  }

  lemma FoldSnoc(log: seq<BusEvent>, e: BusEvent)
    ensures Fold(log + [e]) == Apply(Fold(log), e)
  {
    assert (log + [e])[..|log|] == log;
  }

  /** The number that the next event gets: one more than that of any envelope, and no more than that. */
  ghost predicate IsNextSeq(m: Cache, s: nat) {
    && s >= 1
    && (forall id :: id in m ==> m[id].stateSeq < s)
    && (s > 1 ==> exists id :: id in m && m[id].stateSeq == s - 1)
  }

  // ---- pull order ----

  function KeyOf(e: Envelope): Key {
    Recovery.Key(e.createdAt, e.stateSeq)
  }

  function Candidates(m: Cache, channel: Channel, includeRead: bool): set<Id> {
    set id | id in m && m[id].channel == channel && !m[id].failed && (includeRead || m[id].readBy.None?)
  }

  /** `order` lists the ids of `s` once each, by ascending key. */
  predicate IsOrder(m: Cache, s: set<Id>, order: seq<Id>) {
    && s <= m.Keys
    && (forall i :: 0 <= i < |order| ==> order[i] in s)
    && (forall id :: id in s ==> id in order)
    && (forall i, j :: 0 <= i < j < |order| ==> order[i] != order[j])
    && (forall i, j :: 0 <= i < j < |order| ==> InKeyOrder(m, order[i], order[j]))
  }

  predicate InKeyOrder(m: Cache, a: Id, b: Id) {
    a in m && b in m && !Recovery.Above(KeyOf(m[a]), KeyOf(m[b]))
  }

  // ---- what the operations do to the folded state ----

  /** The effect of going through `ids`: an unreadable envelope becomes failed, and a readable one
      becomes read if the caller marks what it reads. */
  function ProcessOne(m: Cache, id: Id, readable: set<Id>, mark: Option<string>): Cache {
    if id !in m then m
    else if id !in readable then m[id := m[id].(failed := true)]
    else if mark.Some? && m[id].readBy.None? then m[id := m[id].(readBy := mark)]
    else m
  }

  function Processed(m: Cache, ids: seq<Id>, readable: set<Id>, mark: Option<string>): Cache {
    if ids == [] then m
    else ProcessOne(Processed(m, ids[..|ids| - 1], readable, mark), ids[|ids| - 1], readable, mark)
  }

  /** The effect of `markReadBatch`: what is known, alive and unread becomes read. */
  function MarkedRead(m: Cache, ids: seq<Id>, who: string): Cache {
    if ids == [] then m
    else
      var before, id := MarkedRead(m, ids[..|ids| - 1], who), ids[|ids| - 1];
      if id in before && !before[id].failed && before[id].readBy.None?
      then before[id := before[id].(readBy := Some(who))] else before
  }

  ghost predicate HasNewReader(m: Cache, after: Cache) {
    exists id :: id in m && id in after && m[id].readBy.None? && after[id].readBy.Some?
  }

  predicate CanRespond(m: Cache, id: Id) {
    id in m && !m[id].failed && m[id].channel.WorkerChannel?
  }

  /** The effect of `markResponded`. */
  function MarkedResponded(m: Cache, ids: seq<Id>, who: string): Cache {
    if ids == [] then m
    else
      var before, id := MarkedResponded(m, ids[..|ids| - 1], who), ids[|ids| - 1];
      if CanRespond(before, id) && before[id].respondedBy.None?
      then before[id := before[id].(respondedBy := Some(who))] else before
  }

  function Filtered(ids: seq<Id>, readable: set<Id>): seq<Id> {
    if ids == [] then []
    else
      var before, id := Filtered(ids[..|ids| - 1], readable), ids[|ids| - 1];
      if id in readable then before + [id] else before
  }

  /** Responding changes exactly the live worker envelopes in the list that have no answer yet. */
  lemma {:induction false} MarkedRespondedAt(m: Cache, ids: seq<Id>, who: string, id: Id)
    requires id in m
    ensures MarkedResponded(m, ids, who).Keys == m.Keys
    ensures MarkedResponded(m, ids, who)[id] ==
      if id in ids && m[id].channel == WorkerChannel && !m[id].failed && m[id].respondedBy.None?
      then m[id].(respondedBy := Some(who)) else m[id]
  {
    if ids != [] {
      var n := |ids| - 1;
      MarkedRespondedAt(m, ids[..n], who, id);
      assert ids == ids[..n] + [ids[n]];
    }
  }

  lemma MarkedRespondedKeys(m: Cache, ids: seq<Id>, who: string, id: Id)
    ensures id in MarkedResponded(m, ids, who) <==> id in m
  {
    if id in m {
      MarkedRespondedAt(m, ids, who, id);
    } else if k :| k in m {
      MarkedRespondedAt(m, ids, who, k);
    } else {
      NothingToRespond(m, ids, who);
    }
  }

  lemma {:induction false} NothingToRespond(m: Cache, ids: seq<Id>, who: string)
    requires m.Keys == {}
    ensures MarkedResponded(m, ids, who) == m
  {
    if ids != [] { NothingToRespond(m, ids[..|ids| - 1], who); }
  }

  /** Writing a reader only where there is none agrees with the fold's rule, where the last one stays,
      exactly if there is none or the same. */
  lemma ReadAgreesIff(m: Cache, id: Id, who: string)
    ensures (if id in m && m[id].readBy.None? then m[id := m[id].(readBy := Some(who))] else m)
              == Apply(m, ReadBy(id, 0, who))
            <==> (id in m && m[id].readBy.Some? ==> m[id].readBy == Some(who))
  {
    if id in m && m[id].readBy.Some? {
      var after := Apply(m, ReadBy(id, 0, who));
      assert after[id].readBy == Some(who);
      if m[id].readBy == Some(who) { assert after == m; }
    }
  }

  /** What `markResponded` reports about the ids of a call that found the state `m`. */
  ghost predicate Reports(m: Cache, ids: seq<Id>, r: Responses) {
    && |r.marked| + |r.alreadyResponded| + |r.notFound| + |r.notWorkerChannel| == |ids|
    && (forall id :: id in r.notFound <==> id in ids && (id !in m || m[id].failed))
    && (forall id :: id in r.notWorkerChannel <==> id in ids && id in m && !m[id].failed && !m[id].channel.WorkerChannel?)
    && (forall id :: id in r.marked <==> id in ids && CanRespond(m, id) && m[id].respondedBy.None?)
    && (forall id :: id in r.alreadyResponded ==> id in ids && CanRespond(m, id))
    && (forall id :: id in ids && CanRespond(m, id) && m[id].respondedBy.Some? ==> id in r.alreadyResponded)
  }

  datatype Responses = Responses(marked: seq<Id>, alreadyResponded: seq<Id>, notFound: seq<Id>, notWorkerChannel: seq<Id>)

  /** Where the next id goes, given the state `now` that the ids before it have left. */
  function Report(now: Cache, id: Id, r: Responses): Responses {
    if id !in now || now[id].failed then r.(notFound := r.notFound + [id])
    else if !now[id].channel.WorkerChannel? then r.(notWorkerChannel := r.notWorkerChannel + [id])
    else if now[id].respondedBy.Some? then r.(alreadyResponded := r.alreadyResponded + [id])
    else r.(marked := r.marked + [id])
  }

  lemma ReportMore(m: Cache, ids: seq<Id>, i: nat, who: string, r: Responses)
    requires i < |ids| && Reports(m, ids[..i], r)
    ensures Reports(m, ids[..i + 1], Report(MarkedResponded(m, ids[..i], who), ids[i], r))
  {
    assert ids[..i + 1] == ids[..i] + [ids[i]];
    MarkedRespondedKeys(m, ids[..i], who, ids[i]);
    if ids[i] in m { MarkedRespondedAt(m, ids[..i], who, ids[i]); }
  }

  lemma OneMore(m: Cache, ids: seq<Id>, i: nat, readable: set<Id>, mark: Option<string>)
    requires i < |ids|
    ensures Processed(m, ids[..i + 1], readable, mark) ==
      ProcessOne(Processed(m, ids[..i], readable, mark), ids[i], readable, mark)
    ensures Filtered(ids[..i + 1], readable) ==
      if ids[i] in readable then Filtered(ids[..i], readable) + [ids[i]] else Filtered(ids[..i], readable)
  {
    assert ids[..i + 1][..i] == ids[..i];
  }

  /** Which kinds of envelopes a channel carries. */
  predicate IsKindAllowedForChannel(channel: Channel, kind: Kind) {
    match channel
    case MetaChannel => !kind.MetaInstruction? && !kind.MetaInterrupt? && !kind.WorkerStreamWindow?
    case WorkerChannel => kind.MetaInstruction? || kind.MetaInterrupt?
    case WatcherChannel => kind.MetaInstruction? || kind.WorkerStreamWindow?
  }

  predicate IsAccepted(channel: Channel, kind: Kind, extras: Option<Record>) {
    IsKindAllowedForChannel(channel, kind) && ValidateExtras(kind, extras)
  }

  class StateFile {
    var events: seq<BusEvent>

    constructor ()
      ensures events == []
    {
      events := [];
    }
  }

  class MessagingBus {
    const file: StateFile
    var envelopes: Cache

    constructor (file: StateFile)
      ensures this.file == file && envelopes == map[]
    {
      this.file := file;
      envelopes := map[];
    }

    /** The cache is the fold of the whole log. */
    ghost predicate Synced()
      reads this, file
    {
      envelopes == Fold(file.events)
    }

    method RefreshLocked()
      modifies `envelopes
      ensures Synced()
    {
      var next: Cache := map[];
      for i := 0 to |file.events|
        invariant next == Fold(file.events[..i])
      {
        assert file.events[..i + 1][..i] == file.events[..i];
        var e := file.events[i];
        match e {
          case Enqueued(id, s, channel, kind, at) => next := next[id := Envelope(channel, kind, at, s, None, None, false)];
          case ReadBy(id, _, who) => if id in next { next := next[id := next[id].(readBy := Some(who))]; }
          case RespondedBy(id, _, who) => if id in next { next := next[id := next[id].(respondedBy := Some(who))]; }
          case Failed(id, _) => if id in next { next := next[id := next[id].(failed := true)]; }
        }
      }
      assert file.events[..|file.events|] == file.events;
      envelopes := next;
    }

    method MaxStateSeq() returns (max: nat)
      ensures IsNextSeq(envelopes, max + 1)
    {
      max := 0;
      var rest := envelopes.Keys;
      while rest != {}
        invariant rest <= envelopes.Keys
        invariant forall id :: id in envelopes && id !in rest ==> envelopes[id].stateSeq <= max
        invariant max > 0 ==> exists id :: id in envelopes && envelopes[id].stateSeq == max
        decreases |rest|
      {
        var id :| id in rest;
        if envelopes[id].stateSeq > max { max := envelopes[id].stateSeq; }
        rest := rest - {id};
      }
    }

    method AppendLine(e: BusEvent)
      modifies file
      ensures file.events == old(file.events) + [e]
    {
      file.events := file.events + [e];
    }

    /** Wrong arguments are refused before the lock. `payloadOk` and `appendOk` are the outcomes of writing
        the payload, which comes first, and of appending the event. */
    method Enqueue(id: Id, channel: Channel, kind: Kind, extras: Option<Record>, createdAt: nat,
                   payloadOk: bool, appendOk: bool) returns (ok: bool)
      modifies file, `envelopes
      ensures ok <==> IsAccepted(channel, kind, extras) && payloadOk && appendOk
      ensures if IsAccepted(channel, kind, extras) then Synced() else envelopes == old(envelopes)
      ensures !ok ==> file.events == old(file.events)
      ensures ok ==> exists s ::
        IsNextSeq(Fold(old(file.events)), s) && file.events == old(file.events) + [Enqueued(id, s, channel, kind, createdAt)]
    {
      if !IsKindAllowedForChannel(channel, kind) { return false; }
      if !ValidateExtras(kind, extras) { return false; }
      RefreshLocked();
      var max := MaxStateSeq();
      if !payloadOk || !appendOk { return false; }
      FoldSnoc(file.events, Enqueued(id, max + 1, channel, kind, createdAt));
      AppendLine(Enqueued(id, max + 1, channel, kind, createdAt));
      envelopes := envelopes[id := Envelope(channel, kind, createdAt, max + 1, None, None, false)];
      return true;
    }

    /** The cache keeps the first reader and the fold the last one, so they agree afterwards exactly
        if the envelope was unread, or read by the same reader. */
    method AppendReadLocked(id: Id, who: string)
      requires Synced()
      modifies file, `envelopes
      ensures exists s :: IsNextSeq(Fold(old(file.events)), s) && file.events == old(file.events) + [ReadBy(id, s, who)]
      ensures Fold(file.events) == Apply(Fold(old(file.events)), ReadBy(id, 0, who)) && old(file.events) <= file.events
      ensures Synced() <==> (id in old(envelopes) && old(envelopes)[id].readBy.Some? ==>
                               old(envelopes)[id].readBy == Some(who))
    {
      var max := MaxStateSeq();
      FoldSnoc(file.events, ReadBy(id, max + 1, who));
      AppendLine(ReadBy(id, max + 1, who));
      ReadAgreesIff(envelopes, id, who);
      if id in envelopes && envelopes[id].readBy.None? {
        envelopes := envelopes[id := envelopes[id].(readBy := Some(who))];
      }
    }

    method AppendFailedLocked(id: Id)
      requires Synced()
      modifies file, `envelopes
      ensures exists s :: IsNextSeq(Fold(old(file.events)), s) && file.events == old(file.events) + [Failed(id, s)]
      ensures Synced() && Fold(file.events) == Apply(Fold(old(file.events)), Failed(id, 0))
      ensures old(file.events) <= file.events
    {
      var max := MaxStateSeq();
      FoldSnoc(file.events, Failed(id, max + 1));
      AppendLine(Failed(id, max + 1));
      if id in envelopes { envelopes := envelopes[id := envelopes[id].(failed := true)]; }
    }

    method ProcessLocked(id: Id, readable: set<Id>, mark: Option<string>)
      requires Synced() && id in envelopes
      modifies file, `envelopes
      ensures Synced() && old(file.events) <= file.events
      ensures envelopes == ProcessOne(old(envelopes), id, readable, mark) && envelopes.Keys == old(envelopes.Keys)
      ensures id in readable && mark.None? ==> file.events == old(file.events)
    {
      if id !in readable {
        AppendFailedLocked(id);
      } else if mark.Some? && envelopes[id].readBy.None? {
        AppendReadLocked(id, mark.value);
      }
    }

    method SortedCandidates(channel: Channel, includeRead: bool) returns (order: seq<Id>)
      ensures IsOrder(envelopes, Candidates(envelopes, channel, includeRead), order)
    {
      order := SortByKey(envelopes, Candidates(envelopes, channel, includeRead));
    }

    /** The loop of `pull` and `peekUnread`. Nothing but an unreadable payload on a channel other than
        the worker's stops it, and then what came before has been processed. */
    method ProcessInOrder(order: seq<Id>, channel: Channel, readable: set<Id>, mark: Option<string>)
      returns (thrown: bool, delivered: seq<Id>, ghost k: nat)
      requires Synced() && forall i :: 0 <= i < |order| ==> order[i] in envelopes
      modifies file, `envelopes
      ensures Synced() && old(file.events) <= file.events
      ensures k <= |order| && envelopes == Processed(old(envelopes), order[..k], readable, mark)
      ensures thrown <==> k < |order|
      ensures thrown ==> !channel.WorkerChannel? && order[k] !in readable && forall j :: 0 <= j < k ==> order[j] in readable
      ensures !thrown ==> channel == WorkerChannel || forall j :: 0 <= j < |order| ==> order[j] in readable
      ensures !thrown ==> delivered == Filtered(order, readable)
      ensures !channel.WorkerChannel? && mark.None? ==> file.events == old(file.events)
    {
      delivered := [];
      thrown := false;
      k := 0;
      for i := 0 to |order|
        invariant Synced() && old(file.events) <= file.events
        invariant k == i && delivered == Filtered(order[..i], readable)
        invariant envelopes == Processed(old(envelopes), order[..i], readable, mark)
        invariant envelopes.Keys == old(envelopes.Keys)
        invariant !channel.WorkerChannel? && mark.None? ==> file.events == old(file.events)
        invariant !channel.WorkerChannel? ==> forall j :: 0 <= j < i ==> order[j] in readable
      {
        if order[i] !in readable && !channel.WorkerChannel? { return true, [], k; }
        OneMore(old(envelopes), order, i, readable, mark);
        ProcessLocked(order[i], readable, mark);
        if order[i] in readable { delivered := delivered + [order[i]]; }
        k := k + 1;
      }
      assert order[..|order|] == order;
    }

    /** What is delivered becomes read, in key order. */
    method Pull(channel: Channel, includeRead: bool, who: string, readable: set<Id>)
      returns (thrown: bool, delivered: seq<Id>, ghost order: seq<Id>, ghost k: nat)
      modifies file, `envelopes
      ensures Synced() && old(file.events) <= file.events
      ensures var m := Fold(old(file.events)); IsOrder(m, Candidates(m, channel, includeRead), order)
      ensures k <= |order| && Fold(file.events) == Processed(Fold(old(file.events)), order[..k], readable, Some(who))
      ensures thrown <==> k < |order|
      ensures thrown ==> !channel.WorkerChannel? && order[k] !in readable && forall j :: 0 <= j < k ==> order[j] in readable
      ensures !thrown ==> channel == WorkerChannel || forall j :: 0 <= j < |order| ==> order[j] in readable
      ensures !thrown ==> delivered == Filtered(order, readable)
    {
      RefreshLocked();
      var candidates := SortedCandidates(channel, includeRead);
      order := candidates;
      thrown, delivered, k := ProcessInOrder(candidates, channel, readable, Some(who));
    }

    /** Like `Pull`, but nothing becomes read. */
    method PeekUnread(channel: Channel, readable: set<Id>)
      returns (thrown: bool, unread: seq<Id>, ghost order: seq<Id>, ghost k: nat)
      modifies file, `envelopes
      ensures Synced() && old(file.events) <= file.events
      ensures var m := Fold(old(file.events)); IsOrder(m, Candidates(m, channel, false), order)
      ensures k <= |order| && Fold(file.events) == Processed(Fold(old(file.events)), order[..k], readable, None)
      ensures thrown <==> k < |order|
      ensures thrown ==> !channel.WorkerChannel? && order[k] !in readable && forall j :: 0 <= j < k ==> order[j] in readable
      ensures !thrown ==> channel == WorkerChannel || forall j :: 0 <= j < |order| ==> order[j] in readable
      ensures !thrown ==> unread == Filtered(order, readable)
      ensures !channel.WorkerChannel? ==> file.events == old(file.events)
    {
      RefreshLocked();
      var candidates := SortedCandidates(channel, false);
      order := candidates;
      thrown, unread, k := ProcessInOrder(candidates, channel, readable, None);
    }

    method MarkReadBatch(ids: seq<Id>, who: string)
      modifies file, `envelopes
      ensures Synced() && old(file.events) <= file.events
      ensures Fold(file.events) == MarkedRead(Fold(old(file.events)), ids, who)
      ensures Fold(file.events) == Fold(old(file.events)) ==> file.events == old(file.events)
    {
      RefreshLocked();
      for i := 0 to |ids|
        invariant Synced() && old(file.events) <= file.events
        invariant file.events != old(file.events) ==> HasNewReader(Fold(old(file.events)), envelopes)
        invariant envelopes == MarkedRead(Fold(old(file.events)), ids[..i], who)
      {
        assert ids[..i + 1][..i] == ids[..i];
        if ids[i] !in envelopes || envelopes[ids[i]].failed || envelopes[ids[i]].readBy.Some? { continue; }
        AppendReadLocked(ids[i], who);
      }
      assert ids[..|ids|] == ids;
    }

    method RespondOne(id: Id, who: string, before: Responses) returns (r: Responses)
      requires Synced()
      modifies file, `envelopes
      ensures Synced() && old(file.events) <= file.events
      ensures r == Report(old(envelopes), id, before)
      ensures if r.marked == before.marked then file.events == old(file.events)
              else exists s :: IsNextSeq(Fold(old(file.events)), s) && file.events == old(file.events) + [RespondedBy(id, s, who)]
      ensures envelopes == if r.marked == before.marked then old(envelopes)
                           else old(envelopes)[id := old(envelopes)[id].(respondedBy := Some(who))]
    {
      if id !in envelopes || envelopes[id].failed { return before.(notFound := before.notFound + [id]); }
      if !envelopes[id].channel.WorkerChannel? { return before.(notWorkerChannel := before.notWorkerChannel + [id]); }
      if envelopes[id].respondedBy.Some? { return before.(alreadyResponded := before.alreadyResponded + [id]); }
      var max := MaxStateSeq();
      FoldSnoc(file.events, RespondedBy(id, max + 1, who));
      AppendLine(RespondedBy(id, max + 1, who));
      envelopes := envelopes[id := envelopes[id].(respondedBy := Some(who))];
      return before.(marked := before.marked + [id]);
    }

    method MarkResponded(ids: seq<Id>, who: string) returns (r: Responses)
      modifies file, `envelopes
      ensures Synced() && old(file.events) <= file.events
      ensures Fold(file.events) == MarkedResponded(Fold(old(file.events)), ids, who)
      ensures Reports(Fold(old(file.events)), ids, r)
    {
      RefreshLocked();
      r := Responses([], [], [], []);
      ghost var m := envelopes;
      for i := 0 to |ids|
        invariant Synced() && old(file.events) <= file.events
        invariant envelopes == MarkedResponded(m, ids[..i], who)
        invariant Reports(m, ids[..i], r)
      {
        ReportMore(m, ids, i, who, r);
        assert ids[..i + 1][..i] == ids[..i];
        r := RespondOne(ids[i], who, r);
      }
      assert ids[..|ids|] == ids;
    }
  }

  method SortByKey(m: Cache, ids: set<Id>) returns (order: seq<Id>)
    requires ids <= m.Keys
    ensures IsOrder(m, ids, order)
  {
    order := [];
    var rest := ids;
    while rest != {}
      invariant rest <= ids && IsOrder(m, ids - rest, order)
      decreases |rest|
    {
      var id :| id in rest;
      order := Insert(m, order, id, ids - rest);
      OneLess(ids, rest, id);
      rest := rest - {id};
    }
    assert ids - rest == ids;
  }

  /** Insertion by key, behind equal keys. */
  method Insert(m: Cache, order: seq<Id>, id: Id, ghost s: set<Id>) returns (r: seq<Id>)
    requires IsOrder(m, s, order) && id in m && id !in s
    ensures IsOrder(m, s + {id}, r)
  {
    var k := |order|;
    while k > 0 && Recovery.Above(KeyOf(m[order[k - 1]]), KeyOf(m[id]))
      invariant 0 <= k <= |order|
      invariant forall j :: k <= j < |order| ==> Recovery.Above(KeyOf(m[order[j]]), KeyOf(m[id]))
    {
      k := k - 1;
    }
    r := order[..k] + [id] + order[k..];
    assert forall j :: 0 <= j < k ==> InKeyOrder(m, order[j], id) by {
      if k > 0 { forall j | 0 <= j < k ensures InKeyOrder(m, order[j], id) { KeysTransitive(m, order, j, k - 1, id); } }
    }
    Inserted(m, s, order, id, k, r);
  }

  lemma KeysTransitive(m: Cache, order: seq<Id>, j: nat, k: nat, id: Id)
    requires j <= k < |order| && id in m && InKeyOrder(m, order[k], id)
    requires forall a, b :: 0 <= a < b < |order| ==> InKeyOrder(m, order[a], order[b])
    ensures InKeyOrder(m, order[j], id)
  {}

  /** What stands where after the insertion. */
  function Place(order: seq<Id>, id: Id, k: nat, i: nat): Id
    requires k <= |order| && i <= |order|
  {
    if i < k then order[i] else if i == k then id else order[i - 1]
  }

  lemma InsertedMembers(order: seq<Id>, id: Id, k: nat, r: seq<Id>)
    requires k <= |order| && r == order[..k] + [id] + order[k..]
    ensures |r| == |order| + 1 && forall i :: 0 <= i < |r| ==> r[i] == Place(order, id, k, i)
    ensures forall x :: x in r <==> x == id || x in order
  {
    assert id == r[k];
    forall x | x in order ensures x in r {
      var i :| 0 <= i < |order| && order[i] == x;
      assert r[if i < k then i else i + 1] == x;
    }
  }

  lemma InsertedInOrder(m: Cache, order: seq<Id>, id: Id, k: nat, i: nat, j: nat)
    requires k <= |order| && i < j <= |order| && id !in order
    requires forall a, b :: 0 <= a < b < |order| ==> order[a] != order[b] && InKeyOrder(m, order[a], order[b])
    requires forall a :: 0 <= a < k ==> InKeyOrder(m, order[a], id)
    requires forall a :: k <= a < |order| ==> InKeyOrder(m, id, order[a])
    ensures Place(order, id, k, i) != Place(order, id, k, j)
    ensures InKeyOrder(m, Place(order, id, k, i), Place(order, id, k, j))
  {}

  lemma Inserted(m: Cache, s: set<Id>, order: seq<Id>, id: Id, k: nat, r: seq<Id>)
    requires IsOrder(m, s, order) && id in m && id !in s && k <= |order| && r == order[..k] + [id] + order[k..]
    requires forall j :: 0 <= j < k ==> InKeyOrder(m, order[j], id)
    requires forall j :: k <= j < |order| ==> InKeyOrder(m, id, order[j])
    ensures IsOrder(m, s + {id}, r)
  {
    InsertedMembers(order, id, k, r);
    forall i, j | 0 <= i < j < |r| ensures r[i] != r[j] && InKeyOrder(m, r[i], r[j]) {
      InsertedInOrder(m, order, id, k, i, j);
    }
    forall i | 0 <= i < |r| ensures r[i] in s + {id} { assert r[i] in r; }
  }
}
