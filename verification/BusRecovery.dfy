/** Crash recovery of the message bus (`src/messaging/recovery.ts`). A payload directory is written
    before the event that enqueues it, so a crash leaves directories without an event, temporary
    directories or a partial last line, and recovery removes them. */
module BusRecovery {
  import opened Prelude
  import opened Extras
  import opened Bus

  /** Which of its two files a payload directory holds. */
  datatype Dir = Dir(hasPayload: bool, hasBody: bool)

  /** The messaging files: the complete lines of the log, whether a partial line follows them, the
      temporary directories, the directories named like an envelope, and all other directories. */
  datatype Files = Files(log: seq<BusEvent>, torn: bool, tmp: set<nat>, dirs: map<Id, Dir>, unknown: set<nat>)

  predicate IsComplete(dirs: map<Id, Dir>, id: Id) {
    id in dirs && dirs[id].hasPayload && dirs[id].hasBody
  }

  /** Enqueued, not failed, and without a complete payload. */
  function Missing(m: Cache, dirs: map<Id, Dir>): set<Id> {
    set id | id in m && !m[id].failed && !IsComplete(dirs, id)
  }

  /** The directories that stay: those of enqueued envelopes, and those that cannot be removed. */
  function Kept(m: Cache, dirs: map<Id, Dir>, stuck: set<Id>): map<Id, Dir> {
    map id | id in dirs && (id in m || id in stuck) :: dirs[id]
  }

  /** What goes wrong in a run: temporary directories and directories without an event that cannot be
      removed, envelopes that cannot be marked failed, and envelopes about which Meta cannot be told,
      before or after the payload of the message is in place. */
  datatype Faults = Faults(tmp: set<nat>, dirs: set<Id>, marks: set<Id>, tells: set<Id>, halves: set<Id>)

  const NoFaults := Faults({}, {}, {}, {}, {})

  /** The log and the directories agree, and nothing temporary is left. */
  predicate IsConsistent(f: Files) {
    && f.tmp == {} && !f.torn
    && Missing(Fold(f.log), f.dirs) == {}
    && (forall id :: id in f.dirs ==> id in Fold(f.log))
  }

  /** What recovery owes to whatever it finds, with whatever goes wrong. */
  ghost predicate IsRepair(before: Files, after: Files, x: Faults) {
    var m, missing := Fold(before.log), Missing(Fold(before.log), before.dirs);
    && after.tmp == before.tmp * x.tmp && !after.torn && after.unknown == before.unknown
    && before.log <= after.log
    && Missing(Fold(after.log), after.dirs) == missing * x.marks
    && (forall id :: id in after.dirs && id !in Fold(after.log) ==> (id in before.dirs && id in x.dirs) || x.halves != {})
    && (forall id :: id in m ==> SurvivesRepair(before, after, id, x.marks))
    && (missing <= x.marks ==> after.log == before.log && after.dirs == Kept(m, before.dirs, x.dirs))
  }

  /** A corrupt log was set aside: only the message about that is enqueued, and every payload directory
      is still there. */
  function Quarantined(f: Files, base: Id, now: nat): Files {
    Files([Enqueued(base, 1, MetaChannel, HostEvent, now)], false, {}, f.dirs[base := Dir(true, true)], f.unknown)
  }

  lemma FirstNumber(log: seq<BusEvent>, base: Id, now: nat)
    requires exists s :: IsNextSeq(Fold([]), s) && log == [] + [Enqueued(base, s, MetaChannel, HostEvent, now)]
    ensures log == [Enqueued(base, 1, MetaChannel, HostEvent, now)]
  {}

  /** An enqueued envelope keeps its state and its directory; it becomes failed exactly if its payload
      was missing and it can be marked. */
  ghost predicate SurvivesRepair(before: Files, after: Files, id: Id, unmarked: set<Id>)
    requires id in Fold(before.log)
  {
    && id in Fold(after.log)
    && Fold(after.log)[id] ==
         Fold(before.log)[id].(failed := Fold(before.log)[id].failed
                                         || id in Missing(Fold(before.log), before.dirs) - unmarked)
    && (id in before.dirs ==> id in after.dirs && after.dirs[id] == before.dirs[id])
  }

  /** The extras of the messages to Meta; their details differ. */
  const ReportExtras: Record := map["eventKind" := Str("messaging_payload_corrupted"), "details" := Obj(map[])]

  lemma ReportIsValid()
    ensures IsAccepted(MetaChannel, HostEvent, Some(ReportExtras))
  {}

  class MessagingDir {
    const file: StateFile
    var torn: bool
    var tmp: set<nat>
    var dirs: map<Id, Dir>
    var unknown: set<nat>

    constructor (file: StateFile)
      ensures this.file == file && !torn && tmp == {} && dirs == map[] && unknown == {}
    {
      this.file := file;
      torn, tmp, dirs, unknown := false, {}, map[], {};
    }

    ghost function View(): Files
      reads this, file
    {
      Files(file.events, torn, tmp, dirs, unknown)
    }

    /** Ids from `base` on are unused. Truncating the partial line succeeds; `x` says what else fails.
        `corrupt` says that folding the state log fails; the log is then set aside, and all payload
        directories are left alone. */
    method RecoverAfterCrash(base: Id, now: nat, corrupt: bool, x: Faults) returns (bus: MessagingBus)
      requires forall id :: id in Fold(file.events) || id in dirs ==> id < base
      modifies this, file
      ensures !corrupt ==> IsRepair(old(View()), View(), x)
      ensures corrupt ==> View() == Quarantined(old(View()), base, now).(tmp := old(tmp) * x.tmp)
      ensures fresh(bus) && bus.file == file
    {
      bus := new MessagingBus(file);
      // step 1: temporary directories, the fold, the partial line, missing payloads, orphans
      tmp := tmp * x.tmp;
      if corrupt {
        Quarantine(bus, base, now);
        return;
      }
      bus.RefreshLocked();
      torn := false;
      var missing := MissingPayloads(bus.envelopes, dirs);
      RemoveOrphans(bus.envelopes.Keys + x.dirs);
      assert dirs == Kept(Fold(old(file.events)), old(dirs), x.dirs);
      ghost var kept := dirs;
      // step 2b: envelopes whose payload is gone
      var _, _ := ReportMissing(bus, old(dirs), missing, base, now, x);
      IsRepaired(old(View()), View(), x, kept);
    }

    /** Step 2a: the log is moved away, and Meta is told. */
    method Quarantine(bus: MessagingBus, base: Id, now: nat)
      requires bus.file == file
      modifies this, file, bus
      ensures View() == Quarantined(old(View()), base, now).(tmp := old(tmp))
    {
      file.events := [];
      torn := false;
      bus.envelopes := map[];
      dirs := dirs[base := Dir(true, true)];
      ReportIsValid();
      var ok := bus.Enqueue(base, MetaChannel, HostEvent, Some(ReportExtras), now, true, true);
      FirstNumber(file.events, base, now);
    }

    method ReportMissing(bus: MessagingBus, ghost before: map<Id, Dir>, missing: set<Id>, base: Id, now: nat, x: Faults)
      returns (ghost m: Cache, next: Id)
      requires bus.file == file && missing == Missing(Fold(file.events), before)
      requires forall id :: id in Fold(file.events) || id in dirs ==> id < base
      modifies `dirs, file, bus`envelopes
      ensures old(file.events) <= file.events
      ensures missing <= x.marks ==> file.events == old(file.events) && dirs == old(dirs)
      ensures m == Fold(old(file.events)) && base <= next
      ensures Progress(m, old(dirs), missing - x.marks, Fold(file.events), dirs, base, next, x)
    {
      var rest := missing - x.marks;
      next := base;
      m := Fold(file.events);
      ghost var kept, marked := dirs, missing - x.marks;
      while rest != {}
        invariant base <= next && rest <= marked
        invariant old(file.events) <= file.events
        invariant marked == {} ==> file.events == old(file.events) && dirs == old(dirs)
        invariant Progress(m, kept, marked - rest, Fold(file.events), dirs, base, next, x)
        decreases |rest|
      {
        var id :| id in rest;
        next := ReportOne(bus, id, next, now, x, m, kept, marked - rest, base);
        OneLess(marked, rest, id);
        rest := rest - {id};
      }
      assert marked - rest == marked;
    }

    /** Marks one envelope failed and tells Meta about it; `id` can be marked. */
    method ReportOne(bus: MessagingBus, id: Id, from: Id, now: nat, x: Faults,
                     ghost m: Cache, ghost kept: map<Id, Dir>, ghost done: set<Id>, ghost base: Id) returns (next: Id)
      requires bus.file == file && id in m && base <= from
      requires Progress(m, kept, done, Fold(file.events), dirs, base, from, x)
      modifies `dirs, file, bus`envelopes
      ensures old(file.events) <= file.events && base <= next
      ensures Progress(m, kept, done + {id}, Fold(file.events), dirs, base, next, x)
    {
      OneMarked(m, kept, done, Fold(file.events), dirs, base, from, id, x);
      bus.RefreshLocked();
      bus.AppendFailedLocked(id);
      if id in x.tells { return from; }
      ghost var log, had := file.events, dirs;
      dirs := dirs[from := Dir(true, true)];
      ReportIsValid();
      var ok := bus.Enqueue(from, MetaChannel, HostEvent, Some(ReportExtras), now, true, id !in x.halves);
      if ok {
        ghost var e := EnqueueFolds(log, file.events, from, now);
        OneTold(m, kept, done + {id}, Fold(log), had, base, from, e, x);
      } else {
        OneHalfTold(m, kept, done + {id}, Fold(log), had, base, from, x);
      }
      return from + 1;
    }

    method MissingPayloads(m: Cache, dirs: map<Id, Dir>) returns (missing: set<Id>)
      ensures missing == Missing(m, dirs)
    {
      missing := {};
      var rest := m.Keys;
      while rest != {}
        invariant rest <= m.Keys
        invariant forall id :: id in missing <==> id in m && id !in rest && !m[id].failed && !IsComplete(dirs, id)
        decreases |rest|
      {
        var id :| id in rest;
        rest := rest - {id};
        if !IsComplete(dirs, id) && !m[id].failed { missing := missing + {id}; }
      }
    }

    method RemoveOrphans(enqueued: set<Id>)
      modifies `dirs
      ensures dirs == map id | id in old(dirs) && id in enqueued :: old(dirs)[id]
    {
      var rest := dirs.Keys;
      while rest != {}
        invariant rest <= old(dirs).Keys
        invariant dirs == map id | id in old(dirs) && (id in enqueued || id in rest) :: old(dirs)[id]
        decreases |rest|
      {
        var id :| id in rest;
        rest := rest - {id};
        if id !in enqueued { dirs := dirs - {id}; }
      }
    }
  }

  /** Half-way through the missing payloads: `done` of them are marked failed, the messages about them
      have ids from `base` up to `next`, and all else is as it was. */
  ghost predicate Progress(m: Cache, kept: map<Id, Dir>, done: set<Id>, now: Cache, dirs: map<Id, Dir>,
                           base: Id, next: Id, x: Faults) {
    && (forall id :: id in m || id in kept ==> id < base)
    && (forall id :: id in m ==> id in now && now[id] == m[id].(failed := m[id].failed || id in done))
    && (forall id :: id in now ==> id in m || base <= id < next)
    && (forall id :: base <= id < next ==> IsComplete(dirs, id) && (id in now || x.halves != {}))
    && (forall id :: id in dirs <==> id in kept || base <= id < next)
    && (forall id :: id in kept ==> dirs[id] == kept[id])
  }

  lemma EnqueueFolds(log: seq<BusEvent>, after: seq<BusEvent>, id: Id, now: nat) returns (e: Envelope)
    requires exists s :: IsNextSeq(Fold(log), s) && after == log + [Enqueued(id, s, MetaChannel, HostEvent, now)]
    ensures Fold(after) == Fold(log)[id := e] && !e.failed && log <= after
  {
    var s :| IsNextSeq(Fold(log), s) && after == log + [Enqueued(id, s, MetaChannel, HostEvent, now)];
    FoldSnoc(log, Enqueued(id, s, MetaChannel, HostEvent, now));
    e := Fold(after)[id];
  }

  lemma OneMarked(m: Cache, kept: map<Id, Dir>, done: set<Id>, now: Cache, dirs: map<Id, Dir>, base: Id, next: Id,
                  id: Id, x: Faults)
    requires Progress(m, kept, done, now, dirs, base, next, x) && id in m
    ensures Progress(m, kept, done + {id}, Apply(now, Failed(id, 0)), dirs, base, next, x)
  {}

  lemma OneTold(m: Cache, kept: map<Id, Dir>, done: set<Id>, now: Cache, dirs: map<Id, Dir>, base: Id, next: Id,
                e: Envelope, x: Faults)
    requires Progress(m, kept, done, now, dirs, base, next, x) && base <= next
    ensures Progress(m, kept, done, now[next := e], dirs[next := Dir(true, true)], base, next + 1, x)
  {
    var later := dirs[next := Dir(true, true)];
    forall k | base <= k < next + 1 ensures IsComplete(later, k) && (k in now[next := e] || x.halves != {}) {
      if k < next { assert IsComplete(dirs, k); }
    }
  }

  lemma OneHalfTold(m: Cache, kept: map<Id, Dir>, done: set<Id>, now: Cache, dirs: map<Id, Dir>, base: Id, next: Id,
                    x: Faults)
    requires Progress(m, kept, done, now, dirs, base, next, x) && base <= next && x.halves != {}
    ensures Progress(m, kept, done, now, dirs[next := Dir(true, true)], base, next + 1, x)
  {
    var later := dirs[next := Dir(true, true)];
    forall k | base <= k < next + 1 ensures IsComplete(later, k) {
      if k < next { assert IsComplete(dirs, k); }
    }
  }

  lemma Finished(m: Cache, before: map<Id, Dir>, kept: map<Id, Dir>, now: Cache, dirs: map<Id, Dir>, base: Id, next: Id,
                 x: Faults)
    requires Progress(m, kept, Missing(m, before) - x.marks, now, dirs, base, next, x) && kept == Kept(m, before, x.dirs)
    ensures Missing(now, dirs) == Missing(m, before) * x.marks
    ensures forall id :: id in dirs && id !in now ==> (id in before && id in x.dirs) || x.halves != {}
  {
    forall id | id in now ensures id in Missing(now, dirs) <==> id in Missing(m, before) * x.marks {
      if id in m { assert id in dirs <==> id in before; }
    }
    forall id | id in Missing(m, before) ensures id in now {}
  }

  lemma IsRepaired(before: Files, after: Files, x: Faults, kept: map<Id, Dir>)
    requires kept == Kept(Fold(before.log), before.dirs, x.dirs)
    requires exists base: Id, next: Id :: base <= next && Progress(Fold(before.log), kept,
      Missing(Fold(before.log), before.dirs) - x.marks, Fold(after.log), after.dirs, base, next, x)
    requires after.tmp == before.tmp * x.tmp && !after.torn && after.unknown == before.unknown && before.log <= after.log
    requires Missing(Fold(before.log), before.dirs) <= x.marks ==> after.log == before.log && after.dirs == kept
    ensures IsRepair(before, after, x)
  {
    var m := Fold(before.log);
    var base: Id, next: Id :| base <= next &&
      Progress(m, kept, Missing(m, before.dirs) - x.marks, Fold(after.log), after.dirs, base, next, x);
    Finished(m, before.dirs, kept, Fold(after.log), after.dirs, base, next, x);
  }

  // ---- consequences ----

  /** If nothing goes wrong, the log and the directories agree afterwards. */
  lemma CleanRunIsConsistent(before: Files, after: Files)
    requires IsRepair(before, after, NoFaults)
    ensures IsConsistent(after)
  {
    assert Missing(Fold(after.log), after.dirs) == {};
  }

  /** A second run changes nothing. */
  lemma RepairIsIdempotent(before: Files, after: Files, again: Files)
    requires IsRepair(before, after, NoFaults) && IsRepair(after, again, NoFaults)
    ensures again.log == after.log && again.dirs == after.dirs && again.tmp == after.tmp && again.torn == after.torn
  {
    CleanRunIsConsistent(before, after);
    assert Kept(Fold(after.log), after.dirs, {}) == after.dirs;
  }

  /** Whatever goes wrong in one run, the next one in which nothing does makes up for it: every envelope
      that was enqueued keeps its directory, and has failed exactly if it had, or its payload was missing
      in the first place. */
  lemma NextRunMakesUp(before: Files, between: Files, after: Files, x: Faults, id: Id)
    requires IsRepair(before, between, x) && IsRepair(between, after, NoFaults) && id in Fold(before.log)
    ensures IsConsistent(after) && SurvivesRepair(before, after, id, {})
  {
    CleanRunIsConsistent(between, after);
    assert SurvivesRepair(before, between, id, x.marks);
    assert SurvivesRepair(between, after, id, {});
    assert id in Missing(Fold(between.log), between.dirs) <==> id in Missing(Fold(before.log), before.dirs) * x.marks;
  }

  /** The points at which the process can die inside `enqueue`. */
  datatype CrashPoint = AfterMkdtemp | AfterPayload | AfterBody | AfterRename | InsideAppend | AfterAppend

  function CrashedEnqueue(f: Files, t: nat, e: BusEvent, at: CrashPoint): Files
    requires e.Enqueued?
  {
    match at
    case AfterMkdtemp => f.(tmp := f.tmp + {t})
    case AfterPayload => f.(tmp := f.tmp + {t})
    case AfterBody => f.(tmp := f.tmp + {t})
    case AfterRename => f.(dirs := f.dirs[e.id := Dir(true, true)])
    case InsideAppend => f.(dirs := f.dirs[e.id := Dir(true, true)], torn := true)
    case AfterAppend => f.(dirs := f.dirs[e.id := Dir(true, true)], log := f.log + [e])
  }

  /** Enqueueing is atomic: whatever the crash point, recovery leaves either the old files or the old
      files with the new envelope and its payload, and marks nothing failed. */
  lemma {:induction false} EnqueueIsAtomic(f: Files, t: nat, e: BusEvent, at: CrashPoint, after: Files)
    requires IsConsistent(f) && e.Enqueued? && e.id !in Fold(f.log)
    requires IsRepair(CrashedEnqueue(f, t, e, at), after, NoFaults)
    ensures after.tmp == {} && !after.torn
    ensures at.AfterAppend? ==> after.log == f.log + [e] && after.dirs == f.dirs[e.id := Dir(true, true)]
    ensures !at.AfterAppend? ==> after.log == f.log && after.dirs == f.dirs
  {
    var crashed := CrashedEnqueue(f, t, e, at);
    FoldSnoc(f.log, e);
    NothingMissing(f, t, e, at);
    AllKept(f, t, e, at);
  }

  lemma NothingMissing(f: Files, t: nat, e: BusEvent, at: CrashPoint)
    requires IsConsistent(f) && e.Enqueued? && e.id !in Fold(f.log)
    ensures var crashed := CrashedEnqueue(f, t, e, at); Missing(Fold(crashed.log), crashed.dirs) == {}
  {
    FoldSnoc(f.log, e);
    var crashed := CrashedEnqueue(f, t, e, at);
    forall id | id in Fold(crashed.log) && !Fold(crashed.log)[id].failed ensures IsComplete(crashed.dirs, id) {
      if id in Fold(f.log) { assert id !in Missing(Fold(f.log), f.dirs); }
    }
  }

  lemma KeptAll(m: Cache, dirs: map<Id, Dir>)
    requires forall id :: id in dirs ==> id in m
    ensures Kept(m, dirs, {}) == dirs
  {}

  lemma KeptOthers(m: Cache, dirs: map<Id, Dir>, orphan: Id, d: Dir)
    requires (forall id :: id in dirs ==> id in m) && orphan !in m
    ensures Kept(m, dirs[orphan := d], {}) == dirs
  {}

  lemma {:induction false} AllKept(f: Files, t: nat, e: BusEvent, at: CrashPoint)
    requires IsConsistent(f) && e.Enqueued? && e.id !in Fold(f.log)
    ensures var crashed := CrashedEnqueue(f, t, e, at);
      Kept(Fold(crashed.log), crashed.dirs, {}) == if at.AfterAppend? then f.dirs[e.id := Dir(true, true)] else f.dirs
  {
    if at.AfterAppend? {
      FoldSnoc(f.log, e);
      KeptAll(Fold(f.log + [e]), f.dirs[e.id := Dir(true, true)]);
    } else {
      KeptAll(Fold(f.log), f.dirs);
      KeptOthers(Fold(f.log), f.dirs, e.id, Dir(true, true));
    }
  }

  lemma QuarantinedFold(base: Id, now: nat)
    ensures Fold([Enqueued(base, 1, MetaChannel, HostEvent, now)]).Keys == {base}
  {
    var e := Enqueued(base, 1, MetaChannel, HostEvent, now);
    FoldSnoc([], e);
    assert [] + [e] == [e];
  }

  /** After a quarantine the payloads are not safe for long: the next run finds none of them enqueued and
      removes them all, whatever else it does. */
  lemma {:induction false} QuarantinedPayloadsGoNext(f: Files, base: Id, now: nat, again: Files)
    requires IsRepair(Quarantined(f, base, now), again, NoFaults)
    ensures again.dirs == map[base := Dir(true, true)]
  {
    var after := Quarantined(f, base, now);
    QuarantinedFold(base, now);
    assert IsComplete(after.dirs, base);
    assert Missing(Fold(after.log), after.dirs) == {};
    assert again.dirs == Kept(Fold(after.log), after.dirs, {});
  }

  /** Agreement in plain terms: every envelope that did not fail has both its files, and every directory is
      that of an enqueued envelope. */
  lemma ConsistentMeans(f: Files)
    ensures IsConsistent(f) <==>
      && f.tmp == {} && !f.torn
      && (forall id :: id in Fold(f.log) && !Fold(f.log)[id].failed ==>
            id in f.dirs && f.dirs[id].hasPayload && f.dirs[id].hasBody)
      && (forall id :: id in f.dirs ==> id in Fold(f.log))
  {
    forall id | id in Fold(f.log) && !Fold(f.log)[id].failed
      ensures id in Missing(Fold(f.log), f.dirs) <==> !(id in f.dirs && f.dirs[id].hasPayload && f.dirs[id].hasBody)
    {}
    if Missing(Fold(f.log), f.dirs) != {} {
      var id :| id in Missing(Fold(f.log), f.dirs);
    }
  }
}
