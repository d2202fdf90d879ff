# A verified model of the host's worker lifecycle, its logs and its gates

deputy-agent runs a task with a host process that starts, watches and closes worker sessions on behalf
of Meta, an agent that steers it by tool calls. What the host must remember across crashes lies in
append-only files: the event log, the state log of the message bus, a session counter, a manifest.
This project models that protocol and those files in Dafny and proves what they keep in every run.

* **Lifecycle** (`Lifecycle*.dfy`, `Daemon.dfy`). One action of the state machine is the stretch of
  one thread from an `await` to the next. The threads are the tick loop with `finalizeWorker`, any number
  of `stop_worker` / `interrupt_worker` calls, and `cleanupAndExit`; a crash can come between any two
  actions, also between the two writes of the repair at startup, and any number of processes follow
  each other. `Daemon.DaemonState` holds the fields of the original and
  its methods are proved to do to them what the steps of the state machine do; `Waits` says in plain
  terms which wait each of them leaves, and `LifecycleReasons` what each thread announces and records.
  `LifecycleMoves` abstracts each thread to its control points, the handle and the guard.
* **Logs** (`Events`, `Sessions`, `Recovery`, `RecoveryConverges`, `RecoveryExact`, `Restart`). Idempotent end
  records, session numbers, the repair of two logs that disagree after a crash, and what the restarted host
  does about what was repaired.
* **Message bus** (`Bus`, `BusOrder`, `BusMeaning`, `BusRecovery`, `Gates`, `Matching`, `Extras`, `ExtrasTable`,
  `TextRoundTrip`). The folded cache, the pull order, what each event means to the readers, crash points of
  an enqueue, the review gates down to the text on disk.
* **Stages** (`Stages`, `StageTable`, `StageHistory`, `StageMachine`). All writers of the manifest as
  interleaved load, gate and compare-and-swap.
* **Bytes** (`Lines`, `Jsonl`, `StreamReader`, `Utf8`, `Rfc3629`), **waking and reminding Meta** (`Wake`, `Reminders`)
  and **check ids** (`DoneCriteria`).

Where a property one would expect is false, a lemma exhibits the input and another says when it holds:

* Cleanup pairs every start with an end record except for a session that a superseded stop call still
  had to record while another worker had been started (`CleanupPairsExactly`, `TakeoverCanLoseARecord`).
* The number of start attempts is not bounded by requests, grants and instructions alone; workers that
  a stop call without restart closes count too (`NoHotLoop`, `OneInstructionManyAttempts`).
* The host forgets what it waits for at exactly one step: when `startWorker` returns after a stop call
  has closed the worker it was starting (`ForgetsIff`, `StopDuringStartStalls`, `StalledStays`).
* After cleanup has taken over no owner that it superseded begins a write, but a stop call lets go of the
  guard all the same; `AnnouncesAfterTakeoverIff` says exactly when a later call can announce an end.
* Recovery always converges (`RecoveryAlwaysConverges`), but not always in two runs, it can announce an
  end twice, and it can pass over an unmatched worker for good. `TwoRunsSettleIff`, `DuplicatesIff` and
  `ReportedIff` say exactly when; `OlderUnmatchedDuplicatesEnd` is a history that leads there. That at most
  the newest worker is unmatched and ends are keyed in session order is enough for two runs without a
  duplicate (`RecoveryConverges`, `NoRunDuplicates`).
* A permission to restart that came with a stop is nowhere on disk: a restarted host is where the stop
  would have left it exactly if there was none (`RestartPermissionIsLost`).
* Session numbers can be used again if the counter is damaged after the log with the greatest number was
  set aside (`NumbersNeverReused`, `BothDamagesReuseOne`).
* Payloads that are left in place when a corrupt state log is set aside are said to be preserved
  (`src/messaging/recovery.ts:156-159`); the next run of the recovery removes them
  (`QuarantinedPayloadsGoNext`).
* A deleted counter restarts at 1 (`DeletedCounterFreshIff`); appending to a torn line keeps the log
  readable exactly if the torn bytes parse (`AppendToTornTail`).
* Extras survive on disk exactly if the elements of an issue list are objects and nothing is undefined
  (`TextRoundTripIff`). The search of the bus does not tell a list from an object (`DeepEqualIff`).
* The final review gate guards the direct edges only: `UnreviewedTookDetour` and the lemmas after it say by
  which ways a task ends without a review. A resume restores the interrupted stage only if the last pause
  interrupted the same stage as the one it had loaded (`ResumeRestoresIff`). The only change outside the
  transition table is a resume to `submitted` (`ChangesAreLegal`).

## Model

| member | source | states |
|---|---|---|
| `LifecycleLog.AtMostOneEndPerSession` | src/host/events.ts:165-209 | In every run of any number of processes, with all interleavings of the tick loop, stop calls and cleanup, with failing scans, set-aside logs and crashes anywhere, no worker session has two end records |
| `LifecycleLog.SessionNumbersIncrease` | src/host/agent_sessions.ts:141-183 | In every run, with arbitrary damage to the counter short of deletion, the numbers of the sessions started in the current log strictly increase and stay below the counter |
| `LifecycleNumbers.NumbersNeverReused` | src/host/agent_sessions.ts:141-183 | Over the whole history, logs that were set aside included, no number is used twice as long as every allocation finds the counter intact or the greatest number in the log |
| `LifecycleNumbers.AllocationFreshIff` | src/host/agent_sessions.ts:141-164 | One allocation exceeds every number ever used if and only if that is so |
| `LifecycleNumbers.OneDamageIsHarmless` | src/host/agent_sessions.ts:141-183 | If the counter is never damaged, or no log ever set aside, numbers strictly increase over the whole history |
| `LifecycleNumbers.BothDamagesReuseOne` | src/host/agent_sessions.ts:141-183 | With both, a history in which number 1 is given out again |
| `LifecycleOwners.MutualExclusion` | src/host/daemon.ts:2616-2640 | In every run at most one closeout owns the worker, and while one does the guard is up, superseded or not |
| `LifecycleOwners.OneAnnouncementPerSession` | src/host/daemon.ts:2023-2061 | In every run each process announces a session's end at most once over all closeout paths, and only of sessions started in the log |
| `LifecycleFence.TakeoverFences` | src/host/daemon.ts:2373-2400 | A takeover by timeout supersedes every closeout that is under way at that moment |
| `LifecycleAftermath.StaleStopWritesNothing` | src/host/daemon.ts:2650-2727 | Once the epoch has moved on a stop call begins no announcement and no record, over every run of the process, later stop calls included |
| `LifecycleAftermath.StaleFinalizeWritesNothing` | src/host/daemon.ts:1946-2124 | The same for `finalizeWorker`, and no tick begins another closeout |
| `LifecycleAftermath.OvertakenOwnersWriteNothing` | src/host/daemon.ts:2373-2400 | Both from a new task on, for whoever owned a closeout when cleanup took over |
| `LifecycleAftermath.AnnouncesAfterTakeoverIff` | src/host/daemon.ts:2754-2757 | After a takeover the process can still announce an end if and only if an announcement was under way, or a stop call owned the closeout while a worker was there |
| `LifecycleFence.SupersededOwnerWritesNothing` | src/host/daemon.ts:1946-2124 | For the files: without later stop calls nothing is announced, and only the retained session gets a record, save writes already under way |
| `LifecyclePairing.CleanupPairsStarts` | src/host/daemon.ts:2373-2456 | When cleanup has written its record, every session of the process has its end record, save the one that the takeover left behind |
| `LifecycleSessions.SessionsAccountedFor` | src/host/daemon.ts:1711-1742 | Everything in memory and on disk is about started sessions, and until cleanup takes over no session that a closeout still looks after is ended |
| `LifecycleSessions.LeftBehindStaysUnmatched` | src/host/daemon.ts:2718-2727 | A stop call overtaken between clearing the handle and its epoch check, with a newer worker started, never writes its record |
| `LifecycleLate.CleanupPairsExactly` | src/host/daemon.ts:2373-2456 | A session of the process has no end record when cleanup is done if and only if such a stop call was closing it when the wait ran out, or is still writing its record |
| `LifecycleTraces.TakeoverCanLoseARecord` | src/host/daemon.ts:2616-2727 | A run from a new task that reaches that state |
| `LifecycleTraces.EndAnnouncedAfterTakeover` | src/host/daemon.ts:2754-2757 | A run from a new task in which the first announcement comes after the takeover |
| `LifecycleReasons.StopAnnounces` | src/host/daemon.ts:2690-2704 | A stop call announces the end of its session as an interrupt if it was called as one, and as a stop otherwise |
| `LifecycleReasons.StopRecords` | src/host/daemon.ts:2718-2727 | It records the same |
| `LifecycleReasons.FinalizeKeepsReason` | src/host/daemon.ts:1946-2124 | What `finalizeWorker` found out at the close is the reason, and its session the session, of every later part of it |
| `LifecycleReasons.CleanupReleases` | src/host/daemon.ts:2400-2456 | In every run a process that has cleaned up holds no worker any more |
| `LifecycleNoStall.HostStaysAwake` | src/host/daemon.ts:1537-1703 | In every gentle run, through crashes and restarts, once a worker has run and none is active or being closed, some wait or the wish for a start is set |
| `LifecycleNoStall.ForgetsIff` | src/host/daemon.ts:1677-1689 | With successful enqueues and no superseded owner, the host stops waiting at exactly the step that completes a start over a closed worker |
| `LifecycleNoStall.InstructionStartsWorker` | src/host/daemon.ts:1537-1590 | A waiting host with an instruction that the gate counts begins to start a worker in the next tick |
| `LifecycleNoStall.StalledStays` | src/host/daemon.ts:1537-1545 | A stalled host starts no worker whatever arrives, short of another tool call or a restart |
| `LifecycleTraces.StopDuringStartStalls` | src/host/daemon.ts:1677-1689 | A run from a new task that ends stalled |
| `LifecycleHotLoop.NoHotLoop` | src/host/daemon.ts:1654-1703 | If no worker ever gets its first message, start attempts number at most one plus accepted requests, granted continuations, workers closed without restart and distinct instructions |
| `LifecycleHotLoop.NoHotLoopInAnyProcess` | src/host/daemon.ts:1654-1703 | The same for every process in every history of a task |
| `LifecycleHotTrace.OneInstructionManyAttempts` | src/host/daemon.ts:1577-1579 | For every n a run with one instruction, no request and no grant, n workers closed by plain stops, and n + 1 attempts |
| `Daemon.DaemonState.constructor` | src/host/daemon.ts:589-631 | A new process waits for what recovery found |
| `Daemon.DaemonState.EnterStop` | src/host/daemon.ts:2616-2640 | A stop call is turned away while a closeout is under way, becomes its owner if a worker is there, and otherwise changes the flags only |
| `Daemon.DaemonState.ReconcileWorkerCompletionPending` | src/host/daemon.ts:1537-1602 | The gate opens for any unread instruction, after a failed start for a new one only, or for an interrupt once Meta is idle |
| `Reminders.ReminderState.Reconcile` | src/host/daemon.ts:1549-1640 | A tick posts the next reminder if and only if a decision is pending, nothing else comes first, Meta is idle and was not reminded since it was busy, and the enqueue succeeds |
| `Reminders.RemindersCountUp` | src/host/daemon.ts:1604-1640 | In every run the reminders of a round are numbered 1, 2, 3 without a gap, and no two are posted while Meta stays idle |
| `Reminders.NextIsPosted` | src/host/daemon.ts:1604-1640 | As long as the decision is pending, the next idle tick after a busy one posts the next number, however many failed before |
| `Reminders.MayRemindAgainIff` | src/host/daemon.ts:1549-1640 | A posted reminder blocks the next until nothing is waited for, an instruction comes, an interrupt is continued, or Meta is seen busy |
| `Reminders.FirstIsRetried` | src/host/daemon.ts:2075-2098 | A first reminder that fails, in a round after an instruction, is tried again by the next idle tick under number 1 |
| `Daemon.DaemonState.EnterFinalize` | src/host/daemon.ts:1897-1917 | `finalizeWorker` never starts a second closeout |
| `Daemon.DaemonState.StopWorker` | src/host/daemon.ts:2616-2757 | A stop call with nothing in between is turned away by the guard, changes nothing if closing fails, and otherwise leaves the state that the three lemmas below are about |
| `Daemon.DaemonState.FinalizeWorker` | src/host/daemon.ts:1897-2142 | The same for `finalizeWorker`, whose guard is down again afterwards |
| `Waits.CloseoutReason` | src/host/daemon.ts:1966-1978 | The reason is an internal error if the first message failed, else the watchdog's, else the declared one, else what the runtime says, case by case |
| `Waits.CloseoutWaits` | src/host/daemon.ts:2061-2116 | After an announced closeout a decision of Meta is waited for if and only if a watchdog fired, an intent was declared, or the runtime reports the session's own end; the end alone is waited about if and only if the runtime reports an error or nothing; no other flag changes |
| `Waits.InternalIff` | src/host/daemon.ts:1966-2004 | No end is announced if and only if the first message failed, or the host closed the session and neither a watchdog nor an intent says otherwise |
| `Waits.StopWaits` | src/host/agent_control.ts:219-260 | Which flag is up after a stop call, from the flags before, whether it was an interrupt and whether a restart was asked for |
| `Waits.GateOpens` | src/host/daemon.ts:1537-1602 | A counted instruction ends every wait and asks for a worker; else an idle Meta continues an interrupt and that only; else nothing changes |
| `Waits.InterruptWaitsForIdle` | src/host/daemon.ts:1592-1602 | While Meta is busy an interrupted worker is not replaced, and once it is idle it is |
| `Daemon.InterruptContinues` | src/host/daemon.ts:2738-2752 | After an interrupt the host starts a worker by itself once Meta is idle |
| `Daemon.RestartContinues` | src/host/daemon.ts:2738-2752 | After a stop with restart the next tick starts a worker |
| `Daemon.StopStays` | src/host/agent_control.ts:219-260 | After a plain stop a tick starts a worker if and only if an instruction opens the gate |
| `Daemon.FinalizeSettles` | src/host/daemon.ts:2061-2116 | After an announced end or a failed first message a tick starts a worker if and only if an instruction opens the gate, after a failure only one that was not there before |
| `Daemon.CrashedWorkerIsNotReplaced` | src/host/daemon.ts:1666-1676 | After a restart the first tick replaces an unmatched worker if and only if an exit signal was found and its envelope could not be written |
| `Daemon.RestoredIsNotFirstStart` | src/host/daemon.ts:589-631 | The first tick starts a worker if and only if recovery reported nothing; what it reports is waited for |
| `Restart.RestartedAfterStop` | src/host/recovery.ts:671-675 | A stop whose closeout a crash cut short: the restarted host is exactly where the undisturbed stop without restart leaves it |
| `Restart.RestartPermissionIsLost` | src/host/recovery.ts:664-670 | With a permission to restart the undisturbed stop starts a worker; the restarted host equals it if and only if there was no such permission |
| `Restart.RestartedAfterInterrupt` | src/host/recovery.ts:671-675 | An interrupt: exactly where the undisturbed interrupt leaves it |
| `Restart.RestartedAfterEnd` | src/host/recovery.ts:396-510 | A natural, declared or watchdog end: exactly where the undisturbed closeout leaves it |
| `Restart.RestartedAfterCrash` | src/host/recovery.ts:671-675 | A crash: the end alone is waited about |
| `Restart.RestartedAfterSignal` | src/host/recovery.ts:333-395 | An exit signal that was not answered: exactly where the closeout of that intent leaves it |
| `Restart.OnlyInterruptContinues` | src/host/daemon.ts:589-631 | With an end restored, the host starts a worker by itself if and only if the end was an interrupt, and then not before Meta is idle |
| `LifecycleRestart.RestartedStartsIff` | src/host/daemon.ts:589-631 | In the state machine: after a restart that restores an end, the first tick begins a start if and only if an instruction is waiting, or the end was an interrupt and Meta is idle |
| `Restart.RecordedReason` | src/host/recovery.ts:311-510 | The record that a run writes carries the worker and the reason that it answers with |
| `Restart.LatestSignalIs` | src/host/recovery.ts:552-579 | The latest by creation time, then by number, among the readable live claims and deferred escalations |
| `Restart.NewestEndIs` | src/host/recovery.ts:601-622 | The latest live end by creation time, then by number |
| `Events.EventLog.Append` | src/host/events.ts:140-153 | A plain append numbers its record after the greatest number in the log and fails on an unreadable log |
| `Events.EventLog.AppendEndedIdempotent` | src/host/events.ts:165-209 | Scan and append under one lock: written if and only if the scan succeeds and no end of that session is there; with a good scan the end is there afterwards |
| `Events.IdempotentKeepsEndsOnce` | src/host/events.ts:165-221 | Idempotent appends keep every worker's and reviewer's end unique |
| `Events.AppendKeepsNumbers` | src/host/events.ts:124-153 | Event numbers strictly increase in log order |
| `Events.AppendNumbersOn` | src/host/events.ts:124-153 | The records of a log that was only appended to are numbered 1, 2, 3 without a gap |
| `Sessions.SeqFile.AllocateWorkerSessionSeq` | src/host/agent_sessions.ts:141-164 | The counter is used if valid, rebuilt from the log if damaged, and 1 if missing |
| `Sessions.FoldMaxWorkerSessionSeq` | src/host/agent_sessions.ts:166-183 | The greatest started number in the part of the log before the first corrupt line |
| `Sessions.AllocationIsFresh` | src/host/agent_sessions.ts:141-183 | An allocated number exceeds all started ones and keeps the counter ahead |
| `Sessions.DeletedCounterFreshIff` | src/host/agent_sessions.ts:152-158 | A deleted counter hands out a fresh number if and only if no session was started |
| `Sessions.AllocationLeavesNoGap` | src/host/agent_sessions.ts:141-183 | A valid counter is followed, a missing one counts from 1, and a damaged one is one more than the greatest started number |
| `Sessions.DeriveExitIntentLastWins` | src/host/agent_sessions.ts:118-132 | The last call that carries an intent decides, and without one there is none |
| `Recovery.TaskFiles.RepairHalfCompletedWorker` | src/host/recovery.ts:311-510 | The repair writes and answers what its specification says for every branch and every failing write |
| `Recovery.NewestEnd` | src/host/recovery.ts:601-622 | The latest end by key among those that did not fail |
| `Recovery.GreatestUnmatched` | src/host/recovery.ts:707-735 | The greatest started number without an end record |
| `RecoveryConverges.CrashIsReported` | src/host/recovery.ts:333-510 | With an unmatched worker in the log, a run answers with some wait state, unless a newer exit signal was found and its envelope could not be written, and then with none |
| `RecoveryExact.AnswersIff` | src/host/recovery.ts:311-510 | Which worker a run answers: the newer signal's if its envelope can be written; else the latest end's if no worker was started after it; else the greatest unmatched one |
| `RecoveryExact.RecordedIffAnswered` | src/host/recovery.ts:311-510 | An unmatched worker gets its record in a run if and only if that run answers it |
| `RecoveryExact.ReportedIff` | src/host/recovery.ts:311-510 | Over enough runs every unmatched worker is answered by some run, except exactly those that stand behind a latest end which is about the last worker, or behind the newest worker when that one is to be reported |
| `RecoveryExact.UnmatchedInTheEndIff` | src/host/recovery.ts:311-510 | Exactly those stay unmatched for good |
| `RecoveryConverges.TwoRunsSettle` | src/host/recovery.ts:311-510 | With ends keyed in session order and at most the newest worker unmatched: after one run at most its crash is left to report, after two runs nothing |
| `RecoveryExact.TwoRunsSettleIff` | src/host/recovery.ts:311-510 | Exactly when two runs leave nothing to do, for readable ends in any order and any unmatched workers |
| `RecoveryConverges.RecoveryConverges` | src/host/recovery.ts:311-510 | Under the same hypotheses only the first two of any number of consecutive runs write anything |
| `RecoveryConverges.NoRunDuplicates` | src/host/recovery.ts:311-510 | Under the same hypotheses no run enqueues an end for a session that already has one |
| `RecoveryExact.DuplicatesIff` | src/host/recovery.ts:311-510 | Exactly when some run does, for readable ends in any order and any unmatched workers: the newer signal's worker already has an end; or, once the signal is answered, a newer worker was started that is not itself reported, an older one is unmatched without an end, and the signal's worker has an end when that one is reported |
| `RecoveryExact.InOrderNewerIsNew` | src/host/recovery.ts:333-395 | With ends keyed in session order the first of these cannot happen |
| `RecoveryConverges.RecoveryAlwaysConverges` | src/host/recovery.ts:311-510 | Whatever the two logs hold, recovery writes nothing any more after at most two runs for each pending session and one more |
| `LifecycleDuplicates.OlderUnmatchedDuplicatesEnd` | src/host/recovery.ts:333-510 | A history of a task that leaves two workers unmatched, after which the third run announces one end again |
| `Bus.MessagingBus.RefreshLocked` | src/messaging/bus.ts:622-696 | The cache becomes the fold of the whole log, whatever others have appended |
| `Bus.MessagingBus.Enqueue` | src/messaging/bus.ts:165-233 | Succeeds if and only if the channel carries the kind, the extras are valid and both writes succeed; then one event with the next number is appended after the payload is there, otherwise none; the cache is the fold of the log |
| `BusMeaning.EnqueueShows` | src/messaging/bus.ts:647-660 | A new envelope shows the channel, kind, time and number of its event, nobody has read or answered it, it has not failed, and no other envelope changes |
| `BusMeaning.EnqueueReaches` | src/messaging/bus.ts:562-569 | It joins what is unread on its channel and on no other |
| `BusMeaning.ReadMeans` | src/messaging/bus.ts:662-671 | A read event takes exactly its envelope from the unread of its channel and changes nothing but the reader |
| `BusMeaning.FailedMeans` | src/messaging/bus.ts:682-690 | A failed event takes it from everything that can be delivered |
| `BusMeaning.KindsOfChannels` | src/messaging/envelope.ts:34-52 | Which kinds each of the three channels carries |
| `Bus.MessagingBus.AppendReadLocked` | src/messaging/bus.ts:571-585 | The guarded update in place agrees with the fold if and only if the envelope had no reader or the same |
| `Bus.MessagingBus.SortedCandidates` | src/messaging/bus.ts:562-569 | The live (unread) envelopes of the channel, each once, by ascending key |
| `BusMeaning.PulledByTime` | src/messaging/state.ts:66-78 | Envelopes come in the order of their creation times, and for equal times of their numbers |
| `BusMeaning.DeliveredInOrder` | src/messaging/bus.ts:235-280 | What is delivered keeps that order |
| `Bus.MessagingBus.Pull` | src/messaging/bus.ts:235-280 | Delivers the readable candidates in order and marks them; stops if and only if a payload is unreadable on a channel other than the worker's, at the first such one, with everything before it marked |
| `Bus.MessagingBus.PeekUnread` | src/messaging/bus.ts:282-315 | The same without marking; outside the worker channel nothing is written |
| `Bus.MessagingBus.MarkReadBatch` | src/messaging/bus.ts:317-330 | Exactly the known, live and unread ids become read, and if there are none nothing is written |
| `Bus.MessagingBus.MarkResponded` | src/messaging/bus.ts:332-379 | Exactly the live unanswered worker envelopes are marked, and every id is reported in the right one of four lists |
| `Bus.MarkedRespondedAt` | src/messaging/bus.ts:332-379 | Responding changes the responder of those envelopes and nothing else |
| `BusOrder.EnqueueContinues` | src/messaging/bus.ts:541-545 | An enqueue under a new id continues the strictly increasing numbering |
| `BusOrder.GrownLogsAreNumbered` | src/messaging/bus.ts:165-233 | Every log grown by enqueues of new ids and any other events has strictly increasing numbers |
| `BusOrder.OnlyEnqueueAdvances` | src/messaging/bus.ts:541-545 | Read, responded and failed events leave the next number as it is |
| `BusOrder.FoldNumbersDiffer` | src/messaging/state.ts:66-78 | In such a log no two envelopes have the same number |
| `BusOrder.OrderIsUnique` | src/messaging/state.ts:66-78 | Then the pull order is determined by the log alone |
| `BusOrder.ProcessedAt` | src/messaging/bus.ts:235-280 | A pull changes exactly the envelopes it went through: unreadable ones fail, unread ones get their reader |
| `BusOrder.PullEmptiesInbox` | src/messaging/bus.ts:235-280 | After a pull that went through, nothing on the channel is unread |
| `BusOrder.MarkedReadAt` | src/messaging/bus.ts:317-330 | The first reader stays |
| `BusOrder.MarkReadIsIdempotent` | src/messaging/bus.ts:317-330 | Marking again, in part, changes nothing, whoever does it |
| `BusRecovery.MessagingDir.RecoverAfterCrash` | src/messaging/recovery.ts:64-221 | With whatever removals, marks and messages fail: exactly the live envelopes without payload become failed, save those that cannot be marked; what is left without an event is what cannot be removed, or half a message; no enqueued envelope loses its payload; a corrupt log is set aside with every payload left in place |
| `BusRecovery.CleanRunIsConsistent` | src/messaging/recovery.ts:64-221 | If nothing fails, every live envelope has a complete payload and every payload directory is enqueued |
| `BusRecovery.NextRunMakesUp` | src/messaging/recovery.ts:64-221 | Whatever fails in one run, the next one in which nothing does leads to the same outcome for every envelope |
| `BusRecovery.QuarantinedPayloadsGoNext` | src/messaging/recovery.ts:132-145 | The run after that removes all those payloads |
| `BusRecovery.RepairIsIdempotent` | src/messaging/recovery.ts:64-221 | A second run changes nothing |
| `BusRecovery.EnqueueIsAtomic` | src/messaging/bus.ts:190-218 | A crash at any point of an enqueue, then recovery: the old files or the old files with the new envelope, nothing failed |
| `Gates.FindLatestEnvelopeAnchorOfKind` | src/messaging/bus.ts:458-473 | The greatest key of the live envelopes of a kind |
| `Gates.HasEnvelopeWithExtrasAfter` | src/messaging/bus.ts:475-509 | An error if nothing is wanted; otherwise found if and only if some live, readable envelope above the key holds all wanted values |
| `Matching.DeepEqualIff` | src/messaging/bus.ts:769-782 | Two values from disk match if and only if they are the same scalar, or have the same keys with matching values, an array's keys being its indices |
| `Matching.NoListsIsEquality` | src/messaging/bus.ts:769-782 | Without lists matching is equality |
| `Matching.NotEquality` | src/messaging/bus.ts:769-782 | An empty list matches an empty object, a list an object with its indices, and an undefined member any other key |
| `Gates.CheckBootstrapGate` | src/host/stage_machine.ts:125-139 | Passes if and only if the bus is there and holds a live bootstrap review |
| `Gates.CheckFinalReviewGate` | src/host/stage_machine.ts:141-157 | Passes if and only if the bus is there and there is no live claim, or a live readable final review above every live claim |
| `Gates.AnchorDecides` | src/host/stage_machine.ts:141-157 | Above the greatest claim is above all claims |
| `BusMeaning.FinalReviewByTime` | src/host/stage_machine.ts:141-157 | The gate wants no live claim, or a final review later than every live claim by time, then by number |
| `BusMeaning.VerdictOnDisk` | src/host/stage_machine.ts:125-157 | A review counts if and only if its envelope is live and `reviewer_phase` on disk is the phase |
| `Gates.VerdictSeesPhase` | src/messaging/bus.ts:475-509 | For payloads written by the bus the gate sees the phase that the sender gave |
| `Extras.RoundTripIff` | src/messaging/schema.ts:31-167 | `extrasFromJson` undoes `extrasToJson` on accepted extras if and only if all issues are objects |
| `ExtrasTable.EscalationIs` | src/messaging/envelope.ts:182-304 | An escalation is accepted if and only if it names its session and says `continue` or `declare_deferred`, and nothing else |
| `ExtrasTable.VerdictIs` | src/messaging/envelope.ts:182-304 | A verdict is accepted if and only if phase, round, one of the four verdicts and a list of issues are there, and nothing else |
| `TextRoundTrip.DefaultsFromDisk` | src/messaging/schema.ts:98-167 | What a reader gets for what is missing on disk |
| `TextRoundTrip.TextRoundTripIff` | src/messaging/bus.ts:702-766 | Through the text on disk accepted extras come back if and only if all issues are objects and nothing in them is undefined at any depth |
| `Extras.SearchSeesField` | src/messaging/schema.ts:168-209 | The key table agrees with the writer: a search for a string field finds exactly the extras that hold it |
| `Stages.StageSafety` | src/shared/manifest.ts:302-329 | Over all interleavings the history ends in the stage, exactly a paused task knows its origin, and having been running (or being paused from it) implies a bootstrap review |
| `Stages.TerminalIsAbsorbing` | src/host/stage_machine.ts:54-112 | An ended task never changes again, whatever was loaded before |
| `Stages.ChangesAreLegal` | src/host/stage_machine.ts:54-112 | Every write of a stage is in the transition table for its trigger if and only if it is not a resume to submitted |
| `StageTable.TableForMeta` | src/host/stage_machine.ts:54-112 | Meta may move a task from clarifying, bootstrapping, running or awaiting the user to anything but submitted and paused, and to done only from the last two |
| `StageTable.TableForUser` | src/host/stage_machine.ts:54-112 | What the user may do, target by target |
| `StageTable.TableForHost` | src/host/stage_machine.ts:54-112 | What the host may do, target by target |
| `StageTable.PauseAlone` | src/cli/exec.ts:572-590 | A pause with nothing in between pauses whatever is in progress and remembers it |
| `StageTable.CancelAlone` | src/cli/exec.ts:649-680 | A cancel with nothing in between cancels every task that has not ended |
| `StageTable.NothingLoaded` | src/cli/exec.ts:572-680 | From every other stage the commands change nothing |
| `Stages.ResumeUndoesPause` | src/cli/exec.ts:572-611 | A resume right after a pause restores the stage |
| `StageHistory.ResumeRestoresIff` | src/cli/exec.ts:593-611 | Over all interleavings a resume that succeeds restores the stage that the last pause interrupted if and only if the pause it had loaded interrupted the same stage |
| `Stages.StaleResume` | src/cli/exec.ts:598-601 | From every running task a run in which it does not |
| `StageHistory.FinalReviewGuardsDirectEdges` | src/host/stage_machine.ts:141-174 | In every run a task goes from running directly to done or to the user only if the final review query has passed |
| `StageHistory.UnreviewedTookDetour` | src/host/stage_machine.ts:170-174 | If a task that was running is later done, or with the user, and the query never passed, it left running for clarifying, for bootstrapping, or by a resume that does not return to running |
| `StageHistory.DetourSkipsFinalReview` | src/host/stage_machine.ts:170-174 | Each of the two detours backwards finishes every running task without a review, whatever else is under way |
| `StageHistory.StaleResumeSkipsFinalReview` | src/cli/exec.ts:598-601 | So does the third, with a resume that was loaded in an earlier pause |
| `StageHistory.UnreviewedEndIff` | src/host/stage_machine.ts:54-174 | A task can be finished without a change of the gates' answers if and only if it has not failed or been cancelled |
| `Stages.ManifestFile.ApplyStageTransition` | src/shared/manifest.ts:302-329 | Compare-and-swap: the stage, history, origin change if and only if the stage is the expected one and the arguments are valid |
| `StageMachine.HandleStageAdvance` | src/host/stage_machine.ts:202-271 | Advances to the new stage if and only if Meta may move the loaded stage there (`StageTable.MetaMay`), the review was held, and nobody wrote in between; otherwise says which of the three failed |
| `StageMachine.GateReadsBus` | src/host/stage_machine.ts:122-174 | A writer at the gate goes on if and only if the bus holds the review that its edge needs |
| `Jsonl.ReadLines` | src/shared/jsonl.ts:89-110 | The result depends on the bytes alone, for every chunking of them |
| `Jsonl.ReadLineByLine` | src/shared/jsonl.ts:66-110 | The bytes of lines and an unterminated rest are read as exactly those lines |
| `Jsonl.BadLine` | src/shared/jsonl.ts:66-87 | The first line that is empty or does not parse ends the reading; its number is reported, and the objects are those before it |
| `Jsonl.TruncationKeepsReading` | src/shared/jsonl.ts:112-134 | Truncation never changes what a reader sees and leaves a clean file |
| `Jsonl.AppendIsAtomic` | src/shared/jsonl.ts:44-64 | A crash at any byte of an append to a clean file, then truncation: the old objects or the old objects and the new one |
| `Jsonl.AppendToTornTail` | src/shared/jsonl.ts:44-64 | On a torn file the log stays readable if and only if the torn bytes parse |
| `Lines.JoinSegments` | src/shared/jsonl.ts:89-110 | The lines of a file are exactly its complete bytes |
| `StreamReader.ReadStreamFrom` | src/web/streamReader.ts:83-103 | One forward read yields the records of the complete lines from the offset and the next offset |
| `StreamReader.ReadStreamIncrement` | src/host/watcher/offsetTracker.ts:57-122 | The watcher's reader yields the same records and offset, and the stamp of the last stamped record |
| `StreamReader.PollIsWholeRead` | src/web/streamReader.ts:83-103 | For every append-only growth the increments together are one whole read |
| `StreamReader.TailStreamLines` | src/web/streamReader.ts:105-145 | A page is the last n lines before its right bound |
| `StreamReader.PageSize` | src/web/streamReader.ts:105-145 | A page holds n lines, or all if there are fewer |
| `StreamReader.PagesPartition` | src/web/streamReader.ts:105-145 | Chained pages adjoin and their offsets strictly decrease |
| `StreamReader.PagesCover` | src/web/streamReader.ts:105-145 | Chained pages in file order are one read from the oldest offset on |
| `StreamReader.PagesToTheTop` | src/web/streamReader.ts:105-145 | A chain that has reached offset 0 has shown the whole file |
| `StreamReader.GrowingPagesToTheTop` | src/web/streamReader.ts:105-145 | The same while the file grows between the pages: they show what was complete at the first one |
| `Utf8.TruncateUtf8Bytes` | src/host/tools/harness.ts:38-45 | The longest well-formed prefix within the limit, at most three bytes short of it |
| `Utf8.BoundTail` | src/host/watcher/compact_summary.ts:94-102 | What is kept is the longest well-formed suffix within the limit, at most three bytes short of it |
| `Utf8.CutIsValidIff` | src/host/tools/harness.ts:38-45 | Well-formed text can be cut exactly where no continuation byte follows |
| `Rfc3629.WellFormedIff` | src/host/tools/harness.ts:38-45 | Well-formed as used here means: the encoding of some sequence of characters, surrogates excluded (section 3 of RFC 3629) |
| `Wake.WakeCursor.OnMarkReadFailure` | src/host/main_loop.ts:145-161 | One more failure: the new ids are named up to the threshold, then one last notice |
| `Wake.EarlyNotice` | src/host/main_loop.ts:145-161 | In a streak of failures the first three each name exactly the ids that no earlier one had |
| `Wake.LateNotice` | src/host/main_loop.ts:145-161 | The fourth raises the last notice, later ones none |
| `Wake.SuccessEndsStreak` | src/host/main_loop.ts:131-161 | After a success the next failure names all its ids again |
| `Wake.WakeDeliversOnce` | src/host/daemon.ts:2148-2214 | With truthful acknowledgements no envelope is injected twice in one cursor life, none is marked before it is injected, and a streak raises at most K + 1 notices about different envelopes |
| `DoneCriteria.ValidateIds` | src/host/done_criteria/validate.ts:268-301 | Accepted if and only if there are checks and no explicit id is empty, reserved or used twice |
| `DoneCriteria.AutoIdsDiffer` | src/host/done_criteria/evaluate.ts:97 | Zero-padded automatic ids differ at every length and are reserved |
| `DoneCriteria.AutoIdText` | src/host/done_criteria/evaluate.ts:97 | An automatic id is `check_` and the position, padded with zeros to three digits |
| `DoneCriteria.IdAtIs` | src/host/done_criteria/evaluate.ts:97 | A check is reported under its own id, or if that is missing or empty under its position counted from 1 |
| `DoneCriteria.IdsDiffer` | src/host/done_criteria/evaluate.ts:92-116 | For accepted ids all reported ids differ |
| `DoneCriteria.EvaluateOutcome` | src/host/done_criteria/evaluate.ts:92-127 | Every check is reported under its id with its result, the three counts are right and add up, and all_pass means that every check passed |
| `DoneCriteria.CountIs` | src/host/done_criteria/evaluate.ts:117-120 | Each count is the size of the set of checks with that result |

## Left out

- CleanupPairsStarts: allows the one session that a takeover leaves behind; without that exception the property is false, see CleanupPairsExactly and TakeoverCanLoseARecord.
- SupersededOwnerWritesNothing: is about the files and excludes later stop calls, which are no superseded owners and can write (AnnouncesAfterTakeoverIff); that superseded owners write nothing is proved without this by StaleStopWritesNothing and StaleFinalizeWritesNothing.
- NoHotLoop: also counts workers closed by stop calls without restart; without them it is false, see OneInstructionManyAttempts.
- HostStaysAwake: assumes that enqueues succeed, no close is reported as the host's own, no takeover by timeout happens and no stop call comes inside `startWorker`; ForgetsIff says what the last of these costs.
- SessionNumbersIncrease: assumes that the counter file is not deleted (DeletedCounterFreshIff) and is about the current log; NumbersNeverReused is about all logs.
- SessionsAccountedFor: assumes that the event log was never set aside, since signals and ends on the bus are then about sessions that the log does not know; CleanupPairsExactly and LeftBehindStaysUnmatched use it.
- RecoveryConverges: assumes that at most the newest worker is unmatched and ends are keyed in session order; RecoveryAlwaysConverges assumes neither, and TwoRunsSettleIff says when two runs are enough.
- TwoRunsSettle: assumes the same; TwoRunsSettleIff is the exact condition.
- NoRunDuplicates: assumes the same; DuplicatesIff is the exact condition.
- DuplicatesIff: assumes that the ends that did not fail have readable payloads and that writes succeed; so do TwoRunsSettleIff, ReportedIff and UnmatchedInTheEndIff.
- RecoverAfterCrash: truncating a partial last line succeeds.
- Pull: payload contents are abstract, an envelope is readable or not; limits on the reader's name are not modelled.
- ReconcileWorkerCompletionPending: whether Meta is idle is an input; the reminders are modelled beside it, in `Reminders`.
- ValidateIds: the rules about the single checks (paths, interpreters, scripts) are not modelled.
- EvaluateOutcome: running the single checks and the outcomes for a missing or invalid configuration are not modelled.
- WakeDeliversOnce: batches and outcomes are arbitrary inputs; the text of the message is not modelled.
- ReadLines: JSON is an abstract parser of one line; a serialised object is one non-empty line that parses back.
- RoundTripIff: is about the two conversions alone; TextRoundTripIff adds the JSON text. Numbers that JSON cannot write are not modelled.
- TerminalIsAbsorbing: editing the manifest by other means than its writers (title, roles) is not modelled.
- When a turn has ended, what a watchdog decides, and how a session closes are arbitrary inputs of the lifecycle; provider sessions are not modelled.
- Session ids are identified with session numbers; reviewer, watcher and Meta sessions appear only where they write to the logs.
- The model lets cleanup begin also inside `finalizeWorker`, a superset of the code, where it begins between ticks.
- The flag `workerEndedWritten` is not modelled: nothing decides by it, cleanup always tries its idempotent append.
- A failing write of a start record ends the tick loop and leads to cleanup; other thrown errors are the failing outcomes of the steps.
- Locks are atomic steps, clocks are inputs, files are sequences or maps; a missing file is an empty one, and timestamps are natural numbers.
- The `from` field of envelopes, prompt texts, status.md, conversation.md, the web server, argument parsing and configuration are not modelled.
