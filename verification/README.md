# Zero Trust agent and manager: a verified model

An endpoint agent watches a machine, evaluates what it sees, queues telemetry while it cannot reach its
manager, and executes signed commands. The manager stores the telemetry, runs the detection pipeline over it
and keeps rules, policies, risk scores and commands. Both sides keep their state in SQLite tables that
threads, worker processes, crashes and lost replies touch in any order. This project models those tables and
the code that changes them, and proves what every run of them keeps.

Tables are sequences or maps of rows. A `BEGIN IMMEDIATE ... commit` block is one atomic step that leaves the
old state on failure. Code that changes state in place is a class whose methods are proved equal to a
function from the old state to the new one; what the design promises is then proved about those functions, by
lemmas over single steps and over whole runs. Crashes, restarts, lost messages and the interleavings of
threads are steps like any other. Times are integers (seconds; reals for risk decay), hashes and
deterministic identifiers are injective, and a JSON text is a value that can be compared.

| file | models |
|---|---|
| `Options.dfy` | a value that may be absent |
| `Telemetry.dfy` | the telemetry record both sides handle |
| `AgentQueue.dfy` | the agent's durable queue: claim, retry, quarantine, delete, restart |
| `AgentSync.dfy` | one synchronization cycle of the agent, with its adaptive batch size |
| `Ingestion.dfy` | the manager's ingestion: receipts, up-front reading, chunked transactions, first write wins |
| `StoreForward.dfy` | agent queue and manager store together, over runs with failures on both sides |
| `BatchSplitting.dfy` | repeated cycles against a reachable manager: termination and its outcome |
| `CommandTable.dfy` | the manager's commands and result rows: dispatch, expiry, results |
| `CommandJournal.dfy` | the agent's command journal: claim, execute, report, crash recovery |
| `CommandProtocol.dfy` | journal and command table together |
| `EventWorker.dfy` | background claiming, retrying and dead-lettering of events |
| `Conditions.dfy` | the condition validator and evaluator |
| `Policies.dfy` | policy order, selection, and the response to one rule match |
| `OfflineEvidence.dfy` | offline evaluation on the agent and its re-check on the manager |
| `Correlation.dfy` | the sliding-window correlator, and what replaying only the newest events forgets |
| `CorrelationRebuild.dfy` | the rebuild before each event: the query, its order of timestamp texts, the replay |
| `Risk.dfy` | the risk engine, the risk ledger and its decay |
| `RuleHistory.dfy` | versioned rules under concurrent writers |
| `JsonlTail.dfy` | tailing an append-only file of JSON lines |

## What turned out not to hold

Each of these is proved by an input on which the expected property fails. Where it says "if and only if", the
exact condition under which the property holds is proved as well.

- A record that makes the manager fail with an exception its POST handler does not turn into an answer
  (a `KeyError`, say, where only `ValueError`, `TypeError` and `AttributeError` are caught,
  `api/server.py:1262-1264`) is never quarantined: draining the queue ends if and only if no eligible record
  does that (`BatchSplitting.DrainEndsExactly`).
- The manager compares a repeated event by its raw form and agent only. A second record of a stored event
  that differs in its offline evidence is acknowledged and its evidence dropped: an accepted record's evidence
  is the stored one if and only if nothing with other evidence was stored under its event before
  (`Ingestion.SecondEvidenceIsDropped`, `Ingestion.EvidenceArrivesExactly`).
- A batch is not atomic: a refused one may leave whole chunks stored (`Ingestion.RefusedBatchMayBeHalfStored`).
  It is without effect if and only if it was refused before anything was stored, or every event in the chunks
  before the failing one was stored already (`Ingestion.RefusedBatchIsAtomicExactly`). `README.md:316` of the
  repository speaks of atomic batches; the code is `api/ingestion.py:162-164`.
- The failure handler of the background worker writes over whatever the event has become. Effects are
  exactly-once if and only if it never meets a completed event, which a publication error after the commit,
  or a failing second worker process started beside the first, can bring about
  (`EventWorker.FailureAfterCommitRepeatsEffects`, `EventWorker.EffectsAreExactlyOnce`).
- A result that was recorded and is sent a second time is refused if and only if its verification is a number or
  a Boolean, which is stored as Python's text for it (`CommandTable.ScalarIsRefusedWhenRepeated`,
  `CommandTable.RepeatIsAcknowledged`). A result whose verification is an object, a list or an integer beyond 64
  bits is never recorded nor acknowledged: the column refuses it with an exception that leaves the request without
  an answer (`CommandTable.UnbindableIsNeverTaken`).
- A terminal command need not have a result row: one imported with offline evidence has none. It has one if and
  only if it was not imported (`CommandTable.ResultRowsExactly`).
- An identifier of a deleted rule can never be used again, because its versions survive
  (`RuleHistory.UsedIdentifierIsGone`): a valid rule with a free code is accepted if and only if its identifier
  was never used (`RuleHistory.IdentifierIsFreeExactly`).
- A policy condition that looks at the alert is answered differently by agent and manager, and the whole
  record is then refused (`OfflineEvidence.RefusedEvidence`); the agent's evidence passes if and only if it was
  evaluated before expiry, no evaluated policy looks at the alert, and its commands ended importably
  (`OfflineEvidence.RecheckAcceptsExactly`).
- The manager's rebuilt correlator misses a finding when the omitted events end exactly one window before the
  kept ones, at its limit of 1000 events as at any other (`Correlation.RebuildNeedsTheStrictGap`,
  `Correlation.ThousandEventsAreNotEnough`). A strictly larger gap is proved sufficient
  (`CorrelationRebuild.RebuildIsFaithful`).
- The rebuild selects and orders events by the text of their timestamps (`engine/pipeline.py:38-42`), and events
  keep the offset they were stamped with (`engine/events/wazuh_adapter.py:19-29`). With different offsets a later
  event may be replayed (`CorrelationRebuild.LaterEventIsReplayed`) or an earlier one omitted
  (`CorrelationRebuild.EarlierEventIsOmitted`), and a finding is lost. The replayed events are the past in the
  order of time if and only if the texts tell past and time (`CorrelationRebuild.RebuildSeesThePastExactly`); one
  offset for all of an agent's events is enough (`CorrelationRebuild.OneOffsetTellsTime`).
- The correlation engine depends on the order of arrival in its execution rule
  (`Correlation.OutOfOrderLosesAFinding`), though not in its authentication rule.
- One unparseable line stops the tailing of a JSON-lines file for good (`JsonlTail.UnparseableLineBlocks`):
  all complete lines come to be delivered if and only if all of them parse
  (`JsonlTail.AllLinesAreDeliveredExactly`).
- The chain of risk scores can break when the clock is set back (`Risk.ClockMustNotRunBack`). It holds over a run
  if and only if no action adds rows while the newest row of its agent by time is not the one inserted last and has
  another score (`Risk.LedgerChainsExactly`); the range of scores needs no condition (`Risk.ScoresStayInRange`).

`ARCHITECTURE.md:44` says that identical detections share an incident. In `engine/pipeline.py:98-106`, which
the model follows, an incident belongs to one event and one rule.

## Model

| member | source | states |
|---|---|---|
| AgentQueue.OfflineQueue.constructor | agent/storage/offline_queue.py:105 | row by row: what was in flight is retryable and due at its old time, with record and attempts kept; every other row is as it was |
| AgentQueue.OfflineQueue.Enqueue | agent/storage/offline_queue.py:168-211 | a new event gets a pending row at the end; a known one is refused exactly when payload, kind or severity differ, and otherwise nothing changes |
| AgentQueue.EnqueueIsIdempotent | agent/storage/offline_queue.py:185-196 | after an enqueue the record is held, rows stay unique, and a second enqueue of its name conflicts iff record, kind or severity differ |
| AgentQueue.NewRowIsClaimable | agent/storage/offline_queue.py:205-209 | a new event stands at the end and can be claimed at any time, and nothing before it changes |
| AgentQueue.OfflineQueue.ClaimBatch | agent/storage/offline_queue.py:236-272 | the loop computes the claim function for every configured timeout: stale rows recovered, due rows taken |
| AgentQueue.ClaimIsOldestFirst | agent/storage/offline_queue.py:260-264 | the batch is the first due records in queue order, all of them or as many as asked for |
| AgentQueue.ClaimTakesDueRows | agent/storage/offline_queue.py:252-269 | only due rows go in flight, every other row is as it was except for the recovery of stale ones, and payloads never change |
| AgentQueue.ClaimTreatsRows | agent/storage/offline_queue.py:236-272 | row by row: the first rows whose time has come, or whose upload was lost for the timeout and half a minute at least, go in flight with one more attempt; of the others only lost uploads change, to wait again |
| AgentQueue.EmptyClaimMeansNothingIsDue | agent/storage/offline_queue.py:260-265 | the batch is empty iff no row is due |
| AgentQueue.OfflineQueue.MarkRetry | agent/storage/offline_queue.py:275-293 | exactly the named rows become retryable or quarantined, by error class and attempts, with their next time |
| AgentQueue.RetryTreatsRows | agent/storage/offline_queue.py:275-293 | row by row: which classes set a row aside, at once or at the third refusal of the identity, when the next attempt is, and that all else stays |
| AgentQueue.BackoffDoubles | agent/storage/offline_queue.py:285-286 | the wait is 0 for the first attempt and 2 for the second, doubles up to 256 at the ninth, grows monotonically and never reaches its cap of 300 |
| AgentQueue.OfflineQueue.MarkSynced | agent/storage/offline_queue.py:309-317 | a row is left iff it is not named; what is left is in its old order and as often as before |
| AgentQueue.WithoutIs | agent/storage/offline_queue.py:309-317 | deletion keeps a row iff it is not named, and keeps rows unique |
| AgentQueue.BookkeepingKeepsCargo | agent/storage/offline_queue.py:236-293 | claim, retry, quarantine and restart never lose, add or alter what was queued |
| AgentSync.Daemon.Quarantine | agent/agent_daemon.py:473-502 | the loop splits the claimed records into eligible ones, in order, and ineligible ones, which are quarantined before the upload |
| AgentSync.Daemon.Settle | agent/agent_daemon.py:513-576 | each reply settles the batch, the batch size and the reported offline commands as its branch says: split, retry, quarantine, delete and grow |
| AgentSync.Daemon.SyncOfflineQueue | agent/agent_daemon.py:460-584 | one whole cycle equals the cycle function of the old state; command reports follow iff nothing was uploaded or the batch was acknowledged |
| AgentSync.UploadIsFromTheQueue | agent/agent_daemon.py:466-509 | what is uploaded comes from distinct queued rows and is no more than the batch size; of the claimed records it is exactly those of no other agent whose evidence, if any, is authorized |
| AgentSync.RowsDuringUpload | agent/agent_daemon.py:466-502 | while an upload is under way every row is untouched, in flight, or quarantined for security, according to whether it was claimed and eligible |
| AgentSync.MaximumIsTheLeastSetting | agent/agent_daemon.py:461-463 | the operational maximum is the least of both settings and 50 |
| AgentSync.SizeIsTheAdaptiveOne | agent/agent_daemon.py:464-465 | a claim asks for the adaptive size, kept between 1 and the maximum, which is the default |
| AgentSync.OutageKeepsTheBatch | agent/agent_daemon.py:513-576 | after status 429, any from 500 on, or no reply, every row of the batch waits and no other changes; a status leaves the batch size, a lost reply halves it |
| AgentSync.RefusedIdentityIsRetriedTwice | agent/agent_daemon.py:516-532 | after status 401 or 403 a row of the batch waits below three attempts and is set aside from the third on |
| AgentSync.RefusalIsolatesTheRecord | agent/agent_daemon.py:516-532 | any other status sets a single record aside; a larger batch stays due at once and the batch size is halved |
| AgentSync.MalformedReplySetsTheBatchAside | agent/agent_daemon.py:542-546 | a success without a readable acknowledgement sets the whole batch aside |
| AgentSync.AcknowledgementSettlesTheBatch | agent/agent_daemon.py:547-566 | exactly the acknowledged rows of the batch leave the queue, its other rows wait, and no other changes |
| AgentSync.AcknowledgementGrowsTheBatch | agent/agent_daemon.py:549-564 | the batch size doubles up to the maximum, and exactly the commands in acknowledged evidence become reported |
| AgentSync.NothingIsLostInAnOutage | agent/agent_daemon.py:513-576 | over any number of cycles during an outage every record stays queued, and none that is the agent's own is set aside |
| Ingestion.IngestStore.SaveEvent | storage/database.py:659-697 | first write wins: a repeated event is refused iff agent or raw form differ, or the normalized form where there is no raw one; nothing stored changes |
| Ingestion.IngestStore.StoreChunk | api/ingestion.py:163-179 | one transaction: all of the chunk with its evidence, or the old store |
| Ingestion.IngestStore.ReadBatch | api/ingestion.py:132-158 | the first record that cannot be read decides how the whole batch fails, before anything is stored |
| Ingestion.IngestStore.StoreBatch | api/ingestion.py:162-179 | chunk after chunk up to the first that fails; on success every record is listed as accepted |
| Ingestion.IngestStore.Ingest | api/ingestion.py:104-198 | receipt lookup, reading, chunks, the rest of the envelope and the receipt equal the ingestion function of the old store |
| Ingestion.CommitIsAtomic | storage/database.py:57-74 | a chunk stores all its records, or leaves the store as it was; new events come from the chunk, evidence is counted once |
| Ingestion.IngestKeeps | api/ingestion.py:104-198 | however ingestion ends: nothing stored changes, evidence is imported once per event, receipts name only stored records, and an acceptance names exactly the batch, all of it stored |
| Ingestion.AcceptsExactlyFaultlessBatches | api/ingestion.py:120-198 | a batch of distinct events is accepted iff it has at most 500 records, no other batch was taken under its name, every record is readable, of the agent, and new with evidence that passes or stored with the same agent and raw form, and the rest of the envelope is taken or was before; unanswered only because of something that breaks the request |
| Ingestion.KnownEventIsTakenExactly | storage/database.py:664-666 | a record of a stored event is taken iff agent and raw form are the stored ones, and the normalized form where there is no raw one; it changes nothing either way |
| Ingestion.NewEventsHoldTheirRecords | api/ingestion.py:171-175 | a newly stored event has agent, raw and normalized form and evidence of a record of the batch, and is offline iff the record says so, or says nothing and the request is offline or names its batch |
| Ingestion.NamesTellBatchesApart | api/ingestion.py:108-129 | two requests share a name iff they are of one agent and name one batch, or have no name but the same records |
| Ingestion.AcceptedForGood | api/ingestion.py:128-134 | an accepted request is answered the same and without effect ever after, and nothing else is taken under its name |
| Ingestion.FaultIsStable | api/ingestion.py:162-179 | what is wrong with a record is not changed by ingesting a batch in which no other record has its name |
| Ingestion.EvidenceArrivesExactly | api/ingestion.py:172-175 | an accepted record's evidence is the stored one iff nothing with other evidence was stored under its event before |
| Ingestion.SecondEvidenceIsDropped | storage/database.py:664-666 | a counterexample: the second evidence of an event is acknowledged and not imported |
| Ingestion.FailedBatchLeavesWholeChunks | api/ingestion.py:162-164 | a batch that fails while storing leaves exactly the chunks before the one with the failing record: its position, divided by the chunk size and rounded down |
| Ingestion.RefusedBatchIsAtomicExactly | api/ingestion.py:104-198 | what a batch that is not accepted leaves stored, and that it leaves the store as it was iff it was refused before storing, or every event in those chunks was known; with distinct events the failing record is the first at fault |
| Ingestion.RefusedBatchMayBeHalfStored | api/ingestion.py:162-164 | a counterexample to atomic batches |
| StoreForward.AcknowledgedRowsAreStored | agent/agent_daemon.py:544-561 | an acknowledgement deletes only rows whose records the manager stores, and reports only commands of such records |
| StoreForward.IngestIsARun | api/ingestion.py:104-198 | one call of ingestion is the run of one uninterrupted thread of the interleaved system: same store, and a reply for what is accepted |
| StoreForward.CycleIsARun | agent/agent_daemon.py:460-584 | one synchronization cycle is a run of the interleaved system: same rows, same reported commands |
| StoreForward.StepKeeps | api/ingestion.py:104-198 | every step of either side keeps both sides' invariants, and changes or removes nothing stored |
| StoreForward.NothingIsLost | agent/agent_daemon.py:511-576 | over any run of enqueues, claims, lost replies, failing chunks, receipts and restarts: what was queued is queued as it was, or stored under its name with its own agent and raw form, and its normalized form where there is no raw one; evidence is imported once |
| StoreForward.StoredForGood | storage/database.py:659-697 | what one world has stored every later world has stored, unchanged |
| StoreForward.EnqueuedIsQueued | agent/storage/offline_queue.py:185-209 | whatever is enqueued has its row, unless its name stands for something else |
| StoreForward.RestartFreesTheQueue | agent/storage/offline_queue.py:105 | a restart of the agent leaves nothing in flight, every record in its row, and what waited or was set aside as it was |
| StoreForward.EvidenceReachesTheManager | api/ingestion.py:172-175 | if a name is new to the manager and stands for one record only, every record queued under it is still queued or stored with its own evidence, imported once |
| StoreForward.ReportedOfflineMeansImported | agent/agent_daemon.py:549-560 | under the same condition, a command executed offline counts as reported only when its evidence is stored and was imported once |
| BatchSplitting.TurnTreatsRows | agent/agent_daemon.py:460-584 | a cycle against the manager removes exactly acknowledged rows, quarantines a refused record only when it was uploaded alone, and ineligible ones for security |
| BatchSplitting.TurnKeepsTrack | agent/agent_daemon.py:515-566 | every cycle keeps every record accounted for: open and due, delivered, or quarantined for its proper reason |
| BatchSplitting.TurnMakesProgress | agent/agent_daemon.py:522-529 | every cycle closes a row or shrinks the effective batch size |
| BatchSplitting.QuietMeansSorted | agent/agent_daemon.py:460-584 | when nothing is open, the queue holds exactly the undeliverable records, each quarantined with its reason, and every other record is stored |
| BatchSplitting.DrainEndsExactly | agent/agent_daemon.py:573-576 | repeated cycles settle every row iff no eligible record makes the manager fail without an answer |
| BatchSplitting.StuckForever | api/server.py:1262-1264 | a record that breaks the request stays queued and open through any number of cycles |
| CommandTable.CommandStore.Heartbeat | api/server.py:931-944 | exactly the agent's queued, authorized and dispatched commands whose time is not over are returned and left dispatched |
| CommandTable.CommandStore.ExpireCommands | api/background.py:108-113 | exactly the commands past their lifetime that have not ended become expired |
| CommandTable.HeartbeatDispatches | api/server.py:931-944 | a heartbeat leaves every such command dispatched and touches no other |
| CommandTable.SweepLeavesNothingOverdue | api/background.py:108-113 | a sweep expires exactly the open commands whose time is over or was never set, and leaves none |
| CommandTable.DispatchAndExpiryInTime | api/server.py:931-944 | over every run what is dispatched or executing was asked for by its own agent before its time was over, and what is expired was swept when it was |
| CommandTable.CommandStore.CommandResult | api/ingestion.py:12-101 | the branches of result handling, the exception of the insert included, equal the receipt function of the old tables |
| CommandTable.EndIsRecordedExactly | api/ingestion.py:26-92 | when exactly an end is recorded, by status, agent, the verification each action demands, start in time after expiry, and name; what the row then says |
| CommandTable.StartIsRecordedExactly | api/ingestion.py:73-75 | a start is recorded iff the command is dispatched, and taken without effect iff it is executing |
| CommandTable.ClosedTakesItsOwnReport | api/ingestion.py:49-58 | a closed command takes exactly the report that closed it, unless its verification is a scalar, and refuses any other |
| CommandTable.NamesTellReportsApart | api/ingestion.py:45-47 | a report goes by its own name, or by the six fields that are hashed |
| CommandTable.CommandStore.ImportCommand | api/ingestion.py:247-266 | an offline command whose end is importable is saved under its identifier, with no result; any other changes nothing |
| CommandTable.RankNeverFalls | api/ingestion.py:26-92 | no step, imports included, takes a command back in QUEUED < DISPATCHED < EXECUTING < EXPIRED < final, nor changes a final row, iff it does not save over a command that has moved on |
| CommandTable.CommandsCloseSoundly | api/ingestion.py:26-92 | over every run each terminal command was imported with offline evidence, or has a result row that agrees with it; then a success has its required verification, a success or failure after expiry began before it |
| CommandTable.ResultRowsExactly | api/ingestion.py:247-266 | over every run a terminal command has a result row iff it was not imported with offline evidence |
| CommandTable.SuccessIsEvidenced | api/ingestion.py:32-44 | over every run a success that was reported has the verification its action demands, and none is of an action that cannot be verified |
| CommandTable.OneResultRow | api/ingestion.py:81-90 | a command never has two result rows |
| CommandTable.TerminalIsAbsorbing | api/ingestion.py:45-56 | a terminal command and its result row stay as they are through any run |
| CommandTable.ImportedIsAbsorbing | api/background.py:108-113 | a command in its last state, an interrupted offline one included, stays as it is through any run |
| CommandTable.RepeatIsAcknowledged | api/ingestion.py:45-56 | a recorded result sent again changes nothing; it is refused iff its verification is a number or a Boolean, and acknowledged otherwise |
| CommandTable.ScalarIsRefusedWhenRepeated | storage/database.py:1801-1808 | a counterexample: a failure with the verification `true` is stored as `True` and conflicts with itself |
| CommandTable.UnbindableIsNeverTaken | api/ingestion.py:84-88 | a result with an object, a list or too large an integer as verification is never acknowledged and changes nothing; when exactly it stays without an answer |
| CommandJournal.Journal.Claim | agent/agent_daemon.py:276-295 | a new command is claimed and journalled as received; a known one is answered with its report, or with the unfinished claim if there is none |
| CommandJournal.Journal.Recover | agent/storage/offline_queue.py:112-139 | exactly the interrupted claims get an UNKNOWN report, and their number is returned |
| CommandJournal.Journal.UploadResults | agent/agent_daemon.py:317-326 | only reports the manager took are marked, nothing else changes; without an exception every waiting report it takes is marked |
| CommandJournal.AdvanceIsExclusive | agent/agent_daemon.py:270-315 | every step keeps one thread per claimed command, no second execution, and every report as it is |
| CommandJournal.AtMostOnce | agent/agent_daemon.py:270-315 | under any interleaving of deliveries, crashes and restarts no command reaches the executor twice |
| CommandJournal.NewCommandIsExecuted | agent/agent_daemon.py:270-315 | in every reachable state a command that is not in the journal is claimed, executed once and journalled with the very report the executor returned, whatever other threads do meanwhile |
| CommandJournal.ReportIsFinal | agent/agent_daemon.py:276-280 | once there is a report, every later delivery in any run returns that report |
| CommandJournal.RestartClosesClaims | agent/storage/offline_queue.py:112-139 | after a restart every claimed command has the report it had, or one of unknown end, and never runs again |
| CommandProtocol.AcknowledgedMeansAgreed | api/ingestion.py:45-92 | a result the manager acknowledges is what its row says afterwards |
| CommandProtocol.ReportedMeansAgreed | agent/agent_daemon.py:317-326 | a command the journal counts as reported is terminal at the manager with the status, verification and error of the journal's one report |
| CommandProtocol.TerminalMeansJournalled | api/ingestion.py:73-90 | a command terminal at the manager was imported, or was ended by the journal's report and no other |
| CommandProtocol.StartIsDelivered | agent/agent_daemon.py:298-301 | a posted start makes a dispatched command an executing one |
| CommandProtocol.WaitingReportIsDelivered | agent/agent_daemon.py:317-326 | a waiting report that the manager may record is, by one posting without loss, what the manager's row says and marked as reported |
| CommandProtocol.RepeatedReportIsDelivered | agent/agent_daemon.py:317-326 | a report that closed its command is taken again when it is posted again, without effect at the manager, and then marked |
| CommandProtocol.CommandRunsItsCourse | agent/agent_daemon.py:270-326 | from every reachable state of agent and manager a new command is handed out by its agent's next heartbeat, executed once, and its report is taken and marked |
| EventWorker.EventStore.constructor | api/background.py:17 | at least one attempt is always allowed |
| EventWorker.EventStore.ClaimBatch | api/background.py:55-70 | the claiming transaction equals the claim function: first claimable rows, attempts counted, owner set |
| EventWorker.ClaimIsOldestFirst | api/background.py:56-61 | the claimed events are the first claimable ones in the table's order, all of them or the limit |
| EventWorker.ClaimTreatsRows | api/background.py:55-66 | row by row: a new event, or a failed one with attempts left whose time has come, is taken while fewer than the limit before it were; no other row changes |
| EventWorker.EventStore.Process | engine/pipeline.py:48-54 | detection commits its effects and completes the event iff the event is not completed yet |
| EventWorker.ReadyEventIsDetected | api/background.py:55-75 | a ready event with fewer than fifty before it is claimed by the next tick and completed by its detection with its effects committed |
| EventWorker.DetectionRuns | engine/pipeline.py:48-54 | the detection of a claim commits effects and completes the event iff nothing completed it before |
| EventWorker.ArrivalIsReady | storage/database.py:694-696 | a new event is ready at once, wherever it stands |
| EventWorker.ImportIsComplete | api/ingestion.py:173-175 | an event that comes with its offline evidence has its effects committed at once and is never ready |
| EventWorker.RetryMakesReady | api/server.py:969-985 | a manual retry makes a failed event ready with all its attempts, and touches no other |
| EventWorker.EventStore.RecordFailure | api/background.py:76-87 | row by row: the event is failed and nobody's, to be claimed from its retry time on within its attempts, or never again at the last; no other event is touched |
| EventWorker.FailureIsRetried | api/background.py:76-87 | a recorded failure ends the claim, and the event is ready from its retry time on iff attempts are left |
| EventWorker.EventStore.RecoverAbandoned | api/background.py:22-28 | row by row: what was in processing is failed, nobody's and claimable when its time has come, within the attempts it has left; every other event is as it was |
| EventWorker.AbandonedIsRetried | api/background.py:20-28 | when a worker dies and another starts, the claims are gone and what was in processing is ready again at its time within its attempts |
| EventWorker.DetectedClaimEnds | api/background.py:71-75 | a claim ends only when its transaction has run |
| EventWorker.StepKeepsEffects | engine/pipeline.py:188-193 | a step keeps effects committed iff completed, and once, iff it records no failure over a completed event |
| EventWorker.EffectsAreExactlyOnce | api/background.py:71-95 | over every run of any workers, effects are exactly-once throughout iff no failure is ever recorded over a completed event |
| EventWorker.FailureAfterCommitRepeatsEffects | api/background.py:71-87 | a counterexample: an error after the commit makes the next attempt commit its effects again |
| EventWorker.DisciplinedRunsAreExactlyOnce | api/background.py:20-28 | workers that start only when no claim is outstanding and do not fail after committing have exactly-once effects |
| EventWorker.NewClaimsAreOwned | api/background.py:62-66 | claims by distinct workers are on distinct events |
| EventWorker.ClaimsArePaid | api/background.py:55-64 | without new events, every claim of a run is paid from the attempts that were left |
| EventWorker.TickingGoesQuiet | api/background.py:55-61 | without new events, more claiming steps than attempts left include one that finds nothing |
| EventWorker.ClaimsAreBounded | api/background.py:56-64 | between manual retries no event is claimed more often than attempts are allowed, crash recovery included |
| Conditions.ValidateNode | engine/events/conditions.py:32-85 | the visit with its shared counter equals the counting function: same verdict, same counter |
| Conditions.ThreadedCheckIsGlobalBound | engine/events/conditions.py:32-85 | accepted iff every node is well shaped, depth + height - 1 is at most 8 and count + size at most 128; the counter is then count + size |
| Conditions.Validate | engine/events/conditions.py:27-30 | no error iff the tree is well shaped, at most 8 high and of at most 128 nodes |
| Conditions.LeafIsAcceptedExactly | engine/events/conditions.py:56-85 | a leaf is accepted iff its field has a name of at most 128 characters without empty parts and its value is of the kind its operator compares with |
| Conditions.FieldLengthIsOfTheName | engine/events/conditions.py:60 | the length that is bounded is that of the dotted name |
| Conditions.LookupFollowsThePath | engine/events/conditions.py:112-119 | a path is followed part by part through objects |
| Conditions.LeafAnswers | engine/events/conditions.py:112-154 | an absent or null field matches only where absence is asked for and is no failure; a present one is compared; the trace says what was asked and found |
| Conditions.EvaluationIsErrorStrict | engine/events/conditions.py:97-154 | the error is the first failing leaf's; the result is true iff no leaf fails and the classical value is true |
| Conditions.NegationNeverMatchesOnError | engine/events/conditions.py:105-112 | NOT matches iff its child was evaluated without failure and is false |
| Conditions.DoubleNegation | engine/events/conditions.py:97-112 | two negations change neither result nor error |
| Conditions.DeMorgan | engine/events/conditions.py:97-112 | De Morgan's laws hold for results and errors |
| Conditions.ChildOrderIsIrrelevant | engine/events/conditions.py:97-112 | permuting the children changes neither the result nor whether there is an error |
| Policies.SortedIsAnOrderedPermutation | engine/policy/engine.py:164 | sorting by (priority, code, id) yields an ordered permutation |
| Policies.KeyOrderIsTransitive | engine/policy/engine.py:62-64 | the order of sort keys is transitive |
| Policies.KeyOrderIsTotal | engine/policy/engine.py:62-64 | of two different keys exactly one comes first |
| Policies.TextOrderIsAlphabetical | engine/policy/engine.py:62-64 | codes and identifiers are ordered by their first different character, a prefix first |
| Policies.WinnerIsLeastTriggered | engine/policy/engine.py:160-169 | the selected policy is a triggered one with the smallest priority, among those the first code, then the first identifier; there is none iff none is triggered |
| Policies.TriggersExactly | engine/policy/engine.py:105-143 | a policy triggers iff it is enabled, not linked to another rule, in a known mode, allowed offline where that counts, and its valid condition matches |
| Policies.PolicyMatchesItsBand | engine/policy/engine.py:119-123 | a policy without a condition matches the risk scores from its minimum to its maximum |
| Policies.SelectionIgnoresListOrder | engine/policy/engine.py:160-169 | with distinct keys the list order of the policies is irrelevant |
| Policies.TiedKeysFollowListOrder | engine/policy/engine.py:62-64 | with equal keys it is the list order that decides |
| Policies.RespondToMatch | engine/pipeline.py:137-183 | the pipeline's loop selects the same winner, marks every other triggered policy NOT_SELECTED, and saves at most one command, only for an enforcing winner |
| Policies.RespondToWinner | engine/pipeline.py:154-176 | when exactly the winner is recommended, not executed, historical, blocked or queued, by mode, action, source and open incident; queued iff a command is saved |
| OfflineEvidence.EvaluateOffline | engine/pipeline.py:68-184 | the offline loop over rules and policies collects exactly the matches, evaluations and commands of the matching offered rules |
| OfflineEvidence.ImportOffline | api/ingestion.py:201-284 | evidence is taken iff every match, incident, evaluation, command, rule evaluation and risk row passes its check, and then completely; otherwise only what came before the first failure was saved |
| OfflineEvidence.TakenEvidenceIsTrue | api/ingestion.py:201-284 | whoever made it, evidence that is taken is in time and about its agent; every match is of an offered rule that matches the event, every triggered row of a policy that may trigger, every command of an enforcing policy that is allowed offline, with a triggered row |
| OfflineEvidence.AgentEvidenceHolds | engine/pipeline.py:68-184 | the agent's evidence has a match, an incident and a risk row for exactly the offered rules that match, a rule evaluation for exactly the offered ones, and commands only of enforcing policies with actions that may be carried out offline, as they ended |
| OfflineEvidence.EnforcedMatchHasItsCommand | engine/pipeline.py:154-176 | a match has its command where the winning policy enforces an action that may be carried out offline and can be built |
| OfflineEvidence.RuleRowsAre | engine/pipeline.py:68-92 | exactly the offered rules leave a rule evaluation, which says whether they match |
| OfflineEvidence.ContextSays | engine/pipeline.py:129-134 | what a policy's condition can read of a match besides the event |
| OfflineEvidence.ContextKeepsTheEvent | engine/pipeline.py:129-134 | and the event's own fields as they were |
| OfflineEvidence.TraceTellsWhetherAlertWasRead | engine/events/conditions.py:97-154 | a condition's traces with and without the alert are equal iff no leaf reads it |
| OfflineEvidence.DecisionsAgree | engine/policy/engine.py:125-158 | both sides reach the same decision with the same trace iff the policy does not look at the alert |
| OfflineEvidence.RecheckAcceptsExactly | api/ingestion.py:207-284 | the agent's evidence passes the re-check iff evaluated before expiry, with no policy that looks at the alert where a rule matched, and every command ended importably with parameters that survive the dry run |
| OfflineEvidence.RefusedEvidence | api/ingestion.py:229-240 | a counterexample: an event that matches a rule beside a policy that asks for the alert; the evidence the agent makes of it is refused |
| Correlation.CorrelationEngine.PruneBuffer | engine/correlation/engine.py:34-40 | exactly the agent's events older than the window are dropped, the rest kept in order |
| Correlation.CorrelationEngine.ProcessEvent | engine/correlation/engine.py:42-112 | one call equals the step function of buffers and failure lists |
| Correlation.FailuresAreTracked | engine/correlation/engine.py:67-86 | a failure list holds exactly the failures since the last finding under its key |
| Correlation.KeysTellUsersApart | engine/correlation/engine.py:61 | events of one agent have one key iff they are of the same user, without a user being the same as of the user unknown |
| Correlation.BufferIsTracked | engine/correlation/engine.py:53-56 | the buffer holds exactly the events in the window of every later event |
| Correlation.FindingsOnAnyOrder | engine/correlation/engine.py:42-112 | the findings on any arrival order, from the full history |
| Correlation.CorrelationRefinesHistory | engine/correlation/engine.py:42-112 | on ordered runs: EXEC fires iff a PowerShell event is in the connection's window, AUTH iff three in-window failures of the same user follow the user's last finding, with their number |
| Correlation.OtherUsersDoNotMatter | engine/correlation/engine.py:58-86 | the authentication findings for a user are those of the user's own events alone |
| Correlation.OutOfOrderLosesAFinding | engine/correlation/engine.py:34-40 | an order of arrival on which the engine loses a finding |
| Correlation.NewestReplayIsFaithful | engine/correlation/engine.py:42-112 | replaying the newest events of an ordered history gives the next event the findings of the whole when the omitted ones end more than a window before the kept ones |
| Correlation.RebuildNeedsTheStrictGap | engine/pipeline.py:37-46 | for every limit, an ordered history whose omitted events end exactly one window before the kept ones, and a finding the rebuild loses |
| Correlation.ThousandEventsAreNotEnough | engine/pipeline.py:38-42 | the same at the limit of 1000 |
| CorrelationRebuild.FindAfterRebuild | engine/pipeline.py:37-46 | the query's result, replayed from its end into a fresh engine, gives the step function's findings for the event |
| CorrelationRebuild.OffsetsSortAsTexts | engine/pipeline.py:38-42 | of equal local times the text with `+` comes before the one with `-`, and the smaller distance from UTC first |
| CorrelationRebuild.TextOrderIsTimeOrderExactly | engine/pipeline.py:38-42 | rows in the order of their timestamp texts are in the order of time iff the texts tell time |
| CorrelationRebuild.RebuildSeesThePastExactly | engine/pipeline.py:38-42 | the rows the query is about are the agent's events up to the current one, in the order of time, iff their texts tell past and time |
| CorrelationRebuild.OneOffsetTellsTime | engine/events/wazuh_adapter.py:19-29 | timestamps with one offset tell past and time |
| CorrelationRebuild.RebuildIsFaithful | engine/pipeline.py:33-46 | where the texts tell past and time, and omitted events end more than a window before kept ones, the findings are those of the agent's full history |
| CorrelationRebuild.LaterEventIsReplayed | engine/pipeline.py:38-42 | a counterexample: with an offset larger than the window a later event is replayed, and the finding is lost |
| CorrelationRebuild.EarlierEventIsOmitted | engine/pipeline.py:38-42 | a counterexample: an earlier event with an offset is omitted, and the finding is lost |
| Risk.RiskEngine.ApplyDelta | engine/risk/engine.py:54-77 | the row links the old score to the sum with the delta, cut off at 0 and 100, which is stored with the history |
| Risk.RiskEngine.ApplyDecay | engine/risk/engine.py:79-112 | a row iff a minute passed and whole points are due above the minimum; it takes the points, or what is left |
| Risk.RecordAttempt | engine/pipeline.py:55-67 | an attempt starts from the stored score and applies its deltas one after the other |
| Risk.AttemptAddsItsChanges | engine/pipeline.py:55-67 | a committed attempt adds a row for each change, from the score of the agent's newest row on, each the sum cut off at 0 and 100; a rolled-back one adds none |
| Risk.TickTakesWholePoints | api/background.py:114-128 | the decay adds a row iff no critical incident is open, points are left and the time since the newest row is worth a whole one; it takes the whole points or what is left |
| Risk.ScoresStayInRange | engine/risk/engine.py:54-77 | over every run all scores are in 0..100 |
| Risk.StepKeepsChain | engine/pipeline.py:55-67 | a step leaves a ledger in which every row starts where the agent's previous one ended iff it found one, and adds no row while the agent's newest row by time is not the one inserted last and has another score |
| Risk.LedgerChainsExactly | engine/pipeline.py:55-67 | over every run the ledger chains iff no action adds rows while the newest row of its agent by time is not the one inserted last and has another score |
| Risk.LedgerChains | engine/pipeline.py:55-67 | an advancing clock is sufficient for the chain |
| Risk.RollbackLeavesNoTrace | engine/pipeline.py:55-59 | removing the rolled-back attempts from a run changes no row |
| Risk.ClockMustNotRunBack | engine/pipeline.py:55-58 | a counterexample with a clock set back |
| Risk.TickIsDecay | api/background.py:114-128 | a quiet tick is one step of the decay |
| Risk.SplittingDecay | api/background.py:121-125 | ticks remove together no more than one measurement over the whole stretch, and lose less than a point per row |
| RuleHistory.RuleStore.SaveVersion | storage/database.py:633-638 | a version is added iff its key is free |
| RuleHistory.RuleStore.CreateRule | storage/database.py:817-891 | rule and first version together, or nothing |
| RuleHistory.RuleStore.CommitEdit | storage/database.py:893-1094 | row and snapshot together, or nothing, for update, toggle and rollback |
| RuleHistory.CommitWritesTheEdit | storage/database.py:893-1094 | a commit adds the next version, live and as a snapshot: an update's fields over what was read, one column for a toggle, a snapshot's body for a rollback; nothing else changes |
| RuleHistory.CommitFailsExactly | storage/database.py:893-1094 | a commit fails iff the rule is gone, the next version is taken, or the result would not be valid |
| RuleHistory.RuleStore.DeleteRule | storage/database.py:999-1054 | the rule goes iff no policy refers to it; versions stay |
| RuleHistory.HistoryIsAppendOnly | storage/database.py:633-638 | in every reachable state live versions are exactly 1 to the current one, the newest is the live definition, and no snapshot ever changes |
| RuleHistory.CommitMeansCurrent | storage/database.py:893-954 | a writer commits only from the current version |
| RuleHistory.CurrentWriterCommits | storage/database.py:893-1094 | in every reachable state a writer that reads and then writes before anyone else commits, unless the result is not valid |
| RuleHistory.StaleWriterNeverCommits | storage/database.py:893-997 | of writers that read one version at most one commits, whatever happens in between |
| RuleHistory.RollbackIsUndone | storage/database.py:1056-1094 | rolling back and then back again restores the definition two versions later |
| RuleHistory.UsedIdentifierIsGone | storage/database.py:817-891 | an identifier once used is never accepted again after deletion |
| RuleHistory.IdentifierIsFreeExactly | storage/database.py:817-891 | a valid rule with a free code is accepted iff no rule was ever created under its identifier |
| JsonlTail.JsonlCollector.ReadLine | agent/collectors.py:457-458 | the bytes up to and with the next newline, or to the end; whether the line is complete |
| JsonlTail.JsonlCollector.Poll | agent/collectors.py:448-463 | one poll equals its specification turn by turn, for every growth, refusal and crash |
| JsonlTail.TurnTakesTheNextLine | agent/collectors.py:456-463 | byte by byte: a turn takes the bytes up to the next newline; the checkpoint moves behind a consumed line unless a crash comes first, and nothing moves for a line that does not parse or is refused |
| JsonlTail.ConsumedAreTheCompleteLines | agent/collectors.py:456-463 | over every run what was consumed, repeats collapsed, is the file's complete lines from the first on; the checkpoint is a line boundary and at most one line behind |
| JsonlTail.UnparseableLineBlocks | agent/collectors.py:459 | nothing behind a line that does not parse is ever consumed |
| JsonlTail.QuietPollAdvances | agent/collectors.py:456-463 | an undisturbed poll moves on by the turns it has left, or to the last complete line |
| JsonlTail.QuietPollTakesAHundred | agent/collectors.py:456-463 | an undisturbed poll consumes the next hundred complete lines, or all there are |
| JsonlTail.AllLinesAreDeliveredExactly | agent/collectors.py:448-463 | after any run, undisturbed polls come to deliver exactly the complete lines of the file iff all of them parse |

## Left out

- HTTP, TLS and WebSocket delivery, HMAC, sessions and access control: messages may be lost or repeated; signatures and authorization are predicates, and every modelled request is authenticated.
- The limit of 5 MB on a request body, by which a large batch of good records may be refused and split.
- Command execution itself, the script and session providers: an executor that is called and returns some report.
- Regular expressions, case folding and JSON text: a leaf's comparison is a parameter; within one evaluation the same leaf gives the same answer, and values read by leaves are JSON values. Sort keys are compared after folding.
- Decoding of records and the re-check of evidence inside ingestion: functions of the record (`Ingestion.Judge`), as they read nothing that is stored; the re-check is modelled on its own in `OfflineEvidence`.
- Ingestion.IngestStore.Ingest: takes as a parameter whether the command results and responses in an envelope are taken; what results change is in `CommandTable`.
- AgentSync.Daemon.Settle: does not model the connection state and the log entries, which decide nothing in a cycle.
- AgentSync.Daemon.SyncOfflineQueue: does not model the connection state and the log entries either.
- OfflineEvidence.ImportOffline: takes the dry run of a command's script or template, and the comparison of a logout's target, as one predicate on the command; audit entries and the contents of incidents are not modelled.
- OfflineEvidence.RecheckAcceptsExactly: names that predicate in its condition.
- Records without a name of their own, and operational log records, which share the agent's queue: every modelled record is queued under its own event identifier, as the daemon does.
- A second daemon on one agent database: recovery by a second process, and journal updates beside the first's.
- Imported offline risk rows: the ledger chain is stated for rows the manager itself writes.
- Incident rows, audit rows, broadcasts and service heartbeats, other than as the committed effects of a detection.
- Command reports with other ill-typed fields than the verification, and texts that have no UTF-8 form: the fields of a modelled report are texts or absent.
- Completed events without a normalized form, which the rebuild skips, and fractions of a second in timestamps.
- Looking up rules by code, matching of rules to policies, and the listing of versions.
- The connection state machine, worker supervision, schema migrations, the Wazuh adapter, analytics and the dashboard.
- Administrative clearing of the database, and recovery of batch rejections written by older versions.
- EventWorker.EffectsAreExactlyOnce: counts committed detection transactions per event; rule matches of a repeated transaction replace the earlier ones under the same identifier, while its risk rows are added again.
- StoreForward.EvidenceReachesTheManager: goes one way; a second record under one name loses its evidence only if it is uploaded and the first is stored, which `Ingestion.EvidenceArrivesExactly` states exactly for one request.
