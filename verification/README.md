# RouteGate: verified model of updates, rollouts, accounting and configuration

RouteGate is a Manager and a fleet of Agents on VPN nodes. This project models the parts of it whose
correctness depends on interleavings, crashes and arithmetic over whole histories, and proves what they
promise. `dafny verify dfyconfig.toml` checks all of it.

| module | what it models |
|---|---|
| `Receipts`, `UpdateJobs` | the durable Agent receipt and the Manager's job row, as stores whose methods are proved against transition functions |
| `UpdateProtocol`, `UpdateSafety`, `UpdateTruth`, `UpdateOutcomes`, `UpdateWitnesses` | one remote platform update as a system of dispatchers, detached workers and reconcilers over a lossy channel, with crashes and failed writes |
| `Rollout`, `RolloutProofs`, `RolloutRuns`, `RolloutVerdicts`, `RolloutCalls`, `RolloutRepository`, `RolloutWitnesses` | the one-node-at-a-time rollout over its tables, together with everything else that writes them, account transfers that reserve nodes included |
| `ServerIds`, `ServerSpellings`, `RolloutPlanner` | server identities, planning, and the persisted snapshot a rollout starts from |
| `TrafficOutbox`, `TrafficSystem` | traffic deltas, the durable outbox and the Manager's checkpointed receiver |
| `AdapterSelection`, `ConfigApply` | runtime selection and the all-or-nothing configuration transaction |
| `RuntimeCleanup`, `RuntimeCleaner` | the runtime-artifact cleaner |
| `Password` | PBKDF2 against section 5.2 of RFC 8018, and the stored hash text |
| `Presence` | log-to-socket presence correlation |
| `Common`, `Formats`, `Versions` | shared values, the bounded textual formats and release versions |

## How it is modelled

- A run is a sequence of events; an event that is not enabled changes nothing. A theorem about every
  sequence is therefore a theorem about every interleaving. The update protocol takes this form because
  its code is several processes over one receipt file; the stores and tables it uses are classes.
- The answers of clocks, disks, systemd, the updater and the network are arbitrary: they are carried by the
  events or given as parameters. A replacing write may report an error before or
  after the rename has taken effect.
- Every SQL transaction of the rollout takes the global admission mutex, so it is one function from database
  state to database state. A completion of an update job reads the row and updates it in two statements, so
  the status it branches on is a parameter that may be stale.
- Instants are microseconds. Counters, counts and sequence numbers are unbounded; the source keeps them in
  64 bits and the collectors reject negative ones.
- Whether account, configurations, roles and other jobs permit a transfer is a parameter of its start; that its two nodes
  differ, are active, unreserved and without an unresolved update, and were lately heard is modelled.
- A health check reads the clock twice, once in the Manager and once in the database trigger; the two readings are
  separate parameters and may differ by any amount.
- Recursive text functions are handed to loops as function parameters (`canonical`, `blank`, `below`, `blockers`), so the
  loops are proved for any of them and used with the ones defined here.

## Where the code and its descriptions differ

- `completeInProgressPlatformUpdate` moves `in_progress` straight to `succeeded` or `outcome_unknown`. The
  declared lifecycle has no such edge; the update is the two declared edges through `mutation_dispatched`
  taken at once, and it always stamps the dispatch time (`UpdateJobs.CompleteFollowsLifecycle`).
- `CreatePrepared` is not atomic: it links the receipt and takes the link away again if the temporary file
  cannot be removed. A reconciler can close the receipt in between, so a terminal receipt can vanish in
  exactly this window and in no other way (`UpdateSafety.TerminalReceiptChangesIff`,
  `UpdateWitnesses.TerminalReceiptCanVanish`).
- At-most-once mutation survives replayed dispatches; the truth of the Manager's verdict does not
  (`UpdateWitnesses.ReplayBreaksVerdict`). It rests on the single hand-out, which the Manager guarantees.
- A detached launch that fails is reported as failed even if the failure could not be recorded in the receipt.
- An orchestration step is meant to end in a recorded outcome, but a node reserved by an account transfer is not among
  the rejections the admission recognises (platform_update_rollout_execution.go:366-372). The trigger's error rolls the
  whole admission back and reaches the caller, again at every call while the reservation stands
  (`RolloutRuns.HeldIff`, `RolloutRuns.HeldRepeats`, `RolloutWitnesses.ReservationStallsRollout`).
- A healthy verdict that the Manager has proved can still be refused by the trigger, which reads the clock again
  (migrations/000143_agent_authenticated_heartbeat_proof.up.sql:221-228). The health check then errs and changes nothing
  (`RolloutProofs.HealthKeeps`, `RolloutWitnesses.ProofCanLapse`). Apart from failures of the
  database itself these two are the only errors of a step (`RolloutRuns.AdvanceErrsIff`).
- Planner and database revalidation report the same blockers except when an absent Agent is said to have a
  capability or protocol (`RolloutPlanner.BlockersAgreeIff`).

## Model

| member | source | states |
|---|---|---|
| Receipts.TransitExact | agent/internal/tasks/platform_update_receipt.go:156-196 | the guards of a transition, taken together, accept exactly the requests of an independent acceptance table, given a receipt in contract |
| Receipts.StoreTransitMonotone | agent/internal/tasks/platform_update_receipt.go:156-196 | one locked read-modify-write, whatever the disk answers, leaves a receipt in contract, never clears evidence, never changes a terminal receipt, and a success is durable |
| Receipts.StoreTransitExact | agent/internal/tasks/platform_update_receipt.go:156-196 | a request succeeds if and only if the receipt can be read, accepts it and is written durably; the receipt then, and unless the write was lost, is the old one with exactly the requested phase, evidence, code and time |
| Receipts.StoreRunMonotone | agent/internal/tasks/platform_update_receipt.go:156-196 | the same over any run of requests with failing reads and writes |
| Receipts.ReceiptStore.CreatePrepared | agent/internal/tasks/platform_update_receipt.go:51-74 | an existing receipt is never replaced; a new one is exactly the fresh prepared receipt; other tasks are untouched |
| Receipts.ReceiptStore.Transition | agent/internal/tasks/platform_update_receipt.go:156-196 | it succeeds exactly for a readable, acceptable and durable request and stores exactly the requested change; other tasks are untouched |
| Receipts.ReceiptStore.ReconcileInterrupted | agent/internal/tasks/platform_update_receipt.go:105-114 | a readable interrupted mutation is closed as unknown with its restart code; every other receipt is left alone and returned |
| UpdateJobs.CompleteFollowsLifecycle | backend/internal/agents/operation_repository.go:373-502 | every accepted completion, even one that branches on a stale status, is a declared path of length at most two, stamps the dispatch time on two-step paths, and keeps identity and table checks |
| UpdateJobs.InProgressFollowsLifecycle | backend/internal/agents/operation_repository.go:504-627 | the same for the completion of a job that was seen in progress, which only acts on a row that still is |
| UpdateJobs.CompleteExact | backend/internal/agents/operation_repository.go:373-627 | a completion is accepted if and only if an independent table of row status, envelope, report and code says so, and status, error code and all times of the new row are exactly those the report announces |
| UpdateJobs.JobRun | backend/internal/agents/remote_update_lifecycle.go:52-66 | over any run of claims and completions the dispatch task is handed out exactly once if the job leaves pending, a verdict never changes, and the row checks hold |
| UpdateJobs.JobTable.ClaimNext | backend/internal/agents/operation_repository.go:171-305 | a poll takes an unlocked active job of its Agent exactly if one is pending, or under way and untouched for a second; only that row changes, and field by field as claimed |
| UpdateJobs.JobTable.CompleteTask | backend/internal/agents/operation_repository.go:373-502 | a completion changes the row exactly if the Agent owns the job and the acceptance table allows it, and then to exactly the announced row; one unresolved job per server is kept |
| UpdateSafety.AtMostOneInvocation | agent/internal/tasks/platform_update_apply.go:161-314 | in every run, with replayed dispatches, repeated workers, concurrent reconciliation, failed writes and crashes, the verified updater is started at most once |
| UpdateSafety.ReachableReceipt | agent/internal/tasks/platform_update_receipt.go:355-395 | every reachable receipt is in contract, and a succeeded or failed receipt agrees with how the updater ended |
| UpdateSafety.EvidenceKept | agent/internal/tasks/platform_update_reconciliation.go:46-80 | in every continuation mutation-started evidence stays, and a closed started receipt stays as it is, stale probes included |
| UpdateSafety.TerminalReceiptChangesIff | agent/internal/tasks/platform_update_receipt.go:282-342 | a terminal receipt changes in a step if and only if its creator undoes the link inside its creation window, and then it carried no mutation evidence |
| UpdateSafety.ActKeeps | agent/internal/tasks/platform_update_apply.go:230-314 | one action of any process keeps the invariant and its promises to all others |
| UpdateTruth.VerdictsAreTrue | agent/internal/heartbeat/platform_update_dispatch_task.go:31-68 | without replays: dispatched implies a durable receipt; succeeded implies a succeeded receipt and exit zero; unknown implies started; failed before dispatch implies the updater has not run; failed after it implies a failed receipt |
| UpdateTruth.FailedBeforeDispatchNeverRuns | backend/internal/agents/operation_repository.go:504-627 | a failure without a dispatch time means that the updater does not run in any continuation |
| UpdateTruth.VerdictIsFinal | backend/internal/agents/operation_repository.go:373-502 | a terminal job row never changes in any run |
| UpdateTruth.ReceiptsAreAcceptedEvidence | backend/internal/agents/remote_update_reconciliation.go:72-107 | every receipt of every run, sent as evidence, is accepted by the Manager's stricter check as the matching status |
| UpdateTruth.ReconcileSound | agent/internal/heartbeat/platform_update_reconciliation_task.go:17-60 | whatever a reconciler reads, probes or writes, the completion it sends, with the envelope it picks, is true and stays true |
| UpdateOutcomes.ExitIsRecorded | agent/internal/tasks/platform_update_apply.go:289-314 | in every reachable state an undisturbed worker records exit zero as succeeded, another exit as failed and a signal or incomplete rollback as unknown, each with its code and nothing else |
| UpdateOutcomes.VerdictReached | backend/internal/agents/operation_repository.go:430-478 | from every well-formed initial system, and for every way in which a launched worker ends, there is a run after which the Manager's row has the matching status, error code and times |
| UpdateOutcomes.ObstacleReported | agent/internal/tasks/platform_update_apply.go:161-203 | whatever stops a dispatch before its launch, there is a run that leaves its code in the receipt and a failure before dispatch in the row, with the updater never started |
| UpdateOutcomes.OrphanIsClosed | agent/internal/tasks/platform_update_receipt.go:105-114 | in every reachable state a process that finds a foreign started mutation closes it as unknown with the restart code |
| UpdateOutcomes.MissingWorkerIsClosed | agent/internal/tasks/platform_update_reconciliation.go:64-80 | in every reachable state a reconciler without a worker closes a started mutation as unknown and a prepared one as failed, and goes on to report exactly that receipt |
| UpdateOutcomes.PriorStateStops | agent/internal/tasks/platform_update_apply.go:168-172 | any receipt or staging directory of the task, partial ones included, ends a dispatch without a trace; without one it goes on |
| UpdateOutcomes.OnlyPreparedGoesOn | agent/internal/tasks/platform_update_apply.go:334-360 | dispatcher and worker go on exactly with a prepared receipt of their version, take a started one for an orphan, and give up otherwise |
| UpdateOutcomes.LaunchIsReported | agent/internal/tasks/platform_update_apply.go:58-78 | a dispatcher reports a launch exactly if it returned without an error, and otherwise says nothing |
| UpdateOutcomes.ReconcilerDecides | agent/internal/tasks/platform_update_reconciliation.go:46-63 | a closed receipt is reported, an active worker is left alone, an absent one is taken for missing |
| UpdateWitnesses.TerminalReceiptCanVanish | agent/internal/tasks/platform_update_receipt.go:318-333 | a concrete run in which a terminal receipt disappears |
| UpdateWitnesses.ReplayBreaksVerdict | agent/internal/tasks/platform_update_apply.go:161-203 | a concrete run in which a replayed dispatch makes the Manager record a failure before dispatch while the updater runs |
| Rollout.NextAdmissibleExact | backend/internal/agents/platform_update_rollout_execution.go:176-209 | at most one row satisfies the admission query, and it is the first unfinished entry |
| RolloutProofs.StepKeeps | backend/internal/agents/platform_update_rollout_execution.go:39-295 | every transaction and every outside write keeps order, entry bindings, verdict consistency, job table and heartbeat provenance |
| RolloutProofs.HealthKeeps | backend/internal/agents/platform_update_rollout_health.go:38-279 | a health check keeps the invariant and creates no job; it errs, changing nothing, if and only if the evidence proves health at the first reading of the clock and the heartbeat is no longer fresh at the second |
| RolloutProofs.WatermarkImpliesFree | backend/internal/agents/platform_update_rollout_execution.go:219-272 | once the job count equals the watermark no job followed the snapshot and the unique interlock cannot reject the new one |
| RolloutProofs.WatermarkImpliesAlone | backend/internal/agents/platform_update_rollout_health.go:196-225 | once the count is the watermark plus one the bound job is the only one since the snapshot and nothing on the server is unresolved |
| RolloutRuns.OneAtATime | backend/internal/agents/platform_update_rollout_execution.go:84-295 | in every reachable state the entries are finished ones, then at most one updating or stopped one, then ones that have not started |
| RolloutRuns.VerdictsMatchEntries | backend/internal/agents/platform_update_rollout_health.go:288-351 | in every reachable state the rollout status agrees with the entry statuses, and every started entry with the status of its bound job |
| RolloutRuns.StepEvolves | backend/internal/agents/platform_update_rollout.go:25-53 | every transaction moves rollout and entries along declared edges, keeps identities and bound jobs, and changes at most one entry |
| RolloutRuns.TerminalIsFinal | backend/internal/agents/platform_update_rollout_execution.go:73-75 | a terminal rollout never changes and never admits a job again, in any run |
| RolloutRuns.OneJobPerMember | backend/internal/agents/platform_update_rollout_execution.go:248-289 | in any run a rollout creates at most one job for a server, and none for an entry that has started or after the end |
| RolloutRuns.AdmissionReplays | backend/internal/agents/platform_update_rollout_execution.go:84-119 | until a health check closes the updating entry, every admission returns the same job and changes nothing |
| RolloutRuns.BoundedProgress | backend/internal/agents/platform_update_rollout_step.go:41-105 | a rollout of n entries changes at most 2n + 1 times in any run and is terminal when it has done so |
| RolloutRuns.AdmissionProgresses | backend/internal/agents/platform_update_rollout_execution.go:161-209 | the two dead-end errors do not occur in a rollout that may still run, and without an updating entry the next admission makes progress if and only if no transfer holds the next server |
| RolloutVerdicts.AdmissionExact | backend/internal/agents/platform_update_rollout_execution.go:176-295 | the next entry is admitted if and only if its job count is the watermark, server and Agent are enabled, the Agent can update and no transfer holds the node; the rows written, the recorded failure and the reservation are exact in each case |
| RolloutVerdicts.NoAdmission | backend/internal/agents/platform_update_rollout_execution.go:73-175 | replay, completion, version mismatch and refusal after the end occur exactly in the rows they stand for, with the recorded code |
| RolloutRuns.HeldIff | backend/internal/agents/platform_update_rollout_execution.go:248-272 | an admission ends in the reservation error if and only if the Manager version matches, the first unfinished entry has its watermark count, and its server is installable and reserved; then nothing changes |
| RolloutRuns.HeldRepeats | backend/internal/agents/platform_update_rollout_execution.go:366-372 | however often it is repeated, a held admission changes nothing, because the error is no recorded rejection |
| RolloutRuns.ReservationExcludesUpdates | backend/internal/transfers/service.go:194-206 | in every run a node that a transfer holds has no active or unresolved update |
| RolloutVerdicts.ReservesIff | backend/internal/transfers/service.go:184-260 | an eligible transfer takes its two nodes if and only if they differ, have no reservation and no active or unknown update, are active and were heard within 90 seconds under the current credential |
| RolloutRuns.HeartbeatsNeverBarred | backend/migrations/000159_staged_account_transfers.up.sql:94-102 | in every run the guard of reserved servers lets every heartbeat through, because a reserved server is active and stays so |
| RolloutRuns.HealthProgressesIff | backend/internal/agents/platform_update_rollout_health.go:178-247 | with an updating entry a health check changes the rollout if and only if the evidence is decisive by both readings of the clock |
| RolloutVerdicts.HealthExact | backend/internal/agents/platform_update_rollout_health.go:178-351 | with an updating entry a health check makes it healthy, failed or unknown if and only if job, history, heartbeat, Agent and both readings of the clock, each spelled out, say so; the rollout status, recorded codes and waiting reason follow exactly |
| RolloutVerdicts.FinishExact | backend/internal/agents/platform_update_rollout_health.go:84-110 | without an updating entry a health check ends a running rollout exactly if all its entries are finished |
| RolloutRuns.LapseIsAge | backend/migrations/000143_agent_authenticated_heartbeat_proof.up.sql:221-228 | unless the clock runs backwards, a proof lapses only because the heartbeat passes two minutes between the two readings |
| RolloutRuns.HealthyIsProven | backend/internal/agents/platform_update_rollout_health.go:196-278 | every healthy entry of every reachable state: its job was the only one on the server between snapshot and proof, succeeded, and was followed by a logged authenticated heartbeat at most two minutes old |
| RolloutRuns.HealthyVerdict | backend/internal/agents/platform_update_rollout_health.go:226-278 | at the moment of every healthy verdict, stamped with the trigger's clock, the Agent is online on the target version under the credential that sent the recorded heartbeat |
| RolloutRuns.HeartbeatGenerationCurrent | backend/internal/agents/repository.go:74-90 | in every run a recorded heartbeat generation is the current credential generation |
| RolloutRuns.WatermarkStandsForHistory | backend/internal/agents/platform_update_rollout_repository.go:291-314 | in every reachable state a matching watermark makes both the unique-interlock rejection and the unresolved-job wait unreachable |
| RolloutRuns.AdvanceErrsIff | backend/internal/agents/platform_update_rollout_step.go:45-105 | one orchestration step, with any other transactions between its inspections, errs if and only if a transfer holds the server it would admit or the health proof lapses; then it has changed nothing, and otherwise its reported action is true of the state it leaves |
| RolloutCalls.ChangeIsAnnounced | backend/internal/agents/platform_update_rollout_step.go:45-195 | whatever runs beside it, a step that answers has changed the rollout if and only if it says that it admitted a node, that a node is healthy, or that a rollout it found running has ended |
| RolloutCalls.CallsBounded | backend/internal/agents/platform_update_rollout_step.go:41-105 | however often the orchestrator is called, and whatever runs in between, at most 2n + 1 of its calls do anything |
| RolloutRepository.Repository.constructor | backend/internal/agents/platform_update_rollout_repository.go:95-165 | a persisted snapshot satisfies the invariant |
| RolloutRepository.Repository.Admit | backend/internal/agents/platform_update_rollout_execution.go:39-295 | a reservation is refused without a trace, every other refusal leaves a terminal rollout, an admission an updating entry bound to the returned job; the next entry is decided exactly by its rows |
| RolloutRepository.Repository.CreateJob | backend/internal/agents/platform_update_repository.go:92-129 | a pending job is appended exactly if server, Agent, reservation and interlock allow it; the reservation error occurs exactly for an installable reserved server |
| RolloutRepository.Repository.ReconcileHealth | backend/internal/agents/platform_update_rollout_health.go:38-351 | it errs exactly if the proof lapses, and then changes nothing; otherwise the updating entry is judged exactly by the evidence and the reply is what is left |
| RolloutRepository.Repository.Advance | backend/internal/agents/platform_update_rollout_step.go:45-195 | one undisturbed step errs exactly if its server is held or its proof lapses, and then changes nothing; otherwise its answer is true |
| RolloutRepository.Repository.UpdateHeartbeat | backend/internal/agents/repository.go:122-206 | a heartbeat of a known Agent is always accepted and sets exactly what it reports; only an authenticated one leaves provenance, under the current generation |
| RolloutRepository.Repository.RegisterAgent | backend/internal/agents/repository.go:35-121 | a registration starts the next credential generation with the reported facts and without any heartbeat |
| RolloutRepository.Repository.ReserveNodes | backend/internal/transfers/service.go:184-260 | an otherwise eligible transfer takes both its nodes, or none, exactly if they differ, are free of reservations and unresolved updates, active, and heard within 90 seconds under the current credential |
| RolloutWitnesses.ReservationStallsRollout | backend/internal/agents/platform_update_rollout_step.go:94-104 | a concrete run, in which both Agents report and a transfer takes their nodes, after which every orchestration step errs and any number of admissions leaves the rollout where it is |
| RolloutWitnesses.ProofCanLapse | backend/migrations/000143_agent_authenticated_heartbeat_proof.up.sql:221-228 | a concrete run whose next step succeeds if the clock stands still and errs if it moves on by a microsecond |
| ServerIds.CanonicalIdempotent | backend/internal/agents/platform_update_rollout_planner.go:60-82 | canonicalizing twice is canonicalizing once |
| ServerIds.CanonicalIdentifies | backend/internal/agents/platform_update_rollout_planner.go:60-82 | two accepted spellings have the same canonical text if and only if they stand for the same UUID |
| ServerIds.CanonicalOrder | backend/internal/agents/platform_update_rollout_repository.go:118-132 | sorting canonical ids as text is sorting them as the UUIDs the database compares |
| ServerSpellings.SpellingStandsFor | backend/internal/agents/platform_update_rollout_planner.go:60-82 | every spelling of a UUID, in any letter case and with any white space around it, URN prefix, braces or dashes, stands for it |
| ServerSpellings.OnlySpellings | backend/internal/agents/platform_update_rollout_planner.go:60-82 | nothing but such a spelling stands for a UUID |
| Versions.VersionIsValid | agent/internal/tasks/platform_update_task.go:19-19 | every text made of three dotted numbers, an optional leading v and optional labels is accepted as a release version |
| Versions.ValidIsVersion | backend/internal/agents/remote_update_reconciliation.go:13-13 | nothing else is accepted |
| RolloutPlanner.PlanRollout | backend/internal/agents/platform_update_rollout_planner.go:88-139 | a plan exists exactly for a valid version and a non-empty list of pairwise different UUIDs; it keeps order and length, has the blockers of every candidate, and can be persisted |
| RolloutPlanner.PlanEntries | backend/internal/agents/platform_update_rollout_planner.go:100-137 | the loop fails exactly on an unreadable or repeated id and otherwise yields one entry per candidate in order |
| RolloutPlanner.BlockersAgreeIff | backend/internal/agents/platform_update_rollout_repository.go:177-316 | on the same facts planner and revalidation find the same blockers if and only if the Agent is registered or claims neither capability nor protocol |
| RolloutPlanner.TruthfulPlanAgrees | backend/internal/agents/platform_update_rollout_repository.go:188-303 | on facts read from the tables they always agree |
| RolloutPlanner.QueuedIff | backend/internal/agents/platform_update_rollout_repository.go:188-315 | a persisted row is queued if and only if the Manager is on the target, the server is an enabled VPN node, its Agent is registered, enabled, capable and compatible, and none of its jobs is unresolved |
| RolloutPlanner.Validate | backend/internal/agents/platform_update_rollout_repository.go:36-55 | a plan passes exactly if its version is valid and its ids are canonical, distinct and not none |
| RolloutPlanner.InsertSnapshot | backend/internal/agents/platform_update_rollout_repository.go:118-159 | rows inserted in the order of their ids satisfy the insert trigger and come out in the caller's order |
| RolloutPlanner.PersistPlan | backend/internal/agents/platform_update_rollout_repository.go:35-165 | persistence succeeds exactly for a valid plan over existing servers and stores the revalidated row of every server at the caller's position |
| RolloutPlanner.SnapshotIsInitial | backend/internal/agents/platform_update_rollout_repository.go:291-315 | a persisted snapshot is an initial state of the rollout, with an entry queued exactly if nothing blocks it |
| TrafficOutbox.DeltaTracker.BuildUsageEvents | agent/internal/traffic/tracker.go:11-43 | the loop's baseline and events are those of the tracking functions |
| TrafficOutbox.TrackConcat | agent/internal/traffic/tracker.go:11-43 | tracking two lists of snapshots one after the other is tracking both in a row |
| TrafficOutbox.EventsAreBills | agent/internal/traffic/tracker.go:24-39 | every event bills a forward step of its account to one of the snapshots, carries the stamp of that snapshot, and is never empty |
| TrafficOutbox.ForwardIsBilled | agent/internal/traffic/tracker.go:24-39 | every snapshot that moves a known account forward has its event |
| TrafficOutbox.Conservation | agent/internal/traffic/tracker.go:11-43 | for every account and history, billed bytes plus the change over unbilled steps equal latest minus first counter |
| TrafficOutbox.NeverOverbilled | agent/internal/traffic/tracker.go:24-31 | billed bytes never exceed what the counters grew by |
| TrafficOutbox.Outbox.Open | agent/internal/traffic/outbox.go:23-49 | what is durable is reopened; a new stream starts only if nothing is |
| TrafficOutbox.Outbox.Prepare | agent/internal/traffic/outbox.go:51-71 | a pending batch is kept; more than 1000 events are refused; otherwise baseline and events are saved, memory changing exactly on success and the file unless the write was lost |
| TrafficOutbox.Outbox.Acknowledge | agent/internal/traffic/outbox.go:73-85 | without a pending batch nothing happens; otherwise it is dropped and the sequence moves on, memory changing exactly on success and the file unless the write was lost |
| TrafficSystem.UsageTable.ReportUsageBatch | backend/internal/traffic/repository.go:40-140 | a report is confirmed if and only if it repeats the last one, or follows it and names only known accounts; a repetition has no effect, a new batch is recorded whole, and the rows are the events of the applied batches in order |
| TrafficSystem.StepKeeps | agent/internal/heartbeat/runner.go:200-242 | collection, transmission, delivery, acknowledgement, crash and reopening keep memory, file, transmissions and Manager in step |
| TrafficSystem.TransmissionsIdentical | agent/internal/heartbeat/runner.go:210-239 | all transmissions of a sequence number are identical, all belong to one stream, and no number is left out |
| TrafficSystem.AppliedExactlyOnce | backend/internal/traffic/repository.go:52-73 | the Manager has applied an initial part of the batches, at least the acknowledged ones, each once and in order, whatever digest it compares |
| TrafficSystem.ReceiveExact | backend/internal/traffic/repository.go:52-73 | a batch is confirmed exactly if it repeats or follows the checkpoint, recorded exactly if it follows, and no other stream is affected |
| TrafficSystem.DeliveryConfirms | backend/internal/traffic/repository.go:66-68 | in every reachable state, lost answers or not, delivering the pending batch gets it confirmed |
| TrafficSystem.NeverStalls | agent/internal/heartbeat/runner.go:200-242 | in every reachable state one transmission, delivery and acknowledgement record a pending batch and move memory and file to the next sequence |
| TrafficSystem.BytesConserved | agent/internal/traffic/outbox.go:51-120 | in every reachable memory and file state the bytes below the sequence, the pending bytes and the skipped change add up to last minus first, and never exceed the growth |
| TrafficSystem.MonotoneBytesExact | agent/internal/traffic/outbox.go:51-120 | when an account's counters never go backwards, billed and pending bytes are exactly last minus first |
| TrafficSystem.RecordedPlusPending | agent/internal/traffic/outbox.go:73-85 | recorded events followed by those still to come are, event by event, what the tracker saw |
| TrafficSystem.FileReopens | agent/internal/traffic/outbox.go:39-48 | every file that was ever written passes the checks of reopening |
| AdapterSelection.FindServing | agent/internal/tasks/vpn_core_adapter.go:52-78 | the search returns the first matching candidate, or the VLESS adapter for a blank core |
| AdapterSelection.SelectAdapters | agent/internal/tasks/vpn_core_adapter.go:33-94 | the nested loops compute the selection function; an unsupported descriptor or an empty selection is refused |
| AdapterSelection.SelectExact | agent/internal/tasks/vpn_core_adapter.go:80-89 | the selection has one adapter per core, each serves some descriptor, and every descriptor's core is selected |
| AdapterSelection.SelectsIffSupported | agent/internal/tasks/vpn_core_adapter.go:52-78 | a selection exists if and only if every descriptor has a matching candidate, or a blank core and the VLESS adapter |
| AdapterSelection.SelectedServe | agent/internal/tasks/vpn_core_adapter.go:52-89 | a blank core selects the core of the VLESS adapter and any other core itself; every selected adapter matches a descriptor or stands in for a blank core |
| AdapterSelection.StorageOfCores | agent/internal/heartbeat/runner.go:277-288 | wireguard, hysteria and mtg have their own storage, and every other core shares that of sing-box |
| AdapterSelection.SelectedStorageDistinct | agent/internal/heartbeat/runner.go:277-288 | adapters with different managed cores have storage of their own |
| ConfigApply.Disk.CopyAtomic | agent/internal/tasks/applier.go:109-140 | the copy succeeds exactly if the source exists and nothing fails; the destination then holds its bytes and is untouched otherwise; only it and its temporary file change |
| ConfigApply.Disk.Apply | agent/internal/tasks/applier.go:27-67 | it succeeds exactly if version, staged file, directories, backup and promotion are all in order; then the active file holds the staged bytes and the previous state can be restored, otherwise the active file is untouched |
| ConfigApply.Disk.RollbackApply | agent/internal/tasks/applier.go:89-107 | it succeeds exactly if the backup can be copied back, or the new file removed, and restores the backup or removes a file that was new |
| ConfigApply.Disk.RollbackRuntimes | agent/internal/heartbeat/multi_config_apply.go:111-138 | it reports failure exactly if some promoted runtime does not recover; otherwise every one has its previous file or none as before, and no other active file changes |
| ConfigApply.Disk.ProcessConfigApply | agent/internal/heartbeat/multi_config_apply.go:23-109 | success means that every selected active file holds the bytes its validator accepted and, with service control, that every check was positive; a failure names the first answer that was negative and how the rollback went, and unless the rollback failed every active file is as before; unselected runtimes are never touched and no file is left partial |
| ConfigApply.ExplainsOne | agent/internal/heartbeat/multi_config_apply.go:23-109 | the same answers of validators, disk and services explain one outcome only, so a negative answer leads to its own stage |
| ConfigApply.SelectionDistinct | agent/internal/tasks/vpn_core_adapter.go:80-89 | the selected runtimes never share files, because selection keeps one adapter per core |
| RuntimeCleanup.ListedExact | agent/internal/runtimecleanup/runtimecleanup.go:130-178 | exactly the canonical artifacts of the roots are listed that are older than the cutoff and not the newest backup |
| RuntimeCleanup.ListedIffDisposable | agent/internal/runtimecleanup/runtimecleanup.go:146-178 | an artifact is listed if and only if it was modified before the cutoff and is not, in a backup root, the first of those modified last |
| RuntimeCleanup.NewestIsMaximal | agent/internal/runtimecleanup/runtimecleanup.go:153-159 | the artifact that is kept is one of the artifacts and none was modified later |
| RuntimeCleanup.ArtifactNameStaysInRoot | agent/internal/runtimecleanup/runtimecleanup.go:30-30 | a canonical name contains no path separator |
| RuntimeCleaner.Cleaner.Analyze | agent/internal/runtimecleanup/runtimecleanup.go:130-213 | analysis succeeds exactly if no roots overlap, all are safe and at most 256 artifacts are listed; list and estimate are exact |
| RuntimeCleaner.Cleaner.CheckRequests | agent/internal/runtimecleanup/runtimecleanup.go:224-242 | the check passes exactly if every request is acceptable and none is repeated |
| RuntimeCleaner.Cleaner.Cleanup | agent/internal/runtimecleanup/runtimecleanup.go:215-261 | a refusal deletes nothing and happens exactly if analysis or any request is unacceptable; otherwise exactly the requested files go, up to the first removal that fails |
| RuntimeCleaner.Cleaner.Verify | agent/internal/runtimecleanup/runtimecleanup.go:263-277 | exactly how many of the requested files still exist, or a refusal exactly for an invalid or unreadable request |
| RuntimeCleaner.DeleteExact | agent/internal/runtimecleanup/runtimecleanup.go:243-260 | deletion removes the requested files and leaves every other file as it was |
| RuntimeCleaner.DeletesOnlyExpired | agent/internal/runtimecleanup/runtimecleanup.go:215-261 | whatever an acceptable request deletes is canonical and older than the cutoff |
| RuntimeCleaner.DeletesOnlyArtifacts | agent/internal/runtimecleanup/runtimecleanup.go:30-30 | whatever is deleted has an artifact name without a separator and lies directly inside a root |
| RuntimeCleaner.NewestKeptForever | agent/internal/runtimecleanup/runtimecleanup.go:153-163 | in any history of calls, interrupted ones included, and of arbitrary other writes, the artifact that is newest in a backup root at the start of a stretch of calls is the newest at its end |
| RuntimeCleaner.AnalyzeCleanupVerify | agent/internal/runtimecleanup/runtimecleanup.go:114-128 | analyze, clean up everything listed, verify: the request is accepted, exactly the listed files go, exactly the estimate is reclaimed, zero remain |
| RuntimeCleaner.FullCleanup | agent/internal/runtimecleanup/runtimecleanup.go:114-128 | the same with the artifact names of the Agent, and every file with another name is left as it was |
| Password.Int4Weights | backend/internal/auth/password.go:58-58 | the four octets of a block index are its base-256 digits, most significant first |
| Password.XorInto | backend/internal/auth/password.go:65-67 | the in-place loop replaces the buffer by its exclusive-or with the argument |
| Password.Block | backend/internal/auth/password.go:55-70 | one block is the function F of section 5.2 of RFC 8018 |
| Password.Pbkdf2 | backend/internal/auth/password.go:51-72 | the result is the derived key DK of section 5.2 of RFC 8018, for any 32-byte pseudorandom function and every key length the standard allows |
| Password.ShorterIsPrefix | backend/internal/auth/password.go:51-72 | a shorter key is a prefix of a longer one |
| Password.StoredFields | backend/internal/auth/password.go:26-44 | splitting the stored text gives back algorithm, count, salt and key |
| Password.AtoiSigned | backend/internal/auth/password.go:35-38 | a count with or without a sign is read back, and one beyond 64 bits is refused |
| Password.VerifyPassword | backend/internal/auth/password.go:30-49 | a password is accepted exactly if the text is well formed and the password derives the stored key |
| Password.VerifyInvertsHash | backend/internal/auth/password.go:21-49 | a stored hash accepts exactly the passwords that derive the same key as the hashed one |
| Presence.ConsumeMeans | agent/internal/presence/singbox_collector.go:457-491 | from a fresh start the maps hold, context by context and peer by peer, what the last line concerning them said |
| Presence.ContextsMentioned | agent/internal/presence/singbox_collector.go:457-491 | a context is known exactly if some line mentioned it |
| Presence.ConsumeAllBacked | agent/internal/presence/singbox_collector.go:457-491 | every authenticated peer stays backed by a context with the same peer and name |
| Presence.RecentIsLatest | agent/internal/presence/singbox_collector.go:481-483 | recent-authentication times are exactly the latest ones seen and never move backwards while lines are read |
| Presence.PruneExact | agent/internal/presence/singbox_collector.go:272-286 | a context or peer stays, unchanged, exactly if an established managed socket supports it, and an authentication exactly if it is at most 75 seconds old |
| Presence.PruneBacked | agent/internal/presence/singbox_collector.go:272-286 | pruning leaves only established managed peers and keeps their backing |
| Presence.CollectionsBacked | agent/internal/presence/singbox_collector.go:212-286 | after any run of collections, restarts included, what is left is backed and established |
| Presence.Collector.ConsumeJournal | agent/internal/presence/singbox_collector.go:457-491 | the loop over the lines is the consuming function |
| Presence.Collector.CountSockets | agent/internal/presence/singbox_collector.go:254-271 | the counts are exactly the established sockets authenticated as each user |
| Presence.Collector.Collect | agent/internal/presence/singbox_collector.go:187-325 | without users or a process nothing changes; otherwise lines are read, sockets counted and state pruned exactly, exact items are the socket counts, and a guess is made exactly for a recent user of a unique name without one |
| Presence.MergePrefersBase | agent/internal/presence/singbox_collector.go:113-134 | merging keeps the first source in front, loses no identity, and adds none twice |

## Left out

- HTTP handlers, JSON transport, audit records and logging.
- SQL text and lock internals: a transaction is one step, with the constraints and triggers of the migrations as stated.
- Timestamps of rollout rows and entries other than those that decide health.
- The re-check that persisted server ids and versions are canonical before a rollout step: the column types guarantee it.
- The idempotency key of rollout creation, and the second look at an Agent that registers during revalidation.
- Claims and completions of tasks other than platform updates, and usage reports without a stream id.
- Account-limit evaluation inside a usage report: its failure is one more rolled-back report.
- The fallback from the list of runtime descriptors to the single one: selection starts from the list it yields.
- Failures of the database connection, of a commit, or of serialization: such a transaction changes nothing, and its error is no reply of the model.
- Which nodes belong to which transfer: the end of a transfer may free any reserved nodes.
- Several rollouts at once: jobs of other rollouts appear as direct jobs.
- systemd, the updater, downloads, signal forwarding and file-ownership checks: arbitrary outcomes.
- JSON decoding and size limits of receipts, outbox files and requests.
- Loss of a rename whose directory could not be synced (power failure): a crash here is the end of a process.
- Collision of randomly drawn stream ids and of task ids.
- Every update job terminates: a lost dispatch response leaves no receipt, and reconciliation then errs for ever.
- Unicode case mapping in UUID prefixes beyond ASCII: such spellings are refused either way.
- The final sort of cleanup candidates and of presence items: the lists are built in that order, or are sets here.
- Regular expressions and address parsing of log lines: lines arrive parsed.
- WireGuard and file presence collectors, limits, telemetry, sessions, configuration renderers and the frontend: none of the properties above depends on them.
- ConfigApply.Disk.ProcessConfigApply: assumes that active paths, backup, staging and temporary paths never coincide, as the defaults do not.
- Password.Pbkdf2: the pseudorandom function and the base64 codec are parameters with the laws they need.
