# A model of Waywarden's run log, approvals and orchestration

Waywarden runs agent tasks. Every run has an append-only event log; services read
its latest sequence number, append to it, and stream it to clients; approvals and
tasks move through states that the log records. This project models that core in
Dafny and proves what holds of it for every input, every run and every interleaving.

- `RunEvents`, `EventLog`: events, ids, one atomic append and the queries on the log.
- `EventStream`, `LogSystem`, `LogTheorems`: one SSE stream (replay, then tail), and
  the step system of writers (read, later write), state updates and streams. A step
  that is not enabled changes nothing, so a statement about every step sequence is a
  statement about every interleaving.
- `Database`: the tables behind one session. `RunLifecycle`, `Orchestration`,
  `ApprovalEngine`, `EaTasks`: the services as classes over it.
- `ApprovalRaces`, `ApprovalOverlap`, `TaskRaces`, `TraceInterleaving`: approval calls, task
  calls and orchestration among other calls, one await at a time.
- `SchedulerSpec`, `SchedulerBatch`, `Scheduler`: the EA scheduler loop.
- `DeadlockSearch`, `Team`: the depth-first search, team construction, handoffs.
- `Pipeline`, `PipelineEngine`: pipeline construction and the walk under a step limit.
- `PolicyLoader`, `TillDone`, `TokenUsage`, `AssetFilters`: loops that refine a
  simpler specification.

Updating code is written as classes and loops, and each method is proved against a
function of its inputs or of the old state; the theorems are about those functions.

## Where the code and its documentation differ

The model follows the code. Each difference is stated by a lemma or a contract.

- `api/routers/run_events.py:114`: a stream that has emitted nothing asks for
  everything after 0, not after `last_seen_seq`. `LogTheorems.ResendsExactly` says
  when a client is sent an event it already has, and `ResendExample` is such a run.
- `api/routers/run_events.py:31,105,121`: event types are compared with bare state
  names, so no event closes a stream (`EventStream.NoTypeCloses`).
- `cancel` and `resolve` append terminal events and do not update the run's state, so
  the log goes on after them (`RunLifecycle.EventsFollowCancelled`,
  `ApprovalEngine.ResolveLeavesRunOpen`). A log is frozen exactly when the stored state
  is terminal (`LogTheorems.FrozenExactlyWhenTerminal`).
- `services/approval_engine.py:174-207`: the guard against a second resolution reads and
  later saves, so two overlapping calls can both resolve one request, and the log can
  end in a decision other than the stored one (`ApprovalRaces.BothCanGuard`,
  `ApprovalRaces.SecondSaveExactlyWhenGuardedBefore`, `ApprovalOverlap.LoggedAndStoredDisagree`).
- `services/ea_task_service.py:141-164,178-204`: the id search and the transition check
  also read and later save, so overlapping calls can replace a task or take it along a
  transition outside the table (`TaskRaces.TwoCreationsOneTask`,
  `TaskRaces.SecondMoveLegalExactlyWhen`).
- `services/ea_task_service.py:319-323`: the key `denied` matches no decision, so an
  abandoned task keeps waiting (`EaTasks.OnlyTimeoutMovesTask`).
- `services/orchestration/scheduler.py:78-82,103-105`: the documentation counts a task
  without a decision as denied; the code counts it nowhere
  (`Scheduler.DeniedAsDocumented`).
- `domain/team.py:165-172,184-190`: the fallback handoff is not an edge of the searched
  graph (`Team.RepeatsExactlyWhenFallbackReturns` says when a chain can come back).
- `services/orchestration/tilldone.py`: failed checks never escalate, and the work of
  the last allowed iteration is escalated even if it is done (`TillDone.DoneTooLate`).
- `services/run_lifecycle.py:192`, `services/resume.py:194-216`: the ids of the resume
  and resume-blocked events are fixed per run, so a run recovers once
  (`RunLifecycle.OnlyFirstRecoverySucceeds`).
- `services/approval_engine.py:225-248`: the id of the grant event is fixed per
  approval, so a second grant is saved and not logged (`ApprovalEngine.RegrantIsNotLogged`).

## Model

| member | source | states |
|---|---|---|
| EventLog.AppendEffect | src/waywarden/infra/db/repositories/run_event_repo.py:103-136 | an append has three outcomes, each with its exact condition; an accepted event gets the length of its run's log plus one as seq, and extends that log only; the table stays well formed |
| EventLog.AppendRefusals | src/waywarden/infra/db/repositories/run_event_repo.py:107-112 | the append is refused as terminal exactly for a stored run in completed, failed or cancelled, and as a duplicate exactly for another run and an id in the table |
| EventLog.MaxSeqIsLength | src/waywarden/infra/db/repositories/run_event_repo.py:161-166 | on a well-formed log `latest_seq` is the number of events |
| EventLog.SortOfAscending | src/waywarden/infra/db/repositories/run_event_repo.py:138-159 | ordering an ascending sequence by seq leaves it alone |
| EventLog.ListIsSlice | src/waywarden/infra/db/repositories/run_event_repo.py:138-159 | `list(since, limit)` is the slice of the run's log that starts just after `since`, cut to the limit |
| EventLog.PagingRebuildsLog | src/waywarden/infra/db/repositories/run_event_repo.py:138-159 | a client paging from any cursor at any page sizes gets one gap-free segment of the log |
| EventLog.PagingFromStart | src/waywarden/infra/db/repositories/run_event_repo.py:138-159 | paging from the start gives exactly the whole log if and only if the page sizes add up to at least its length |
| EventStream.BatchIsSlice | src/waywarden/api/routers/run_events.py:96-104 | a queried and sorted batch is the tail of the log after the cursor |
| EventStream.NoTypeCloses | src/waywarden/api/routers/run_events.py:105-106 | no event type is one of the state names that would close a stream |
| EventStream.EmitAllFresh | src/waywarden/api/routers/run_events.py:98-106 | a batch of ascending, unseen seqs is emitted whole and in order |
| EventStream.ClosedIgnoresRest | src/waywarden/api/routers/run_events.py:105-106 | a stream that closes inside a batch ignores the rest of it |
| EventStream.StreamGenerator.EmitBatch | src/waywarden/api/routers/run_events.py:99-106 | the loop over one batch, with skipping and early return, is the fold of one-event steps over the sorted batch |
| EventStream.StreamGenerator.Replay | src/waywarden/api/routers/run_events.py:95-106 | phase 1 is that fold over everything after `last_seen_seq` |
| EventStream.StreamGenerator.Tail | src/waywarden/api/routers/run_events.py:111-122 | one wake-up is that fold over everything after the recomputed cutoff |
| LogSystem.DrainIsEmitAll | src/waywarden/api/routers/run_events.py:116-122 | yielding a queued batch one frame at a time, as the step system does, is one run of the generator's loop over it |
| LogSystem.CutoffIsSeen | src/waywarden/api/routers/run_events.py:113-114 | with nothing queued, the recomputed cutoff is exactly how far the log had been read |
| LogSystem.YieldShape | src/waywarden/api/routers/run_events.py:116-122 | under the invariant a queued frame is new, so it is yielded, and it does not close the stream |
| LogSystem.StepLog | src/waywarden/infra/db/repositories/run_event_repo.py:103-136 | a step extends each run's log by at most one event, only an accepted write does, and logs stay well formed |
| LogSystem.ResumesKeep | src/waywarden/services/run_lifecycle.py:186-206 | every step keeps stored resume events pointing strictly before themselves |
| LogSystem.OneReaderKeeps | src/waywarden/api/routers/run_events.py:88-124 | every step of anyone keeps each stream's yielded and queued frames one segment of its log |
| LogSystem.ExecKeeps | src/waywarden/infra/db/repositories/run_event_repo.py:1-14 | the whole invariant holds after every step sequence |
| LogTheorems.ReachableLogs | src/waywarden/infra/db/repositories/run_event_repo.py:177-197 | in every reachable state of read-then-append writers each log carries seqs exactly 1..n in order, `latest_seq` is n, event ids are unique, and resume events point strictly back |
| LogTheorems.CallIsReadThenWrite | src/waywarden/services/run_lifecycle.py:186-206 | a service call with nothing in between is one append of its event to the table, so what the services do alone is one interleaving of the step system |
| LogTheorems.LogsOnlyGrow | src/waywarden/infra/db/repositories/run_event_repo.py:103-136 | logs are never rewritten and grow by exactly one event for each accepted append to their own run |
| LogTheorems.TerminalFreezesLog | src/waywarden/infra/db/repositories/run_event_repo.py:107-112 | while the stored state of a run is terminal, no interleaving without an update of that state changes its log, on any well-formed table |
| LogTheorems.FrozenExactlyWhenTerminal | src/waywarden/infra/db/repositories/run_event_repo.py:107-112 | a log is frozen under all such interleavings if and only if the stored state of its run is terminal; the events it holds and the calls in flight make no difference |
| LogTheorems.FrozenTableExactlyWhenTerminal | src/waywarden/infra/db/repositories/run_event_repo.py:103-136 | the same for a table, under any pending calls and connected streams, with the converse for an open one |
| LogTheorems.ResumeDistance | src/waywarden/services/run_lifecycle.py:186-206 | for a resume call with any steps between its read and its write, own seq minus recorded seq is one plus the appends to the run in between; it records seq - 1 if and only if there was none |
| LogTheorems.StreamIsSegment | src/waywarden/api/routers/run_events.py:96-124 | in every interleaving a stream's frames are one gap-free, duplicate-free ascending segment of the log that starts just after `last_seen_seq` or at 0, and reaches what the last query saw once its batch is out |
| LogTheorems.WakeDeliversLog | src/waywarden/api/routers/run_events.py:111-122 | after a wake-up and any interleaving of other steps, once the batch is out the frames end exactly at the log of the wake-up |
| LogTheorems.AfterReplay | src/waywarden/api/routers/run_events.py:96-114 | a stream starts just after `last_seen_seq` when its replay found something, and at 0 otherwise |
| LogTheorems.ResendsExactly | src/waywarden/api/routers/run_events.py:96-115 | a stream sends an event its client already has if and only if its positive cursor equals the log's length at the replay query |
| LogTheorems.TipReconnectResends | src/waywarden/api/routers/run_events.py:113-115 | any client that reconnects at the very end of a non-empty log is sent event 1 again at the first wake-up |
| LogTheorems.ResendExample | src/waywarden/api/routers/run_events.py:113-115 | one concrete run in which that happens |
| Database.Session.CreateRun | src/waywarden/infra/db/repositories/run_repo.py:17-34 | a run is inserted in state `created` unless its id exists |
| Database.Session.UpdateState | src/waywarden/infra/db/repositories/run_repo.py:61-82 | the stored state of an existing run is replaced; a missing run is reported and nothing changes |
| Database.Session.Append | src/waywarden/infra/db/repositories/run_event_repo.py:103-136 | the stored table after an append is the append function of the old table, accepted exactly when the run is not terminal and the id is unused |
| RunLifecycle.RunLifecycleService.Start | src/waywarden/services/run_lifecycle.py:88-146 | succeeds exactly when the run, its log and its event id are unused, and puts run.created at seq 1 |
| RunLifecycle.RunLifecycleService.Resume | src/waywarden/services/run_lifecycle.py:148-206 | succeeds exactly on a live run with a known kind and an unused resume id; the event records the seq just before it; each error with its exact condition |
| RunLifecycle.RunLifecycleService.Cancel | src/waywarden/services/run_lifecycle.py:208-265 | succeeds exactly on a live run with an unused cancel id; appends run.cancelled, leaves the stored state, and so leaves the log open to further events |
| RunLifecycle.EventsFollowCancelled | src/waywarden/services/run_lifecycle.py:253-265 | after run.cancelled any event with an unused id is still stored, right behind it |
| RunLifecycle.ResumeService.EmitResumeBlocked | src/waywarden/services/resume.py:194-216 | the blocked event is one ordinary append under its fixed id |
| RunLifecycle.ResumeService.RecoverOne | src/waywarden/services/resume.py:78-134 | one pending entry is skipped, recovered, blocked or raises, as a function of the old table |
| RunLifecycle.ResumeService.RehydrateAll | src/waywarden/services/resume.py:78-134 | the loop processes the entries in order up to the first that raises, and returns exactly the recovered runs |
| RunLifecycle.RecoverFate | src/waywarden/services/resume.py:78-134 | the fate of a clean entry, down to the error it raises, depends exactly on which of the run's two fixed ids are used, and with it the log |
| RunLifecycle.RecoverRefusals | src/waywarden/services/resume.py:90-122 | which entries are skipped, cross another run's checkpoint or have a changed manifest, in the order of the checks, by the four open states |
| RunLifecycle.FatesInOrder | src/waywarden/services/resume.py:78-134 | entry i is recovered on the table that the entries before it have left, and only the last one processed can raise |
| RunLifecycle.RecoverAllEnds | src/waywarden/services/resume.py:78-134 | all entries are processed unless one raises |
| RunLifecycle.RecoveredRunAt | src/waywarden/services/resume.py:78-134 | the runs returned are those of the recovered entries, in their order |
| RunLifecycle.OnlyFirstRecoverySucceeds | src/waywarden/services/resume.py:194-216 | the first recovery of a run succeeds, the second marks it blocked, the third raises and leaves the log alone |
| Orchestration.NextEntry | src/waywarden/services/orchestration/service.py:178-223 | after k entries of the trace, the next append lands as entry k + 1 exactly if its id was free at the start |
| Orchestration.OrchestrationService.Emit | src/waywarden/services/orchestration/service.py:225-272 | read latest, then append: accepted exactly when the stored state is not terminal and the id is unused |
| Orchestration.OrchestrationService.EmitProgress | src/waywarden/services/orchestration/service.py:178-223 | the same with the guard on the run record in hand |
| Orchestration.OrchestrationService.UpdateState | src/waywarden/services/orchestration/service.py:274-291 | replaces the stored state, or reports the missing run |
| Orchestration.OrchestrationService.RunPhases | src/waywarden/services/orchestration/service.py:84-174 | the five phases write the whole trace and end in `completed` exactly when the run exists, is not terminal and all ids are free |
| Orchestration.OrchestrationService.Run | src/waywarden/services/orchestration/service.py:66-100 | on a `created` run, alone, success exactly under that condition; then the run's log is the old one followed by the twelve-event trace ending in run.completed, and from there no interleaving without an update of the run's state changes it, whatever calls were pending |
| Orchestration.StampedIsRunLogged | src/waywarden/services/orchestration/service.py:104-174 | the trace row by row: ten milestones of the five phases, then the usage summary, then run.completed, with ids and seqs |
| TraceInterleaving.ScriptStaysInOrder | src/waywarden/services/orchestration/service.py:178-223 | the entries a service has written, read by read and write by write among any other steps, stand in the run's log in order and behind what was there at first, as long as none is refused |
| TraceInterleaving.TraceAmongOthers | src/waywarden/services/orchestration/service.py:84-174 | orchestration among any other writers: if none of its appends is refused, all twelve entries stand in the log in order; other events can still land behind run.completed until the state is updated, and none can after that |
| ApprovalEngine.ApprovalEngine.RequestApproval | src/waywarden/services/approval_engine.py:70-146 | the tables after a request are the request function of the tables before |
| ApprovalEngine.ApprovalEngine.ResolveApproval | src/waywarden/services/approval_engine.py:148-221 | the tables after a resolution are the resolve function of the tables before |
| ApprovalEngine.PendingIffRequestedLast | src/waywarden/services/approval_engine.py:102-221 | over every history of calls an approval is pending if and only if the last call that saved it was a request |
| ApprovalEngine.RequestBetweenResolves | src/waywarden/services/approval_engine.py:174-190 | between any two resolutions of one approval lies a new request for it |
| ApprovalEngine.ResolvesUseUpRequests | src/waywarden/services/approval_engine.py:148-221 | in every history resolutions, plus one if still pending, are at most the requests |
| ApprovalEngine.RequestEffect | src/waywarden/services/approval_engine.py:102-146 | a request always leaves the approval pending, and adds one waiting event exactly when the run is not terminal and the waiting id is unused |
| ApprovalEngine.ResolveEffect | src/waywarden/services/approval_engine.py:174-339 | a resolution changes one approval, and adds exactly one event of the mapped type to its own run's log if and only if it is not refused |
| ApprovalEngine.DecisionsWritten | src/waywarden/services/approval_engine.py:189-339 | for each decision, retryable timeouts apart: the saved state, and on an accepted append the id, the event type with its reason or kind, and the seq it records |
| ApprovalEngine.RequestWritten | src/waywarden/services/approval_engine.py:102-146 | the approval and the event that a request saves and logs |
| ApprovalEngine.ResolveLeavesRunOpen | src/waywarden/services/approval_engine.py:250-339 | no resolution closes its run, not even one that logs run.cancelled or run.failed |
| ApprovalEngine.RegrantIsNotLogged | src/waywarden/services/approval_engine.py:225-248 | request, grant, request, grant: the second grant is saved and its event refused |
| ApprovalRaces.ResolveAlone | src/waywarden/services/approval_engine.py:148-221 | the four steps of a resolve call with nothing in between are the atomic resolution |
| ApprovalRaces.RequestAlone | src/waywarden/services/approval_engine.py:70-146 | the three steps of a request call with nothing in between are the atomic request |
| ApprovalRaces.StaysDecided | src/waywarden/services/approval_engine.py:174-182 | whatever calls overlap, an approval that is not pending stays so until a request is saved |
| ApprovalRaces.GuardsStay | src/waywarden/services/approval_engine.py:174-207 | meanwhile no further call passes the guard, and one that has passed it keeps its way to the save |
| ApprovalRaces.SecondSaveExactlyWhenGuardedBefore | src/waywarden/services/approval_engine.py:174-207 | one request is resolved twice if and only if the second call had passed the pending guard before the first call saved, under every interleaving without a new request; otherwise the second call leaves the approval as it is |
| ApprovalRaces.BothCanGuard | src/waywarden/services/approval_engine.py:174-182 | from every pending approval two calls can pass the guard, whatever they decide |
| ApprovalOverlap.OverlapCanStart | src/waywarden/services/approval_engine.py:174-182 | every pending approval of an open run with no resolution in flight and both tags unused can come to two overlapping resolutions |
| ApprovalOverlap.EmitLogs | src/waywarden/services/approval_engine.py:225-339 | an append for an approval is accepted exactly when its tag is not yet logged |
| ApprovalOverlap.OverlapKeeps | src/waywarden/services/approval_engine.py:174-339 | every step of anyone keeps what overlapping resolutions have stored and logged so far |
| ApprovalOverlap.OverlappingResolutions | src/waywarden/services/approval_engine.py:174-339 | however many resolutions of one request overlap, in every order of their steps and with any steps on other approvals: each appends once, the log gains each of their tags once in the order of the appends, and the stored decision is that of the last save |
| ApprovalOverlap.BothLoggedExactlyWhenTagsDiffer | src/waywarden/services/approval_engine.py:174-339 | for two such calls both decisions are logged if and only if their tags differ, and the last logged one agrees with the stored state if and only if both decisions stand for one state or the call that saved last appended last |
| ApprovalOverlap.TwoCallsGrowLog | src/waywarden/services/approval_engine.py:207-339 | in every order of the two calls' own steps the run's log grows by one event if the tags are equal and by two otherwise |
| ApprovalOverlap.LoggedAndStoredDisagree | src/waywarden/services/approval_engine.py:207-339 | from any pending approval of an open run, a schedule in which the denial is stored and the grant is the last decision logged |
| EaTasks.CandidateInjective | src/waywarden/services/ea_task_service.py:141-150 | different counters give different candidate ids |
| EaTasks.TakenCandidates | src/waywarden/services/ea_task_service.py:141-150 | if the first c candidates are taken, there are at least c tasks |
| EaTasks.LeastFree | src/waywarden/services/ea_task_service.py:141-150 | a free counter exists for every finite repository |
| EaTasks.LeastFreeIsLeast | src/waywarden/services/ea_task_service.py:141-150 | every smaller counter is taken |
| EaTasks.FreeTaskId | src/waywarden/services/ea_task_service.py:141-150 | the `while True` search terminates on every repository and returns the least free candidate |
| EaTasks.NextIdWritten | src/waywarden/services/ea_task_service.py:139-150 | the plain id if it is free, and otherwise the one with the least counter from 1 on that is |
| Prelude.DecimalReadsBack | src/waywarden/services/ea_task_service.py:141-150 | the counter is written in decimal digits without leading zeros that read back as the counter |
| EaTasks.AllowedWritten | src/waywarden/services/ea_task_service.py:179-187 | the nine allowed transitions |
| EaTasks.MilestonesWritten | src/waywarden/services/ea_task_service.py:404-415 | the milestone that reports each state |
| EaTasks.CheckpointInjective | src/waywarden/services/ea_task_service.py:380-382 | different tasks have different checkpoint ids |
| EaTasks.StateBody | src/waywarden/services/ea_task_service.py:404-415 | every task state is reported as a cataloged milestone |
| EaTasks.OnlyTimeoutMovesTask | src/waywarden/services/ea_task_service.py:317-327 | of the four decisions only a timeout changes the task's state by the lookup table |
| EaTasks.EATaskService.EmitProgress | src/waywarden/services/ea_task_service.py:345-373 | with a fresh id, only a terminal run refuses the event |
| EaTasks.EATaskService.CreateTask | src/waywarden/services/ea_task_service.py:137-172 | executed alone, the new task takes the least free id and overwrites no other; one event unless the run is terminal |
| EaTasks.EATaskService.TransitionTask | src/waywarden/services/ea_task_service.py:176-209 | executed alone, exactly the transitions of the table are taken; errors change nothing |
| TaskRaces.SearchAlone | src/waywarden/services/ea_task_service.py:141-150 | the id search probe by probe, with nothing in between, ends at the least free id |
| TaskRaces.MoveAlone | src/waywarden/services/ea_task_service.py:176-204 | the check and the save of a transition with nothing in between are the transition |
| TaskRaces.FoundStays | src/waywarden/services/ea_task_service.py:141-164 | once an id is taken no search finds it any more, and one that had found it keeps it |
| TaskRaces.CreationsCollideExactlyWhenFoundBefore | src/waywarden/services/ea_task_service.py:141-164 | under every interleaving, a second call creates a task under the id of a first one if and only if its search had ended there before the first call saved, and then replaces it |
| TaskRaces.TwoCreationsOneTask | src/waywarden/services/ea_task_service.py:141-164 | on any repository two calls of one session that search before either saves leave one new task, the second |
| TaskRaces.SecondMoveLegalExactlyWhen | src/waywarden/services/ea_task_service.py:178-204 | of two transitions checked against one state both are saved, and the second is a transition of the table from where the first has left the task in exactly two cases |
| EaTasks.EATaskService.RequestApproval | src/waywarden/services/ea_task_service.py:213-275 | only an executing task, and other calls change nothing; it waits, its checkpoint is pending, and two events record it; a terminal run or a used waiting id, and nothing else, refuses both events |
| EaTasks.EATaskService.ResolveApproval | src/waywarden/services/ea_task_service.py:277-341 | success exactly on a pending checkpoint of a non-terminal run with an unused decision id, with its whole effect; a refused event leaves tasks and log as they were and the checkpoint resolved |
| SchedulerSpec.AllocNew | src/waywarden/services/ea_task_service.py:141-164 | the ids of n creations in a row are new and pairwise different |
| SchedulerSpec.GrowsLog | src/waywarden/services/ea_task_service.py:345-373 | events written for one run extend its log by exactly themselves and no other log |
| SchedulerSpec.OpenedClosed | src/waywarden/services/orchestration/scheduler.py:118-187 | opening a checkpoint and closing it compose to the processing of one task |
| SchedulerBatch.StillFree | src/waywarden/services/orchestration/scheduler.py:118-187 | earlier tasks use up no event id of a later task's checkpoint |
| SchedulerBatch.OneTaskPerEntry | src/waywarden/services/orchestration/scheduler.py:118-128 | the repository has grown by exactly one task per queue entry, under ids that are new and pairwise different |
| SchedulerBatch.NoAutoGrant | src/waywarden/services/orchestration/scheduler.py:145-181 | a queued task is completed if and only if a grant is found for its title or, with none for the title, for its index |
| SchedulerBatch.ChosenDecides | src/waywarden/services/orchestration/scheduler.py:145-149 | the decision of a task is the one under its title, and only without one there the one under its 1-based index |
| SchedulerBatch.OutcomesByKeys | src/waywarden/services/orchestration/scheduler.py:145-181 | for each queued task and each decision the map holds for it by these keys, the state of the task and of its checkpoint; the checkpoint is pending exactly if neither key is in the map |
| SchedulerSpec.TraceWritten | src/waywarden/services/orchestration/scheduler.py:121-181 | the events of one task, written out for every decision |
| SchedulerBatch.CountsWritten | src/waywarden/services/orchestration/scheduler.py:160-181 | the counters count the granted, the abandoned and the alternate-path decisions |
| SchedulerBatch.KindsPartition | src/waywarden/services/orchestration/scheduler.py:161-187 | every task is counted under exactly one kind of decision |
| Scheduler.DeniedAsDocumented | src/waywarden/services/orchestration/scheduler.py:78-82 | the result's `denied` is the documented number, which includes missing decisions, if and only if every task has a decision |
| Scheduler.EASchedulerHandler.ProcessOne | src/waywarden/services/orchestration/scheduler.py:118-187 | one queued task goes through exactly when the run is not terminal and the fixed ids of its checkpoint events are unused; then its task, checkpoint and events are those of its decision, and nothing else has changed |
| Scheduler.EASchedulerHandler.Run | src/waywarden/services/orchestration/scheduler.py:91-189 | for every queue, decision map, database and run id: success exactly when the run is not terminal and all checkpoint ids are free (or the queue is empty); then one new task per entry ends completed if and only if granted, planned for an alternate path, failed for a timeout, waiting otherwise, the run's log grows by the tasks' traces, and the counters and records are right; always only allowed transitions, and earlier tasks and all runs unchanged |
| DeadlockSearch.TopologicalNoCycle | src/waywarden/domain/team.py:184-207 | a covering topological order excludes every directed cycle |
| DeadlockSearch.Search.Visit | src/waywarden/domain/team.py:195-204 | the recursive visit terminates, and either finds a real cycle or finishes its node with the order extended |
| DeadlockSearch.BuildGraph | src/waywarden/domain/team.py:186-190 | the adjacency map has exactly the routes' edges |
| DeadlockSearch.RaiseOnDeadlock | src/waywarden/domain/team.py:184-207 | raises if and only if the routes contain a directed cycle, in whatever order sets are iterated; otherwise the finish order is topological and covers every edge |
| Team.IndexMembers | src/waywarden/domain/team.py:98-112 | the id index exists exactly when the member ids are distinct |
| Team.RouteErrorMeaning | src/waywarden/domain/team.py:113-136 | the checks of one route find no error exactly when the route is sound, and otherwise the first one that applies |
| Team.Construct | src/waywarden/domain/team.py:82-146 | construction accepts exactly the teams that satisfy every check, and each error means its fault |
| Team.FirstRouteSound | src/waywarden/domain/team.py:153-163 | the lookup finds a declared route of that agent and output if and only if there is one |
| Team.HandoffWritten | src/waywarden/domain/team.py:153-176 | who may hand over, that the first of several matching routes is taken, when the fallback answers and with what, and when there is no route |
| Team.RepeatUsesFallback | src/waywarden/domain/team.py:153-176 | between two visits of one agent lies a handoff that only the fallback answers |
| Team.DeclaredChainsAreSimple | src/waywarden/domain/team.py:153-207 | in a constructed team a chain of declared handoffs visits each member at most once and is shorter than the member list |
| Team.RepeatsExactlyWhenFallbackReturns | src/waywarden/domain/team.py:165-172 | with the fallback, handoffs can come back to an agent if and only if declared handoffs lead from the fallback agent to the dispatcher |
| Team.LoopingTeamIsConstructed | src/waywarden/domain/team.py:165-190 | a concrete team that passes construction and can loop |
| Pipeline.Construct | src/waywarden/domain/pipeline.py:149-186 | construction accepts exactly the pipelines that satisfy every check, with the meaning of each error |
| Pipeline.FindNodeMeaning | src/waywarden/domain/pipeline.py:188-194 | the node lookup finds the node of that id, if any |
| Pipeline.FindRouteMeaning | src/waywarden/domain/pipeline.py:196-203 | the route lookup finds a declared route of that node and outcome if and only if there is one |
| Pipeline.WalksAgree | src/waywarden/services/orchestration/pipeline.py:64-91 | the outcome map determines the walk |
| Pipeline.StoppedWalkIsLongest | src/waywarden/services/orchestration/pipeline.py:64-91 | no walk goes on where another has stopped |
| Pipeline.StoppedWalkIsSimple | src/waywarden/services/orchestration/pipeline.py:56-91 | a walk that stops never repeats a node |
| Pipeline.SimpleWalkIsShort | src/waywarden/services/orchestration/pipeline.py:56-60 | a walk without repeats has at most as many nodes as the pipeline |
| PipelineEngine.Execute | src/waywarden/services/orchestration/pipeline.py:45-97 | the loop answers with the walk fixed by the outcomes, one event per node numbered from 1, the status of its last node, the lookup error it meets, or the limit |
| PipelineEngine.AnswerIsUnique | src/waywarden/services/orchestration/pipeline.py:64-97 | limit and outcomes determine walk and answer |
| PipelineEngine.StepLimitWritten | src/waywarden/services/orchestration/pipeline.py:56-60 | the given limit, or twice the number of nodes |
| PipelineEngine.MoveWritten | src/waywarden/services/orchestration/pipeline.py:66-91 | a node's move in terms of the declared routes alone |
| PipelineEngine.ExecutionWritten | src/waywarden/services/orchestration/pipeline.py:64-97 | when an execution returns, each node has an outcome, the declared routes lead from node to node, none leads on from the last, and the status is aborted exactly if the last node failed, as its event alone says |
| PipelineEngine.ErrorsWritten | src/waywarden/services/orchestration/pipeline.py:64-107 | each lookup error and the exceeded limit with its exact condition at the last node, in terms of the declared nodes, outcomes and routes |
| PipelineEngine.ExceedsExactlyOnRevisit | src/waywarden/services/orchestration/pipeline.py:56-70 | with the default limit, or any from the node count up, execution exceeds it if and only if the walk revisits a node |
| PipelineEngine.FinishingPipelinesComplete | src/waywarden/services/orchestration/pipeline.py:56-97 | a pipeline whose walk ends is never rejected by the default limit, visits each node at most once, and is aborted exactly when its last node failed into a null route, with only that event marked |
| PipelineEngine.SmallLimitRejects | src/waywarden/services/orchestration/pipeline.py:56-70 | below the node count a limit can reject a pipeline that would finish |
| PolicyLoader.BuildOverrideMap | src/waywarden/policy/loader.py:147-160 | the map holds the last valid entry of each tool, in first-occurrence order |
| PolicyLoader.ReplaceInPlace | src/waywarden/policy/loader.py:161-168 | replacing cells through `index` while iterating the same list equals mapping each base rule to its override, even with equal and duplicate rules |
| PolicyLoader.MergeOverrides | src/waywarden/policy/loader.py:132-178 | the in-place merge computes the pure merge |
| PolicyLoader.LastForIsLast | src/waywarden/policy/loader.py:150-160 | the override of a tool is its last valid entry |
| PolicyLoader.MergeWritten | src/waywarden/policy/loader.py:146-178 | which default and which rules a merge has |
| PolicyLoader.MergedBase | src/waywarden/policy/loader.py:161-168 | every base rule stays at its place, as itself or as the last valid entry of its tool |
| PolicyLoader.AddedWritten | src/waywarden/policy/loader.py:170-172 | behind the base rules come the overrides of exactly the tools that no base rule has |
| PolicyLoader.ToolsInFirstOrder | src/waywarden/policy/loader.py:150-172 | they come in the order of the tools' first valid entries |
| PolicyLoader.VerdictWritten | src/waywarden/services/approval_hooks.py:43-64 | the first rule of the tool without an action or with this one decides, else the default; and which decision gives which verdict |
| PolicyLoader.FirstMatchConcat | src/waywarden/services/approval_hooks.py:49-64 | first-match evaluation of two lists in a row |
| PolicyLoader.MergeMeaning | src/waywarden/policy/loader.py:138-145 | for every tool and action: outside the override the decision is kept, inside it the last override rule decides where it applies and the default where it does not |
| PolicyLoader.MergeIdempotent | src/waywarden/policy/loader.py:132-178 | merging an override twice equals merging it once |
| TillDone.LastIteration | src/waywarden/services/orchestration/tilldone.py:231-250 | the loop's last iteration is the first done one, or the maximum |
| TillDone.CallsWritten | src/waywarden/services/orchestration/tilldone.py:64-66 | the calls stop exactly at the first iteration whose check passed with the plan unrevised, or at the maximum |
| TillDone.IterationWritten | src/waywarden/services/orchestration/tilldone.py:245-297 | the events of an iteration, written out for a revised, a passed and a failed one |
| TillDone.EscalationWritten | src/waywarden/services/orchestration/tilldone.py:246-300 | an escalated loop ends in an iteration that has only started, or has made none |
| TillDone.EmitVerdict | src/waywarden/services/orchestration/tilldone.py:268-297 | what follows the opening of an iteration, by its result |
| TillDone.RunTillDone | src/waywarden/services/orchestration/tilldone.py:191-300 | the step function is called with 1, 2, ... up to the last iteration; the stream grows by exactly the trace, numbered on; the outcome is COMPLETED if and only if an iteration strictly before the maximum is done |
| TillDone.TraceClosesOnce | src/waywarden/services/orchestration/tilldone.py:246-300 | every trace ends in exactly one closing milestone, `terminal` if and only if the loop completes, and nothing follows it |
| TillDone.StartsAreCalls | src/waywarden/services/orchestration/tilldone.py:231-246 | the trace starts one iteration for each call of the step function |
| TillDone.DoneTooLate | src/waywarden/services/orchestration/tilldone.py:248-250 | an iteration that is done at the maximum is escalated all the same |
| TokenUsage.Summarize | src/waywarden/infra/db/repositories/token_usage_repo.py:107-158 | the one-pass loop equals the filtered sum of each model, and lists exactly the models that occur |
| TokenUsage.TotalWritten | src/waywarden/infra/db/repositories/token_usage_repo.py:115-158 | each total is the sum of its own column |
| TokenUsage.FiltersWritten | src/waywarden/infra/db/repositories/token_usage_repo.py:107-158 | the rows of a run and of a model are exactly those that carry it |
| TokenUsage.SumModelsIsTotal | src/waywarden/infra/db/repositories/token_usage_repo.py:115-158 | filtered sums over any duplicate-free list of all the models add up to the totals |
| TokenUsage.RollupsAddUp | src/waywarden/infra/db/repositories/token_usage_repo.py:115-158 | the rollups add up to the grand totals, and the calls to the number of rows |
| TokenUsage.TotalsConsistent | src/waywarden/domain/token_usage.py:34-38 | total is prompt plus completion at both levels |
| AssetFilters.EvaluateSound | src/waywarden/assets/loader.py:171-180 | evaluation keeps exactly the assets the filter lets through |
| AssetFilters.KeepsWritten | src/waywarden/assets/loader.py:108-169 | what each of the four operators lets through, in terms of the asset's tags and providers |
| AssetFilters.OnePassSnoc | src/waywarden/assets/loader.py:316-329 | filtering the result of one pass by one more filter is one pass by the longer conjunction |
| AssetFilters.ApplyFilters | src/waywarden/assets/loader.py:316-329 | the loop over the filters is one pass by the conjunction of them all, in registry order; the first ill-formed filter fails it with its own error |
| AssetFilters.FilterOrderIrrelevant | src/waywarden/assets/loader.py:316-329 | any permutation of the filters gives the same list |
| AssetFilters.IncludeExcludePartition | src/waywarden/assets/loader.py:108-151 | `include` and `exclude` with one selector split any list exactly, with multiplicities |

## Left out

- LogTheorems.ReachableLogs: one append is atomic, as the repository's documentation claims; SQL, sessions, `SELECT ... FOR UPDATE` and a rollback after a refused insert are not part of this model.
- LogTheorems.StreamIsSegment: a wake-up is a step that may happen at any time; subscriber sets, missed wake-ups, SSE framing and errors that end a generator are not part of this model.
- ApprovalEngine.PendingIffRequestedLast: histories of whole calls; overlapping calls are the subject of ApprovalRaces and ApprovalOverlap, where each save is seen by later reads at once, so isolation between database sessions is not part of this model.
- EaTasks.EATaskService.CreateTask: one call at a time; overlapping calls are the subject of TaskRaces. There a save is one step, so two inserts of one id that both find no row, of which the table refuses one, are not part of this model.
- EaTasks.EATaskService.TransitionTask: one call at a time, as above.
- Scheduler.EASchedulerHandler.Run: the scheduler is executed alone, like the service calls it makes; on a refusal the scheduler's contract says what stays unchanged, not how far the refused task got; each service method states that for its own call.
- LogTheorems.AfterReplay: `last_seen_seq` is checked against the log at connection; the fallback of `_latest_seq_safe` to 0 on a database error is not part of this model.
- Event ids are structured values, not concatenated strings, except for task ids and checkpoint kinds, whose injectivity is proved; `uuid4` is a source of fresh serials.
- Datetimes, causation, correlation ids, artifact contents and token budgets in payloads.
- Text cleaning and field validators of the dataclasses, among them the milestone check of pipeline nodes.
- YAML and pydantic: an override entry is a parsed rule or none; manifest hashes are parameters.
- `append` of token usage rows, and its own sequence numbers.
- The scheduler without a task service, which raises at once.
- Registries, the visibility service and `narrow_manifest`: they look up, project and intersect stored values and take no part in the log, the approvals or the walks.
- The iBox triage handler, which has the scheduler's shape and promises less, and the adversarial review routine, which checks keywords.
- Streams that close on terminal events and escalation after failed checks: the code does neither.
