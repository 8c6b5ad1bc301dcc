/** The EA scheduler loop over the task service. */
module Scheduler {
  import opened Prelude
  import opened RunEvents
  import opened EventLog
  import opened Database
  import opened ApprovalEngine
  import opened EaTasks
  import opened SchedulerSpec
  import opened SchedulerBatch

  datatype ScheduleResult = ScheduleResult(
    processed: nat, approved: nat, denied: nat, rescheduled: nat, decisions: seq<(TaskId, Option<Decision>)>)

  /** The counters and the record that one processed task adds. */
  function Tally(r: ScheduleResult, id: TaskId, d: Option<Decision>): ScheduleResult {
    var r := r.(processed := r.processed + 1, decisions := r.decisions + [(id, d)]);
    match d
    case Some(Grant) => r.(approved := r.approved + 1)
    case Some(DenyAbandon(_)) => r.(denied := r.denied + 1)
    case Some(DenyAlternatePath(_)) => r.(rescheduled := r.rescheduled + 1)
    case _ => r
  }

  /** The result counts the tasks by decision and lists them in order. */
  ghost predicate Reports(r: ScheduleResult, ids: seq<TaskId>, ds: seq<Option<Decision>>) {
    && r.processed == |ids| == |ds| == |r.decisions|
    && r.approved == CountKind(ds, Approves)
    && r.denied == CountKind(ds, Denies)
    && r.rescheduled == CountKind(ds, Reschedules)
    && forall i :: 0 <= i < |ids| ==> r.decisions[i] == (ids[i], ds[i])
  }

  lemma ReportsStep(r: ScheduleResult, ids: seq<TaskId>, ds: seq<Option<Decision>>, id: TaskId,
      d: Option<Decision>)
    requires Reports(r, ids, ds)
    ensures Reports(Tally(r, id, d), ids + [id], ds + [d])
  {
    CountKindSnoc(ds, d, Approves);
    CountKindSnoc(ds, d, Denies);
    CountKindSnoc(ds, d, Reschedules);
  }

  /** The tasks that the documentation counts as denied: those that are abandoned and
      those that have no decision. */
  function DocumentedDenied(ds: seq<Option<Decision>>): nat {
    CountKind(ds, Denies) + CountKind(ds, Missing)
  }

  /** The result's `denied` is the documented number exactly when every task has a decision. */
  lemma DeniedAsDocumented(r: ScheduleResult, ids: seq<TaskId>, ds: seq<Option<Decision>>)
    requires Reports(r, ids, ds)
    ensures r.denied == DocumentedDenied(ds) <==> forall i :: 0 <= i < |ds| ==> ds[i].Some?
  {
    CountedExactlyWhenPresent(ds, Missing);
    if i :| 0 <= i < |ds| && ds[i].None? {
      assert KindOf(ds[i]) == Missing;
    }
  }

  class EASchedulerHandler {
    const db: Session
    const service: EATaskService

    constructor (service: EATaskService)
      ensures this.service == service && this.db == service.db
    {
      this.service := service;
      this.db := service.db;
    }

    ghost predicate Valid()
      reads this, db, service
    {
      service.db == db && service.engine.db == db && db.Valid()
    }

    function Now(): Snapshot
      reads db
    {
      Snapshot(db.runs, db.rows, db.approvals, db.tasks)
    }

    method Create(task: ScheduledTask, run: RunId) returns (r: Result<TaskId, EaError>)
      requires Valid() && run != ""
      modifies db
      ensures Valid() && LegalSince(old(db.writes), db.writes)
      ensures var id := NextId(old(db.tasks).Keys, SESSION);
        && OnlyTask(old(Now()), Now(), id) && db.approvals == old(db.approvals)
        && db.tasks[id] == Task(id, SESSION, task.title, task.objective, Draft)
        && (r.Ok? ==> r.value == id && Progressed(old(Now()), Now(), run, id, [Progress(Intake, Accepted)], {}))
      ensures r.Ok? <==> !RunClosed(old(Now()), run)
    {
      ghost var rows := db.rows;
      r := service.CreateTask(SESSION, task.title, task.objective, run);
      if r.Ok? {
        OneEvent(rows, db.rows, db.rows[|rows|], {});
      }
    }

    /** An allowed transition of a stored task. */
    method Move(id: TaskId, state: TaskState, run: RunId) returns (failure: Option<EaError>)
      requires Valid() && run != "" && id in db.tasks && Allowed(db.tasks[id].state, state)
      modifies db
      ensures Valid() && LegalSince(old(db.writes), db.writes)
      ensures OnlyTask(old(Now()), Now(), id) && db.approvals == old(db.approvals)
      ensures db.tasks[id] == old(db.tasks)[id].(state := state)
      ensures failure.None? <==> !RunClosed(old(Now()), run)
      ensures failure.None? ==> Progressed(old(Now()), Now(), run, id, [StateBody(state)], {})
    {
      ghost var rows := db.rows;
      failure := service.TransitionTask(id, state, run);
      if failure.None? {
        OneEvent(rows, db.rows, db.rows[|rows|], {});
      }
    }

    /** To planning and on to executing. */
    method PlanAndStart(id: TaskId, run: RunId) returns (failure: Option<EaError>)
      requires Valid() && run != "" && id in db.tasks && Allowed(db.tasks[id].state, Planned)
      modifies db
      ensures Valid() && LegalSince(old(db.writes), db.writes)
      ensures OnlyTask(old(Now()), Now(), id) && db.approvals == old(db.approvals)
      ensures failure.None? <==> !RunClosed(old(Now()), run)
      ensures failure.None? ==>
        && db.tasks[id] == old(db.tasks)[id].(state := Running)
        && Progressed(old(Now()), Now(), run, id, [StateBody(Planned), StateBody(Running)], {})
    {
      ghost var s0 := Now();
      failure := Move(id, Planned, run);
      if failure.Some? { return; }
      ghost var s1 := Now();
      failure := Move(id, Running, run);
      if failure.None? {
        ProgressedTrans(s0, s1, Now(), run, id, [StateBody(Planned)], [StateBody(Running)], {}, {});
      }
    }

    /** Create, plan and start: three events with fresh ids. */
    method StartTask(task: ScheduledTask, run: RunId) returns (r: Result<TaskId, EaError>)
      requires Valid() && run != ""
      modifies db
      ensures Valid() && LegalSince(old(db.writes), db.writes)
      ensures var id := NextId(old(db.tasks).Keys, SESSION);
        && OnlyTask(old(Now()), Now(), id) && db.approvals == old(db.approvals)
        && (r.Ok? ==>
              && r.value == id
              && db.tasks[id] == Task(id, SESSION, task.title, task.objective, Running)
              && Progressed(old(Now()), Now(), run, id,
                 [Progress(Intake, Accepted), StateBody(Planned), StateBody(Running)], {}))
      ensures r.Ok? <==> !RunClosed(old(Now()), run)
    {
      ghost var s0 := Now();
      r := Create(task, run);
      if r.Err? { return; }
      ghost var s1 := Now();
      var failure := PlanAndStart(r.value, run);
      if failure.Some? { return Err(failure.value); }
      ProgressedTrans(s0, s1, Now(), run, r.value, [Progress(Intake, Accepted)],
        [StateBody(Planned), StateBody(Running)], {}, {});
    }

    /** The checkpoint request on a running task: two events. */
    method AskApproval(id: TaskId, run: RunId) returns (failure: Option<EaError>)
      requires Valid() && run != "" && id in db.tasks && db.tasks[id].state == Running
      modifies db
      ensures Valid() && LegalSince(old(db.writes), db.writes)
      ensures OnlyTask(old(Now()), Now(), id) && db.tasks[id] == old(db.tasks)[id].(state := Waiting)
      ensures var check := CheckpointId(run, id);
        && SameApprovalsBut(old(Now()), Now(), check) && db.approvals[check].state == Pending
        && (failure.None? <==> !RunClosed(old(Now()), run) && !IdUsed(old(db.rows), ForApproval(check, TagWaiting)))
        && (failure.None? ==>
              && Progressed(old(Now()), Now(), run, id, [ApprovalWaiting(check), Progress(Plan, ApprovalRequested)],
                 {check})
              && forall t :: t != TagWaiting ==>
                 (IdUsed(db.rows, ForApproval(check, t)) <==> IdUsed(old(db.rows), ForApproval(check, t))))
    {
      ghost var check, rows0 := CheckpointId(run, id), db.rows;
      failure := service.RequestApproval(id, run, "");
      if failure.None? {
        CheckpointEvents(rows0, db.rows, check);
      }
    }

    /** Up to the checkpoint. */
    method Open(task: ScheduledTask, run: RunId) returns (r: Result<TaskId, EaError>)
      requires Valid() && run != ""
      modifies db
      ensures Valid() && LegalSince(old(db.writes), db.writes)
      ensures var id := NextId(old(db.tasks).Keys, SESSION);
        && OnlyTask(old(Now()), Now(), id)
        && (r.Ok? <==>
           !RunClosed(old(Now()), run) && !IdUsed(old(db.rows), ForApproval(CheckpointId(run, id), TagWaiting)))
        && (r.Ok? ==> r.value == id && Opened(old(Now()), Now(), run, id, task))
    {
      ghost var s0 := Now();
      r := StartTask(task, run);
      if r.Err? { return; }
      ghost var s1, check := Now(), CheckpointId(run, r.value);
      var failure := AskApproval(r.value, run);
      OnlyTaskTrans(s0, s1, Now(), r.value);
      if failure.Some? { return Err(failure.value); }
      StartedAsked(s0, s1, Now(), run, r.value, task);
    }

    /** The engine's resolution, and the task state it leaves: only a timeout moves the task. */
    method Resolve(id: TaskId, d: Decision, run: RunId) returns (failure: Option<EaError>)
      requires Valid() && run != "" && id in db.tasks && db.tasks[id].state == Waiting
      requires CheckpointId(run, id) in db.approvals && db.approvals[CheckpointId(run, id)].state == Pending
      modifies db
      ensures Valid() && LegalSince(old(db.writes), db.writes)
      ensures OnlyTask(old(Now()), Now(), id)
      ensures var check := CheckpointId(run, id);
        && (failure.None? <==> !RunClosed(old(Now()), run) && !IdUsed(old(db.rows), ForApproval(check, TagOf(d))))
        && (failure.None? ==>
              && db.tasks[id] == old(db.tasks)[id].(state := if d.TimeOut? then TaskFailed else Waiting)
              && SameApprovalsBut(old(Now()), Now(), check) && db.approvals[check].state == StateAfter(d)
              && Progressed(old(Now()), Now(), run, id, [BodyOf(d, |RowsOf(old(db.rows), run)|)], {check}))
    {
      ghost var rows0 := db.rows;
      failure := service.ResolveApproval(id, d, run);
      if failure.None? {
        OneEvent(rows0, db.rows, db.rows[|rows0|], {CheckpointId(run, id)});
      } else {
        assert db.tasks == old(db.tasks)[id := old(db.tasks)[id]];
      }
    }

    /** After a grant the task is planned, run and completed; on an alternate path it goes back to planning. */
    method Dispatch(id: TaskId, d: Decision, run: RunId) returns (failure: Option<EaError>)
      requires Valid() && run != "" && id in db.tasks
      requires db.tasks[id].state == if d.TimeOut? then TaskFailed else Waiting
      modifies db
      ensures Valid() && LegalSince(old(db.writes), db.writes)
      ensures OnlyTask(old(Now()), Now(), id) && db.approvals == old(db.approvals)
      ensures !RunClosed(old(Now()), run) ==>
        && failure.None?
        && db.tasks[id] == old(db.tasks)[id].(state := FinalState(Some(d)))
        && Progressed(old(Now()), Now(), run, id, StateBodies(FollowUp(d)), {})
    {
      ghost var s0 := Now();
      failure := None;
      match d {
        case Grant =>
          failure := PlanAndStart(id, run);
          if failure.Some? { return; }
          ghost var s1 := Now();
          failure := Move(id, TaskCompleted, run);
          OnlyTaskTrans(s0, s1, Now(), id);
          if failure.None? {
            ProgressedTrans(s0, s1, Now(), run, id, [StateBody(Planned), StateBody(Running)],
              [StateBody(TaskCompleted)], {}, {});
            assert StateBodies(FollowUp(d)) == [StateBody(Planned), StateBody(Running)] + [StateBody(TaskCompleted)];
          }
        case DenyAlternatePath(_) =>
          failure := Move(id, Planned, run);
          assert StateBodies(FollowUp(d)) == [StateBody(Planned)];
        case _ =>
          assert s0.rows[|s0.rows|..] == [] && StateBodies(FollowUp(d)) == [];
      }
    }

    /** From the resolution on. */
    method Close(id: TaskId, d: Decision, run: RunId) returns (failure: Option<EaError>)
      requires Valid() && run != "" && id in db.tasks && db.tasks[id].state == Waiting
      requires CheckpointId(run, id) in db.approvals && db.approvals[CheckpointId(run, id)].state == Pending
      modifies db
      ensures Valid() && LegalSince(old(db.writes), db.writes)
      ensures OnlyTask(old(Now()), Now(), id)
      ensures failure.None? <==>
        !RunClosed(old(Now()), run) && !IdUsed(old(db.rows), ForApproval(CheckpointId(run, id), TagOf(d)))
      ensures failure.None? ==> Closed(old(Now()), Now(), run, id, d)
    {
      ghost var s0 := Now();
      failure := Resolve(id, d, run);
      if failure.Some? { return; }
      ghost var s1 := Now();
      failure := Dispatch(id, d, run);
      if failure.None? {
        ProgressedTrans(s0, s1, Now(), run, id, [BodyOf(d, |RowsOf(s0.rows, run)|)], StateBodies(FollowUp(d)),
          {CheckpointId(run, id)}, {});
        assert {CheckpointId(run, id)} + {} == {CheckpointId(run, id)};
      }
    }

    /** One queued task, from creation to the state its decision leads to. It goes
        through exactly when the run is not terminal and the ids of its checkpoint
        events are unused. */
    method ProcessOne(task: ScheduledTask, d: Option<Decision>, run: RunId) returns (r: Result<TaskId, EaError>)
      requires Valid() && run != ""
      modifies db
      ensures Valid() && LegalSince(old(db.writes), db.writes)
      ensures var id := NextId(old(db.tasks).Keys, SESSION);
        && OnlyTask(old(Now()), Now(), id)
        && (r.Ok? <==> !RunClosed(old(Now()), run) && CheckpointFree(old(db.rows), CheckpointId(run, id), d))
        && (r.Ok? ==> r.value == id && Processed(old(Now()), Now(), run, id, task, d))
    {
      ghost var s0 := Now();
      r := Open(task, run);
      if r.Err? { return; }
      if d.None? {
        OpenedOnly(s0, Now(), run, r.value, task);
        return;
      }
      ghost var s1 := Now();
      OpenedReady(s0, s1, run, r.value, task, d.value);
      var failure := Close(r.value, d.value, run);
      OnlyTaskTrans(s0, s1, Now(), r.value);
      if failure.Some? { return Err(failure.value); }
      OpenedClosed(s0, s1, Now(), run, r.value, task, d.value);
    }

    /** One pass of the loop, after `ids` have been processed. */
    method Advance(ghost s0: Snapshot, ghost ids: seq<TaskId>, ghost ds: seq<Option<Decision>>,
        queue: seq<ScheduledTask>, k: nat, d: Option<Decision>, run: RunId, soFar: ScheduleResult)
      returns (result: ScheduleResult, failure: Option<EaError>)
      requires Valid() && run != ""
      requires |ids| == k < |queue| && Handled(s0, Now(), run, queue, ids, ds) && Reports(soFar, ids, ds)
      modifies db
      ensures Valid() && LegalSince(old(db.writes), db.writes) && Untouched(s0, Now())
      ensures var id := NextId(s0.tasks.Keys + Elems(ids), SESSION);
        && (failure.None? <==> !RunClosed(s0, run) && CheckpointFree(s0.rows, CheckpointId(run, id), d))
        && (failure.None? ==>
              && Handled(s0, Now(), run, queue, ids + [id], ds + [d])
              && Reports(result, ids + [id], ds + [d]))
    {
      ghost var s1, id := Now(), NextId(s0.tasks.Keys + Elems(ids), SESSION);
      StillFree(s0, s1, run, ids, ds, id, d);
      var created := ProcessOne(queue[k], d, run);
      if created.Err? { return soFar, Some(created.error); }
      TasksStep(s0, s1, Now(), queue, ids, ds, id, d);
      ChecksStep(s0, s1, Now(), run, ids, ds, id, d);
      TracesStep(s0, s1, Now(), run, ids, ds, id, d);
      ReportsStep(soFar, ids, ds, id, d);
      result, failure := Tally(soFar, created.value, d), None;
    }

    /** The loop body: the next queued task, with the decision found for it. */
    method Pass(ghost s0: Snapshot, queue: seq<ScheduledTask>, decisions: map<string, Decision>, k: nat, run: RunId,
        soFar: ScheduleResult)
      returns (result: ScheduleResult, failure: Option<EaError>)
      requires Valid() && run != "" && k < |queue|
      requires Reached(s0, Now(), run, queue, DecisionsFor(queue, decisions), k)
      requires Reports(soFar, AllocIds(s0.tasks.Keys, k), DecisionsFor(queue, decisions)[..k])
      modifies db
      ensures Valid() && LegalSince(old(db.writes), db.writes) && Untouched(s0, Now())
      ensures failure.None? ==>
        && Reached(s0, Now(), run, queue, DecisionsFor(queue, decisions), k + 1)
        && Reports(result, AllocIds(s0.tasks.Keys, k + 1), DecisionsFor(queue, decisions)[..k + 1])
      ensures failure.Some? ==>
        RunClosed(s0, run) || !AllFree(s0, run, AllocIds(s0.tasks.Keys, |queue|), DecisionsFor(queue, decisions))
    {
      var d := DecisionFor(decisions, queue[k].title, k + 1);
      ghost var ds := DecisionsFor(queue, decisions);
      NextTask(s0, run, s0.tasks.Keys, ds, k);
      result, failure := Advance(s0, AllocIds(s0.tasks.Keys, k), ds[..k], queue, k, d, run, soFar);
    }

    /** The whole loop, on a resolved run id. */
    method Loop(queue: seq<ScheduledTask>, decisions: map<string, Decision>, run: RunId)
      returns (result: ScheduleResult, failure: Option<EaError>)
      requires Valid() && run != ""
      modifies db
      ensures Valid() && LegalSince(old(db.writes), db.writes) && Untouched(old(Now()), Now())
      ensures var keys, ds := old(db.tasks).Keys, DecisionsFor(queue, decisions);
        || (failure.None? && Reached(old(Now()), Now(), run, queue, ds, |queue|)
            && Reports(result, AllocIds(keys, |queue|), ds[..|queue|]))
        || (failure.Some? && queue != []
            && (RunClosed(old(Now()), run) || !AllFree(old(Now()), run, AllocIds(keys, |queue|), ds)))
    {
      ghost var s0, ds := Now(), DecisionsFor(queue, decisions);
      result, failure := ScheduleResult(0, 0, 0, 0, []), None;
      NothingAdded(s0, run, queue);
      for k := 0 to |queue|
        invariant Valid() && LegalSince(old(db.writes), db.writes) && failure.None?
        invariant Reached(s0, Now(), run, queue, ds, k)
        invariant Reports(result, AllocIds(s0.tasks.Keys, k), ds[..k])
      {
        ghost var before := db.writes;
        result, failure := Pass(s0, queue, decisions, k, run, result);
        LegalTrans(old(db.writes), before, db.writes);
        if failure.Some? { return; }
      }
    }

    /** `run`: one fresh task per entry, each taken to the state its decision leads
        to, by allowed transitions only. The loop completes exactly when the run is
        not terminal and the ids of all the checkpoint events are unused. */
    method Run(queue: seq<ScheduledTask>, decisions: map<string, Decision>, run: string)
      returns (r: Result<ScheduleResult, EaError>)
      requires Valid()
      modifies db
      ensures Valid() && LegalSince(old(db.writes), db.writes) && Untouched(old(Now()), Now())
      ensures
        var runId, ids, ds := RunOr(run, SESSION), AllocIds(old(db.tasks).Keys, |queue|),
          DecisionsFor(queue, decisions);
        && (r.Ok? <==> queue == [] || (!RunClosed(old(Now()), runId) && AllFree(old(Now()), runId, ids, ds)))
        && (r.Ok? ==> Handled(old(Now()), Now(), runId, queue, ids, ds) && Reports(r.value, ids, ds))
    {
      var result, failure := Loop(queue, decisions, RunOr(run, SESSION));
      ghost var ds := DecisionsFor(queue, decisions);
      assert ds[..|queue|] == ds;
      r := if failure.None? then Ok(result) else Err(failure.value);
    }
  }

  lemma StartedAsked(s0: Snapshot, s1: Snapshot, s2: Snapshot, run: RunId, id: TaskId,
      task: ScheduledTask)
    requires var check := CheckpointId(run, id);
      && Progressed(s0, s1, run, id, [Progress(Intake, Accepted), StateBody(Planned), StateBody(Running)], {})
      && s1.approvals == s0.approvals
      && Progressed(s1, s2, run, id, [ApprovalWaiting(check), Progress(Plan, ApprovalRequested)], {check})
      && SameApprovalsBut(s1, s2, check) && s2.approvals[check].state == Pending
      && s2.tasks[id] == Task(id, SESSION, task.title, task.objective, Waiting)
      && forall t :: t != TagWaiting ==>
         (IdUsed(s2.rows, ForApproval(check, t)) <==> IdUsed(s1.rows, ForApproval(check, t)))
    ensures Opened(s0, s2, run, id, task)
  {
    var check := CheckpointId(run, id);
    ProgressedTrans(s0, s1, s2, run, id,
      [Progress(Intake, Accepted), StateBody(Planned), StateBody(Running)],
        [ApprovalWaiting(check), Progress(Plan, ApprovalRequested)], {}, {check});
    assert {} + {check} == {check};
  }
}
