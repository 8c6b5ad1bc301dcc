/** The EA task service: task ids, the transition table, and the approval checkpoint. */
module EaTasks {
  import opened Prelude
  import opened RunEvents
  import opened EventLog
  import opened Database
  import opened ApprovalEngine

  datatype EaError =
    | TaskNotFound | IllegalTransition | NotExecuting
    | CheckpointNotFound | CheckpointResolved | AppendRefused(outcome: AppendOutcome)

  // ---- ids ----

  /** The id that `create_task` tries at counter c; counter 0 is the plain id. */
  function Candidate(session: string, c: nat): TaskId {
    if c == 0 then "task-" + session else "task-" + session + "-" + Decimal(c)
  }

  lemma CandidateInjective(session: string, a: nat, b: nat)
    requires Candidate(session, a) == Candidate(session, b)
    ensures a == b
  {
    var base := "task-" + session;
    if a > 0 && b > 0 {
      assert Candidate(session, a)[|base| + 1..] == Decimal(a);
      assert Candidate(session, b)[|base| + 1..] == Decimal(b);
      DecimalInjective(a, b);
    }
  }

  /** If the first c candidates are taken, the repository holds at least c tasks. */
  lemma TakenCandidates(keys: set<TaskId>, session: string, c: nat)
    requires forall k :: 0 <= k < c ==> Candidate(session, k) in keys
    ensures c <= |keys|
  {
    var taken := seq(c, k requires 0 <= k < c => Candidate(session, k));
    forall i, j | 0 <= i < j < c
      ensures taken[i] != taken[j]
    {
      if taken[i] == taken[j] {
        CandidateInjective(session, i, j);
      }
    }
    Pigeonhole(taken, keys);
  }

  /** The least counter from c on whose candidate is free. */
  function LeastFree(keys: set<TaskId>, session: string, c: nat): (n: nat)
    requires forall k :: 0 <= k < c ==> Candidate(session, k) in keys
    ensures Candidate(session, n) !in keys
    decreases |keys| - c
  {
    if Candidate(session, c) !in keys then c
    else
      TakenCandidates(keys, session, c + 1);
      LeastFree(keys, session, c + 1)
  }

  function NextId(keys: set<TaskId>, session: string): (id: TaskId)
    ensures id !in keys
  {
    Candidate(session, LeastFree(keys, session, 0))
  }

  /** Every counter before the least free one is taken. */
  lemma {:induction false} LeastFreeIsLeast(keys: set<TaskId>, session: string, c: nat)
    requires forall k :: 0 <= k < c ==> Candidate(session, k) in keys
    ensures var n := LeastFree(keys, session, c);
      n >= c && forall k :: 0 <= k < n ==> Candidate(session, k) in keys
    decreases |keys| - c
  {
    if Candidate(session, c) in keys {
      TakenCandidates(keys, session, c + 1);
      LeastFreeIsLeast(keys, session, c + 1);
    }
  }

  /** Being free with every earlier candidate taken determines the counter. */
  lemma LeastFreeUnique(keys: set<TaskId>, session: string, c: nat)
    requires forall k :: 0 <= k < c ==> Candidate(session, k) in keys
    requires Candidate(session, c) !in keys
    ensures NextId(keys, session) == Candidate(session, c)
  {
    LeastFreeIsLeast(keys, session, 0);
    var n := LeastFree(keys, session, 0);
    assert n >= c;
    assert n <= c;
  }

  /** The id of a new task, written out: the plain one if it is free, and otherwise the one
      with the least counter from 1 on that is. */
  lemma NextIdWritten(keys: set<TaskId>, session: string) returns (n: nat)
    ensures "task-" + session !in keys <==> NextId(keys, session) == "task-" + session
    ensures "task-" + session in keys ==>
      && n >= 1 && NextId(keys, session) == "task-" + session + "-" + Decimal(n)
      && forall k :: 1 <= k < n ==> "task-" + session + "-" + Decimal(k) in keys
    ensures NextId(keys, session) !in keys
  {
    n := LeastFree(keys, session, 0);
    LeastFreeIsLeast(keys, session, 0);
    assert Candidate(session, 0) == "task-" + session;
    forall k | 1 <= k < n
      ensures "task-" + session + "-" + Decimal(k) in keys
    {
      assert Candidate(session, k) in keys;
    }
    if n > 0 {
      assert Candidate(session, 0) in keys;
    }
  }

  /** The `while True` search: it terminates on every repository and stops at the least free counter. */
  method FreeTaskId(tasks: map<TaskId, Task>, session: string) returns (id: TaskId)
    ensures id == NextId(tasks.Keys, session)
    ensures id !in tasks
  {
    id := "task-" + session;
    assert id == Candidate(session, 0);
    if id !in tasks {
      LeastFreeUnique(tasks.Keys, session, 0);
      return;
    }
    var counter := 1;
    while true
      invariant counter >= 1
      invariant forall k :: 0 <= k < counter ==> Candidate(session, k) in tasks
      decreases |tasks.Keys| + 1 - counter
    {
      TakenCandidates(tasks.Keys, session, counter);
      var candidate := "task-" + session + "-" + Decimal(counter);
      if candidate !in tasks {
        LeastFreeUnique(tasks.Keys, session, counter);
        return candidate;
      }
      counter := counter + 1;
    }
  }

  /** An empty or absent run id falls back to one per session. */
  function RunOr(run: string, session: string): RunId {
    if run == "" then "ea-" + session else run
  }

  function SummaryOr(summary: string, title: string): string {
    if summary == "" then "Approval checkpoint for " + title else summary
  }

  function CheckpointId(run: RunId, task: TaskId): ApprovalId {
    ApprovalId(run, "ea_checkpoint-" + task)
  }

  /** The names that the service falls back to or composes. */
  lemma NamesWritten(session: string, run: RunId, task: TaskId, title: string)
    ensures RunOr("", session) == "ea-" + session && (run != "" ==> RunOr(run, session) == run)
    ensures SummaryOr("", title) == "Approval checkpoint for " + title && (run != "" ==> SummaryOr(run, title) == run)
    ensures CheckpointId(run, task) == ApprovalId(run, "ea_checkpoint-" + task)
  {
  }

  lemma CheckpointInjective(run: RunId, a: TaskId, b: TaskId)
    requires CheckpointId(run, a) == CheckpointId(run, b)
    ensures a == b
  {
    var prefix := "ea_checkpoint-";
    assert (prefix + a)[|prefix|..] == a && (prefix + b)[|prefix|..] == b;
  }

  // ---- states ----

  /** The allowed-transition table. */
  predicate Allowed(from: TaskState, to: TaskState) {
    match from
    case Draft => to.Planned?
    case Planned => to.Running? || to.TaskCancelled?
    case Running => to.Waiting? || to.TaskFailed? || to.TaskCompleted?
    case Waiting => to.Planned? || to.TaskCancelled? || to.TaskFailed?
    case _ => false
  }

  /** The transitions, written out. */
  lemma AllowedWritten(from: TaskState, to: TaskState)
    ensures Allowed(from, to) <==> (from, to) in {
      (Draft, Planned),
      (Planned, Running), (Planned, TaskCancelled),
      (Running, Waiting), (Running, TaskFailed), (Running, TaskCompleted),
      (Waiting, Planned), (Waiting, TaskCancelled), (Waiting, TaskFailed)}
  {
  }

  /** `_catalog_pair_for_state`. */
  function StateBody(state: TaskState): (b: Body)
    ensures b.Progress? && Cataloged(b.phase, b.milestone)
  {
    match state
    case Planned => Progress(Plan, Drafted)
    case Running => Progress(Plan, Ready)
    case Waiting => Progress(Execute, AwaitingApproval)
    case TaskCompleted => Progress(Execute, ArtifactEmitted)
    case TaskFailed => Progress(Review, FindingsRecorded)
    case TaskCancelled => Progress(Review, FindingsRecorded)
    case Draft => Progress(Intake, Accepted)
  }

  function DecisionName(d: Decision): string {
    match d
    case Grant => "granted"
    case DenyAbandon(_) => "denied_abandon"
    case DenyAlternatePath(_) => "denied_alternate_path"
    case TimeOut(_) => "timeout"
  }

  /** The milestones that report the states, written out. */
  lemma MilestonesWritten(state: TaskState)
    ensures (state, StateBody(state)) in {
      (Draft, Progress(Intake, Accepted)), (Planned, Progress(Plan, Drafted)), (Running, Progress(Plan, Ready)),
      (Waiting, Progress(Execute, AwaitingApproval)), (TaskCompleted, Progress(Execute, ArtifactEmitted)),
      (TaskFailed, Progress(Review, FindingsRecorded)), (TaskCancelled, Progress(Review, FindingsRecorded))}
  {
  }

  const TERMINAL_TRANSITIONS: map<string, TaskState> := map["denied" := TaskCancelled, "timeout" := TaskFailed]

  /** The state that a resolution gives the task: a lookup by decision name. */
  function PostState(d: Decision, state: TaskState): TaskState {
    if DecisionName(d) in TERMINAL_TRANSITIONS then TERMINAL_TRANSITIONS[DecisionName(d)] else state
  }

  /** No decision is named "denied", so of the two entries only the timeout is ever
      applied: an abandoned task keeps its state. */
  lemma OnlyTimeoutMovesTask(d: Decision, state: TaskState)
    ensures PostState(d, state) == if d.TimeOut? then TaskFailed else state
  {
    assert |DecisionName(Grant)| == 7 && |"denied"| == 6 && |"timeout"| == 7 && "granted"[0] != "timeout"[0];
    assert |DecisionName(DenyAbandon(""))| == 14 && |DecisionName(DenyAlternatePath(""))| == 21;
  }

  lemma ConcatTwo(s: seq<Event>, a: Event, b: Event)
    ensures s + [a] + [b] == s + [a, b]
  {
  }

  class EATaskService {
    const db: Session
    const engine: ApprovalEngine

    constructor (db: Session, engine: ApprovalEngine)
      requires engine.db == db
      ensures this.db == db && this.engine == engine
    {
      this.db := db;
      this.engine := engine;
    }

    /** `_emit_progress`: with a fresh id, only a terminal run refuses. */
    method EmitProgress(run: RunId, body: Body) returns (failure: Option<EaError>)
      requires db.Valid() && body.Progress? && Cataloged(body.phase, body.milestone)
      modifies db`rows, db`serial
      ensures db.Valid()
      ensures failure == if TerminalRun(old(db.Log()), run) then Some(AppendRefused(RefusedTerminal)) else None
      ensures db.rows ==
        old(db.rows) +
        if failure.None? then [Event(Unique(old(db.serial)), run, |RowsOf(old(db.rows), run)| + 1, body)] else []
    {
      var id := db.FreshId();
      var latest := db.LatestSeq(run);
      var out := db.Append(Event(id, run, latest + 1, body));
      failure := if out.Appended? then None else Some(AppendRefused(out));
    }

    /** The new task takes the least free id, so no stored task is overwritten. */
    method CreateTask(session: string, title: string, objective: string, run: string)
      returns (r: Result<TaskId, EaError>)
      requires db.Valid()
      modifies db`rows, db`serial, db`tasks, db`writes
      ensures db.Valid()
      ensures var id := NextId(old(db.tasks).Keys, session);
        && id !in old(db.tasks)
        && db.tasks == old(db.tasks)[id := Task(id, session, title, objective, Draft)]
        && db.writes == old(db.writes) + [TaskWrite(id, None, Draft)]
        && (r.Ok? ==> r.value == id)
      ensures r.Ok? <==> !TerminalRun(old(db.Log()), RunOr(run, session))
      ensures var runId := RunOr(run, session);
        db.rows == old(db.rows) +
        if r.Err? then []
        else [Event(Unique(old(db.serial)), runId, |RowsOf(old(db.rows), runId)| + 1, Progress(Intake, Accepted))]
    {
      var id := FreeTaskId(db.tasks, session);
      db.SaveTask(Task(id, session, title, objective, Draft));
      var failure := EmitProgress(RunOr(run, session), Progress(Intake, Accepted));
      r := if failure.None? then Ok(id) else Err(failure.value);
    }

    method TransitionTask(id: TaskId, state: TaskState, run: string) returns (failure: Option<EaError>)
      requires db.Valid()
      modifies db`rows, db`serial, db`tasks, db`writes
      ensures db.Valid()
      ensures failure == Some(TaskNotFound) <==> id !in old(db.tasks)
      ensures failure == Some(IllegalTransition) <==> id in old(db.tasks) && !Allowed(old(db.tasks)[id].state, state)
      ensures id in old(db.tasks) && Allowed(old(db.tasks)[id].state, state) ==>
        var task := old(db.tasks)[id];
        var runId := RunOr(run, task.session);
        && (failure.None? <==> !TerminalRun(old(db.Log()), runId))
        && db.tasks == old(db.tasks)[id := task.(state := state)]
        && db.writes == old(db.writes) + [TaskWrite(id, Some(task.state), state)]
        && db.rows ==
           old(db.rows) +
           if failure.Some? then []
           else [Event(Unique(old(db.serial)), runId, |RowsOf(old(db.rows), runId)| + 1, StateBody(state))]
      ensures id !in old(db.tasks) || !Allowed(old(db.tasks)[id].state, state) ==>
        db.tasks == old(db.tasks) && db.writes == old(db.writes) && db.rows == old(db.rows)
    {
      if id !in db.tasks {
        return Some(TaskNotFound);
      }
      var task := db.tasks[id];
      if !Allowed(task.state, state) {
        return Some(IllegalTransition);
      }
      db.SaveTask(task.(state := state));
      failure := EmitProgress(RunOr(run, task.session), StateBody(state));
    }

    /** `request_approval`: the task waits, the checkpoint is pending, and two events
        record it; refused by a terminal run or a checkpoint whose waiting event exists. */
    method RequestApproval(id: TaskId, run: string, summary: string) returns (failure: Option<EaError>)
      requires db.Valid() && engine.db == db
      modifies db`rows, db`serial, db`tasks, db`writes, db`approvals
      ensures db.Valid()
      ensures failure == Some(TaskNotFound) <==> id !in old(db.tasks)
      ensures failure == Some(NotExecuting) <==> id in old(db.tasks) && !old(db.tasks)[id].state.Running?
      ensures id in old(db.tasks) && old(db.tasks)[id].state.Running? ==>
        var task := old(db.tasks)[id];
        var runId := RunOr(run, task.session);
        var check, n := CheckpointId(runId, id), |RowsOf(old(db.rows), runId)|;
        && (failure.None? <==>
           !TerminalRun(old(db.Log()), runId) && !IdUsed(old(db.rows), ForApproval(check, TagWaiting)))
        && db.tasks == old(db.tasks)[id := task.(state := Waiting)]
        && db.writes == old(db.writes) + [TaskWrite(id, Some(task.state), Waiting)]
        && db.approvals == old(db.approvals)[check := Approval(check, Pending, None, SummaryOr(summary, task.title))]
        && (failure.None? ==>
              db.rows == old(db.rows) + [
                Event(ForApproval(check, TagWaiting), runId, n + 1, ApprovalWaiting(check)),
                Event(Unique(old(db.serial)), runId, n + 2, Progress(Plan, ApprovalRequested))])
      ensures failure.Some? ==> db.rows == old(db.rows)
      ensures failure in {Some(TaskNotFound), Some(NotExecuting)} ==>
        db.tasks == old(db.tasks) && db.writes == old(db.writes) && db.approvals == old(db.approvals)
    {
      if id !in db.tasks {
        return Some(TaskNotFound);
      }
      var task := db.tasks[id];
      if task.state != Running {
        return Some(NotExecuting);
      }
      db.SaveTask(task.(state := Waiting));
      var runId := RunOr(run, task.session);
      failure := OpenCheckpoint(runId, id, SummaryOr(summary, task.title));
    }

    /** Delegate to the engine, then annotate the run's log. */
    method OpenCheckpoint(run: RunId, id: TaskId, text: string) returns (failure: Option<EaError>)
      requires db.Valid() && engine.db == db
      modifies db`rows, db`serial, db`approvals
      ensures db.Valid()
      ensures var check, n := CheckpointId(run, id), |RowsOf(old(db.rows), run)|;
        && (failure.None? <==>
           !TerminalRun(old(db.Log()), run) && !IdUsed(old(db.rows), ForApproval(check, TagWaiting)))
        && db.approvals == old(db.approvals)[check := Approval(check, Pending, None, text)]
        && (failure.None? ==>
              db.rows == old(db.rows) + [
                Event(ForApproval(check, TagWaiting), run, n + 1, ApprovalWaiting(check)),
                Event(Unique(old(db.serial)), run, n + 2, Progress(Plan, ApprovalRequested))])
      ensures failure.Some? ==> failure.value.AppendRefused? && db.rows == old(db.rows)
    {
      ghost var waiting := WaitingEvent(CheckpointId(run, id), |RowsOf(db.rows, run)|);
      RowsOfSnoc(db.rows, waiting, run);
      var requested := engine.RequestApproval(run, "ea_checkpoint-" + id, text, None);
      if requested.RequestRefused? {
        return Some(AppendRefused(requested.outcome));
      }
      failure := EmitProgress(run, Progress(Plan, ApprovalRequested));
      if failure.None? {
        ConcatTwo(old(db.rows), waiting, db.rows[|old(db.rows)| + 1]);
      }
    }

    /** `resolve_approval`: only a pending checkpoint; of the task only a timeout changes the state. */
    method ResolveApproval(id: TaskId, d: Decision, run: string) returns (failure: Option<EaError>)
      requires db.Valid() && engine.db == db
      modifies db`rows, db`tasks, db`writes, db`approvals
      ensures db.Valid()
      ensures failure == Some(TaskNotFound) <==> id !in old(db.tasks)
      ensures failure.Some? ==> db.tasks == old(db.tasks) && db.writes == old(db.writes) && db.rows == old(db.rows)
      ensures failure.Some? && !failure.value.AppendRefused? ==> db.approvals == old(db.approvals)
      ensures id in old(db.tasks) ==>
        var task := old(db.tasks)[id];
        var runId := RunOr(run, task.session);
        var check, n := CheckpointId(runId, id), |RowsOf(old(db.rows), runId)|;
        && (failure == Some(CheckpointNotFound) <==> check !in old(db.approvals))
        && (failure == Some(CheckpointResolved) <==>
           check in old(db.approvals) && !old(db.approvals)[check].state.Pending?)
        && (check in old(db.approvals) && old(db.approvals)[check].state.Pending? ==>
              db.approvals == old(db.approvals)[check := old(db.approvals)[check].(state := StateAfter(d))])
        && (failure.None? <==>
              && check in old(db.approvals) && old(db.approvals)[check].state.Pending?
              && !TerminalRun(old(db.Log()), runId) && !IdUsed(old(db.rows), ForApproval(check, TagOf(d))))
        && (failure.None? ==>
              && db.tasks == (if d.TimeOut? then old(db.tasks)[id := task.(state := TaskFailed)] else old(db.tasks))
              && db.writes == old(db.writes) +
                   (if d.TimeOut? && task.state != TaskFailed then [TaskWrite(id, Some(task.state), TaskFailed)]
                    else [])
              && db.rows == old(db.rows) + [Event(ForApproval(check, TagOf(d)), runId, n + 1, BodyOf(d, n))])
    {
      if id !in db.tasks {
        return Some(TaskNotFound);
      }
      var task := db.tasks[id];
      var check := CheckpointId(RunOr(run, task.session), id);
      if check !in db.approvals {
        return Some(CheckpointNotFound);
      }
      if db.approvals[check].state != Pending {
        return Some(CheckpointResolved);
      }
      var resolved := engine.ResolveApproval(check, d);
      if resolved.ResolveRefused? {
        return Some(AppendRefused(resolved.outcome));
      }
      OnlyTimeoutMovesTask(d, task.state);
      var post := PostState(d, task.state);
      if post != task.state {
        db.SaveTask(task.(state := post));
      }
      failure := None;
    }
  }
}
