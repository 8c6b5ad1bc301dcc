/** The tables behind one database session, and the repository operations on them. */
module Database {
  import opened Prelude
  import opened RunEvents
  import opened EventLog

  type TaskId = string

  datatype TaskState = Draft | Planned | Running | Waiting | TaskCompleted | TaskFailed | TaskCancelled

  datatype Task = Task(id: TaskId, session: string, title: string, objective: string, state: TaskState)

  datatype ApprovalState = Pending | Granted | Denied | TimedOut

  datatype Approval = Approval(id: ApprovalId, state: ApprovalState, capability: Option<string>, summary: string)

  /** One save of a task: the state it had before, if any, and the state saved. */
  datatype TaskWrite = TaskWrite(id: TaskId, before: Option<TaskState>, after: TaskState)

  /** Fixed and fresh ids never meet: every uuid in the table was drawn before. */
  ghost predicate SerialsBelow(rows: seq<Event>, serial: nat) {
    forall i :: 0 <= i < |rows| && rows[i].id.Unique? ==> rows[i].id.serial < serial
  }

  lemma IdUsedSnoc(rows: seq<Event>, e: Event, id: EventId)
    ensures IdUsed(rows + [e], id) <==> IdUsed(rows, id) || e.id == id
  {
    if IdUsed(rows, id) {
      var i :| 0 <= i < |rows| && rows[i].id == id;
      assert (rows + [e])[i].id == id;
    }
    assert (rows + [e])[|rows|] == e;
  }

  /** Two appends to one run: the second is refused exactly when it has the first one's id. */
  lemma {:induction false} AppendTwice(t: Table, first: Event, second: Event)
    requires WellFormed(t.rows) && first.run == second.run && !TerminalRun(t, first.run)
    requires !IdUsed(t.rows, first.id) && !IdUsed(t.rows, second.id)
    ensures var n := |RowsOf(t.rows, first.run)|;
      var (t1, out1) := Append(t, first);
      var (t2, out2) := Append(t1, second);
      && out1 == Appended(first.(num := n + 1))
      && out2 == (if first.id == second.id then RefusedDuplicateId else Appended(second.(num := n + 2)))
      && RowsOf(t2.rows, first.run) ==
         RowsOf(t.rows, first.run) + [out1.event] + (if out2.Appended? then [out2.event] else [])
  {
    AppendEffect(t, first);
    var (t1, out1) := Append(t, first);
    IdUsedSnoc(t.rows, out1.event, second.id);
    AppendEffect(t1, second);
  }

  class Session {
    var runs: map<RunId, RunState>
    var rows: seq<Event>
    var approvals: map<ApprovalId, Approval>
    var tasks: map<TaskId, Task>
    /** The source of uuid4 values. */
    var serial: nat
    /** Every task save so far. */
    ghost var writes: seq<TaskWrite>

    function Log(): Table
      reads this
    {
      Table(runs, rows)
    }

    ghost predicate Valid()
      reads this
    {
      && WellFormed(rows) && SerialsBelow(rows, serial)
      && (forall id :: id in tasks ==> tasks[id].id == id)
      && (forall id :: id in approvals ==> approvals[id].id == id)
    }

    constructor ()
      ensures Valid()
      ensures runs == map[] && rows == [] && approvals == map[] && tasks == map[] && writes == []
    {
      runs, rows, approvals, tasks, serial, writes := map[], [], map[], map[], 0, [];
    }

    // ---- runs ----

    /** `runs.create`: the insert fails when the id exists. */
    method CreateRun(run: RunId) returns (ok: bool)
      modifies this`runs
      ensures ok <==> run !in old(runs)
      ensures runs == if ok then old(runs)[run := Created] else old(runs)
    {
      ok := run !in runs;
      if ok {
        runs := runs[run := Created];
      }
    }

    /** `update_state`: an update of a missing row changes nothing and is then reported. */
    method UpdateState(run: RunId, state: RunState) returns (ok: bool)
      modifies this`runs
      ensures ok <==> run in old(runs)
      ensures runs == if ok then old(runs)[run := state] else old(runs)
    {
      ok := run in runs;
      if ok {
        runs := runs[run := state];
      }
    }

    // ---- run events ----

    method FreshId() returns (id: EventId)
      requires Valid()
      modifies this`serial
      ensures Valid() && id == Unique(old(serial)) && serial == old(serial) + 1
      ensures !IdUsed(rows, id)
    {
      id := Unique(serial);
      serial := serial + 1;
    }

    method LatestSeq(run: RunId) returns (n: nat)
      requires Valid()
      ensures n == |RowsOf(rows, run)|
    {
      MaxSeqIsLength(rows, run);
      n := MaxSeq(rows, run);
    }

    method Append(event: Event) returns (out: AppendOutcome)
      requires Valid() && (event.id.Unique? ==> event.id.serial < serial)
      modifies this`rows
      ensures Valid()
      ensures (Log(), out) == EventLog.Append(old(Log()), event)
      ensures out.Appended? <==> !TerminalRun(old(Log()), event.run) && !IdUsed(old(rows), event.id)
      ensures out.RefusedTerminal? <==> event.run in runs && runs[event.run] in {Completed, Failed, Cancelled}
      ensures rows == old(rows) +
        if out.Appended? then [event.(num := |RowsOf(old(rows), event.run)| + 1)] else []
    {
      AppendEffect(Log(), event);
      var (table, outcome) := EventLog.Append(Log(), event);
      rows := table.rows;
      out := outcome;
    }

    // ---- tasks and approvals ----

    method SaveTask(task: Task)
      requires Valid()
      modifies this`tasks, this`writes
      ensures Valid() && tasks == old(tasks)[task.id := task]
      ensures writes == old(writes) +
        [TaskWrite(task.id, if task.id in old(tasks) then Some(old(tasks)[task.id].state) else None, task.state)]
    {
      writes := writes +
        [TaskWrite(task.id, if task.id in tasks then Some(tasks[task.id].state) else None, task.state)];
      tasks := tasks[task.id := task];
    }

    method SaveApproval(approval: Approval)
      requires Valid()
      modifies this`approvals
      ensures Valid() && approvals == old(approvals)[approval.id := approval]
    {
      approvals := approvals[approval.id := approval];
    }
  }
}
