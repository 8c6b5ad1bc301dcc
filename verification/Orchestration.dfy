/** `OrchestrationService.run`: five phases that write a fixed trace and move the run's state. */
module Orchestration {
  import opened Prelude
  import opened RunEvents
  import opened EventLog
  import opened Database
  import LogTheorems

  /** One event to write: the verb that fixes its id, and its body. */
  datatype Entry = Entry(verb: RunVerb, body: Body)

  function Step(phase: Phase, milestone: Milestone): Entry {
    Entry(VerbMilestone(phase, milestone), Progress(phase, milestone))
  }

  const USAGE_SUMMARY := Entry(VerbUsageSummary, ArtifactCreated("usage-summary", 0))
  const COMPLETED := Entry(VerbCompleted, RunCompleted)

  /** The whole trace of a run, from intake to handoff. */
  const TRACE: seq<Entry> := [
    Step(Intake, Received), Step(Intake, Accepted),
    Step(Plan, Drafted), Step(Plan, ApprovalRequested), Step(Plan, Ready),
    Step(Execute, ToolInvoked), Step(Execute, ArtifactEmitted), Step(Execute, AwaitingApproval),
    Step(Review, FindingsRecorded),
    Step(Handoff, EnvelopeEmitted), USAGE_SUMMARY, COMPLETED]

  lemma TraceIdsDiffer(i: nat, j: nat)
    requires i < j < |TRACE|
    ensures TRACE[i].verb != TRACE[j].verb
  {
  }

  /** The first k entries of the trace as stored on a run that had n events. */
  function Stamped(run: RunId, n: nat, k: nat): seq<Event>
    requires k <= |TRACE|
  {
    seq(k, i requires 0 <= i < k => Event(ForRun(run, TRACE[i].verb), run, n + i + 1, TRACE[i].body))
  }

  ghost predicate FreeAt(rows: seq<Event>, run: RunId, k: nat)
    requires k < |TRACE|
  {
    !IdUsed(rows, ForRun(run, TRACE[k].verb))
  }

  /** None of the ids of the entries i..j is used. */
  ghost predicate Free(rows: seq<Event>, run: RunId, i: nat, j: nat)
    requires i <= j <= |TRACE|
  {
    forall k :: i <= k < j ==> FreeAt(rows, run, k)
  }

  datatype OrchestrationError = NotCreated | RunMissing | ProgressAfterTerminal | Refused(outcome: AppendOutcome)

  lemma {:induction false} StampedLog(rows: seq<Event>, run: RunId, n: nat, k: nat)
    requires k <= |TRACE|
    ensures RowsOf(rows + Stamped(run, n, k), run) == RowsOf(rows, run) + Stamped(run, n, k)
  {
    RowsOfAdded(rows, Stamped(run, n, k), run, run);
  }

  lemma FreeSplit(rows: seq<Event>, run: RunId, i: nat, j: nat, k: nat)
    requires i <= j <= k <= |TRACE|
    ensures Free(rows, run, i, k) <==> Free(rows, run, i, j) && Free(rows, run, j, k)
  {
  }

  lemma FreeThree(rows: seq<Event>, run: RunId, i: nat)
    requires i + 3 <= |TRACE|
    ensures Free(rows, run, i, i + 3) <==>
      FreeAt(rows, run, i) && FreeAt(rows, run, i + 1) && FreeAt(rows, run, i + 2)
  {
  }

  lemma StampedSnoc(run: RunId, n: nat, k: nat)
    requires k < |TRACE|
    ensures Stamped(run, n, k + 1) ==
      Stamped(run, n, k) + [Event(ForRun(run, TRACE[k].verb), run, n + k + 1, TRACE[k].body)]
  {
  }

  /** The next append extends the stored trace by one entry, if its id is unused. */
  lemma {:induction false} NextEntry(before: seq<Event>, run: RunId, k: nat, event: Event)
    requires k < |TRACE|
    requires var n := |RowsOf(before, run)|;
      event == Event(ForRun(run, TRACE[k].verb), run, |RowsOf(before + Stamped(run, n, k), run)| + 1, TRACE[k].body)
    ensures var n := |RowsOf(before, run)|;
      && before + Stamped(run, n, k) + [event] == before + Stamped(run, n, k + 1)
      && (FreeAt(before, run, k) <==> !IdUsed(before + Stamped(run, n, k), event.id))
  {
    var n := |RowsOf(before, run)|;
    StampedLog(before, run, n, k);
    StampedLeavesFree(before, run, n, k);
    StampedSnoc(run, n, k);
  }

  /** The first k entries use up no id of a later one. */
  lemma StampedLeavesFree(rows: seq<Event>, run: RunId, n: nat, k: nat)
    requires k < |TRACE|
    ensures IdUsed(rows + Stamped(run, n, k), ForRun(run, TRACE[k].verb)) <==> IdUsed(rows, ForRun(run, TRACE[k].verb))
  {
    var added, id := Stamped(run, n, k), ForRun(run, TRACE[k].verb);
    if i :| 0 <= i < |rows| && rows[i].id == id {
      assert (rows + added)[i].id == id;
    }
    if i :| 0 <= i < |rows + added| && (rows + added)[i].id == id {
      if i >= |rows| {
        TraceIdsDiffer(i - |rows|, k);
      }
      assert rows[i].id == id;
    }
  }

  /** Row i of a log: its id, run and seq, and its body. */
  ghost predicate RowIs(log: seq<Event>, i: nat, run: RunId, verb: RunVerb, body: Body) {
    i < |log| && log[i] == Event(ForRun(run, verb), run, i + 1, body)
  }

  ghost predicate MilestoneAt(log: seq<Event>, i: nat, run: RunId, phase: Phase, milestone: Milestone) {
    RowIs(log, i, run, VerbMilestone(phase, milestone), Progress(phase, milestone))
  }

  ghost predicate PlanningLogged(log: seq<Event>, n: nat, run: RunId) {
    && MilestoneAt(log, n, run, Intake, Received) && MilestoneAt(log, n + 1, run, Intake, Accepted)
    && MilestoneAt(log, n + 2, run, Plan, Drafted) && MilestoneAt(log, n + 3, run, Plan, ApprovalRequested)
    && MilestoneAt(log, n + 4, run, Plan, Ready)
  }

  ghost predicate WorkLogged(log: seq<Event>, n: nat, run: RunId) {
    && MilestoneAt(log, n, run, Execute, ToolInvoked) && MilestoneAt(log, n + 1, run, Execute, ArtifactEmitted)
    && MilestoneAt(log, n + 2, run, Execute, AwaitingApproval)
    && MilestoneAt(log, n + 3, run, Review, FindingsRecorded)
    && MilestoneAt(log, n + 4, run, Handoff, EnvelopeEmitted)
  }

  /** The milestones of the five phases in order, then the usage summary, then run.completed. */
  ghost predicate RunLogged(log: seq<Event>, n: nat, run: RunId) {
    && |log| == n + 12
    && PlanningLogged(log, n, run) && WorkLogged(log, n + 5, run)
    && RowIs(log, n + 10, run, VerbUsageSummary, ArtifactCreated("usage-summary", 0))
    && RowIs(log, n + 11, run, VerbCompleted, RunCompleted)
  }

  lemma StampedRow(before: seq<Event>, run: RunId, i: nat)
    requires i < |TRACE|
    ensures RowIs(before + Stamped(run, |before|, |TRACE|), |before| + i, run, TRACE[i].verb, TRACE[i].body)
  {
    assert (before + Stamped(run, |before|, |TRACE|))[|before| + i] == Stamped(run, |before|, |TRACE|)[i];
  }

  lemma StampedPlanning(before: seq<Event>, run: RunId)
    ensures PlanningLogged(before + Stamped(run, |before|, |TRACE|), |before|, run)
  {
    forall i: nat | i < 5
      ensures RowIs(before + Stamped(run, |before|, |TRACE|), |before| + i, run, TRACE[i].verb, TRACE[i].body)
    {
      StampedRow(before, run, i);
    }
  }

  lemma StampedWork(before: seq<Event>, run: RunId)
    ensures WorkLogged(before + Stamped(run, |before|, |TRACE|), |before| + 5, run)
  {
    forall i: nat | 5 <= i < 10
      ensures RowIs(before + Stamped(run, |before|, |TRACE|), |before| + i, run, TRACE[i].verb, TRACE[i].body)
    {
      StampedRow(before, run, i);
    }
  }

  lemma StampedIsRunLogged(before: seq<Event>, run: RunId)
    ensures RunLogged(before + Stamped(run, |before|, |TRACE|), |before|, run)
  {
    StampedPlanning(before, run);
    StampedWork(before, run);
    StampedRow(before, run, 10);
    StampedRow(before, run, 11);
  }

  class OrchestrationService {
    const db: Session
    /** The rows at the start of the run, and how many entries of the trace follow them. */
    ghost var before: seq<Event>
    ghost var written: nat

    constructor (db: Session)
      ensures this.db == db
    {
      this.db := db;
      before, written := [], 0;
    }

    /** The table holds the written entries of the run's trace after the rows it had before. */
    ghost predicate Valid(run: RunId)
      reads this, db
    {
      && written <= |TRACE| && db.Valid()
      && db.rows == before + Stamped(run, |RowsOf(before, run)|, written)
    }

    /** Read the latest seq, then append: accepted exactly when the stored state is not
        terminal and the id is unused. */
    method Emit(run: RunId, e: Entry) returns (failure: Option<OrchestrationError>)
      requires Valid(run) && written < |TRACE| && e == TRACE[written]
      modifies db`rows, this`written
      ensures Valid(run)
      ensures failure.None? <==> !TerminalRun(db.Log(), run) && FreeAt(before, run, old(written))
      ensures failure.None? ==> written == old(written) + 1
      ensures failure.Some? ==> failure.value != NotCreated && written == old(written) && db.rows == old(db.rows)
    {
      var last := db.LatestSeq(run);
      var event := Event(ForRun(run, e.verb), run, last + 1, e.body);
      NextEntry(before, run, written, event);
      var out := db.Append(event);
      if !out.Appended? {
        return Some(Refused(out));
      }
      written := written + 1;
      failure := None;
    }

    /** `_emit_progress`, with its guard on the run record in hand. */
    method EmitProgress(run: RunId, state: RunState, phase: Phase, milestone: Milestone)
        returns (failure: Option<OrchestrationError>)
      requires Cataloged(phase, milestone)
      requires Valid(run) && written < |TRACE| && Step(phase, milestone) == TRACE[written]
      modifies db`rows, this`written
      ensures Valid(run)
      ensures failure.None? <==> !Terminal(state) && !TerminalRun(db.Log(), run) && FreeAt(before, run, old(written))
      ensures failure.None? ==> written == old(written) + 1
      ensures failure.Some? ==> failure.value != NotCreated && written == old(written) && db.rows == old(db.rows)
    {
      if Terminal(state) {
        return Some(ProgressAfterTerminal);
      }
      failure := Emit(run, Step(phase, milestone));
    }

    method UpdateState(run: RunId, state: RunState) returns (r: Result<RunState, OrchestrationError>)
      modifies db`runs
      ensures r == if run in old(db.runs) then Ok(state) else Err(RunMissing)
      ensures db.runs == if run in old(db.runs) then old(db.runs)[run := state] else old(db.runs)
    {
      var ok := db.UpdateState(run, state);
      r := if ok then Ok(state) else Err(RunMissing);
    }

    /** What a phase that writes the trace up to entry j and then moves the run to `next` promises. */
    twostate predicate PhaseDone(run: RunId, j: nat, next: RunState, new r: Result<RunState, OrchestrationError>)
      requires old(written) <= j <= |TRACE|
      reads this, db
    {
      && Valid(run)
      && (r.Ok? <==> run in old(db.runs) && !Terminal(old(db.runs)[run]) && Free(before, run, old(written), j))
      && (r.Ok? ==> r.value == next && written == j && db.runs == old(db.runs)[run := next])
      && (r.Err? ==> r.error != NotCreated && old(db.rows) <= db.rows)
    }

    method DoIntake(run: RunId, state: RunState) returns (r: Result<RunState, OrchestrationError>)
      requires !Terminal(state) && Valid(run) && written == 0
      modifies db, this`written
      ensures PhaseDone(run, 2, Planning, r)
    {
      var failure := EmitProgress(run, state, Intake, Received);
      if failure.Some? { return Err(failure.value); }
      failure := EmitProgress(run, state, Intake, Accepted);
      if failure.Some? { return Err(failure.value); }
      r := UpdateState(run, Planning);
    }

    method DoPlan(run: RunId, state: RunState) returns (r: Result<RunState, OrchestrationError>)
      requires !Terminal(state) && Valid(run) && written == 2
      modifies db, this`written
      ensures PhaseDone(run, 5, Planning, r)
    {
      FreeThree(before, run, 2);
      var failure := EmitProgress(run, state, Plan, Drafted);
      if failure.Some? { return Err(failure.value); }
      failure := EmitProgress(run, state, Plan, ApprovalRequested);
      if failure.Some? { return Err(failure.value); }
      failure := EmitProgress(run, state, Plan, Ready);
      if failure.Some? { return Err(failure.value); }
      r := UpdateState(run, Planning);
    }

    method DoExecute(run: RunId, state: RunState) returns (r: Result<RunState, OrchestrationError>)
      requires !Terminal(state) && Valid(run) && written == 5
      modifies db, this`written
      ensures PhaseDone(run, 8, Executing, r)
    {
      FreeThree(before, run, 5);
      var failure := EmitProgress(run, state, Execute, ToolInvoked);
      if failure.Some? { return Err(failure.value); }
      failure := EmitProgress(run, state, Execute, ArtifactEmitted);
      if failure.Some? { return Err(failure.value); }
      failure := EmitProgress(run, state, Execute, AwaitingApproval);
      if failure.Some? { return Err(failure.value); }
      r := UpdateState(run, Executing);
    }

    method DoReview(run: RunId, state: RunState) returns (r: Result<RunState, OrchestrationError>)
      requires !Terminal(state) && Valid(run) && written == 8
      modifies db, this`written
      ensures PhaseDone(run, 9, Planning, r)
    {
      var failure := EmitProgress(run, state, Review, FindingsRecorded);
      if failure.Some? { return Err(failure.value); }
      r := UpdateState(run, Planning);
    }

    method DoHandoff(run: RunId, state: RunState) returns (r: Result<RunState, OrchestrationError>)
      requires !Terminal(state) && Valid(run) && written == 9
      modifies db, this`written
      ensures PhaseDone(run, 12, Completed, r)
    {
      FreeThree(before, run, 9);
      var failure := EmitProgress(run, state, Handoff, EnvelopeEmitted);
      if failure.Some? { return Err(failure.value); }
      failure := Emit(run, USAGE_SUMMARY);
      if failure.Some? { return Err(failure.value); }
      failure := Emit(run, COMPLETED);
      if failure.Some? { return Err(failure.value); }
      r := UpdateState(run, Completed);
    }

    method RunToExecute(run: RunId, state: RunState) returns (r: Result<RunState, OrchestrationError>)
      requires !Terminal(state) && Valid(run) && written == 0
      modifies db, this`written
      ensures PhaseDone(run, 8, Executing, r)
    {
      FreeSplit(before, run, 0, 2, 8);
      FreeSplit(before, run, 2, 5, 8);
      r := DoIntake(run, state);
      if r.Err? { return; }
      r := DoPlan(run, r.value);
      if r.Err? { return; }
      r := DoExecute(run, r.value);
    }

    /** The five phases in order. */
    method RunPhases(run: RunId, state: RunState) returns (r: Result<RunState, OrchestrationError>)
      requires !Terminal(state) && Valid(run) && written == 0
      modifies db, this`written
      ensures PhaseDone(run, |TRACE|, Completed, r)
    {
      FreeSplit(before, run, 0, 8, 12);
      FreeSplit(before, run, 8, 9, 12);
      r := RunToExecute(run, state);
      if r.Err? { return; }
      r := DoReview(run, r.value);
      if r.Err? { return; }
      r := DoHandoff(run, r.value);
    }

    /** Executed alone on a run record in state `created`, orchestration succeeds exactly
        when the stored run is not terminal and the twelve event ids are unused. Then it
        appends exactly the twelve-event trace and ends in `completed`, so that from there
        no interleaving, whatever calls were pending, changes the run's log without an
        update of its state. */
    method Run(run: RunId, state: RunState) returns (r: Result<RunState, OrchestrationError>)
      requires db.Valid()
      modifies db, this
      ensures db.Valid()
      ensures r == Err(NotCreated) <==> state != Created
      ensures r.Ok? <==>
        && state == Created && run in old(db.runs) && !Terminal(old(db.runs)[run])
        && Free(old(db.rows), run, 0, |TRACE|)
      ensures r.Ok? ==>
        var n := |RowsOf(old(db.rows), run)|;
        && r.value == Completed
        && db.rows == old(db.rows) + Stamped(run, n, |TRACE|)
        && RowsOf(db.rows, run) == RowsOf(old(db.rows), run) + Stamped(run, n, |TRACE|)
        && RunLogged(RowsOf(db.rows, run), n, run)
        && db.runs == old(db.runs)[run := Completed]
        && LogTheorems.FrozenTable(db.Log(), run)
      ensures old(db.rows) <= db.rows
    {
      if state != Created {
        return Err(NotCreated);
      }
      before, written := db.rows, 0;
      assert before + Stamped(run, |RowsOf(before, run)|, 0) == before;
      r := RunPhases(run, state);
      if r.Ok? {
        StampedLog(before, run, |RowsOf(before, run)|, |TRACE|);
        StampedIsRunLogged(RowsOf(before, run), run);
        LogTheorems.FrozenTableExactlyWhenTerminal(db.Log(), run);
      }
    }
  }
}
