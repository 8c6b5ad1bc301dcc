/** What a scheduler run promises: the ids it takes, the events it writes, the states it leaves. */
module SchedulerSpec {
  import opened Prelude
  import opened RunEvents
  import opened EventLog
  import opened Database
  import opened ApprovalEngine
  import opened EaTasks

  datatype ScheduledTask = ScheduledTask(title: string, objective: string)

  const SESSION := "scheduler-sess"

  /** Look up by title first, then by the 1-based index. */
  function DecisionFor(decisions: map<string, Decision>, title: string, idx: nat): Option<Decision> {
    if title in decisions then Some(decisions[title])
    else if Decimal(idx) in decisions then Some(decisions[Decimal(idx)])
    else None
  }

  function DecisionsFor(tasks: seq<ScheduledTask>, decisions: map<string, Decision>): seq<Option<Decision>> {
    seq(|tasks|, i requires 0 <= i < |tasks| => DecisionFor(decisions, tasks[i].title, i + 1))
  }

  /** Where a task ends up: completed only by an explicit grant. */
  function FinalState(d: Option<Decision>): TaskState {
    match d
    case None => Waiting
    case Some(Grant) => TaskCompleted
    case Some(DenyAbandon(_)) => Waiting
    case Some(DenyAlternatePath(_)) => Planned
    case Some(TimeOut(_)) => TaskFailed
  }

  function FinalApproval(d: Option<Decision>): ApprovalState {
    if d.None? then Pending else StateAfter(d.value)
  }

  // ---- ids ----

  /** The ids that n creations in a row take. */
  function AllocIds(keys: set<TaskId>, n: nat): (ids: seq<TaskId>)
    ensures |ids| == n
  {
    if n == 0 then []
    else
      var before := AllocIds(keys, n - 1);
      before + [NextId(keys + Elems(before), SESSION)]
  }

  lemma TakeFront(s: seq<TaskId>, x: TaskId, k: nat)
    requires k <= |s|
    ensures (s + [x])[..k] == s[..k]
  {
  }

  lemma {:induction false} AllocPrefix(keys: set<TaskId>, n: nat, k: nat)
    requires k <= n
    ensures AllocIds(keys, n)[..k] == AllocIds(keys, k)
  {
    if k < n {
      AllocPrefix(keys, n - 1, k);
      TakeFront(AllocIds(keys, n - 1), AllocIds(keys, n)[n - 1], k);
    }
  }

  /** They are new and different from each other. */
  lemma {:induction false} AllocNew(keys: set<TaskId>, n: nat)
    ensures NoDup(AllocIds(keys, n))
    ensures forall i :: 0 <= i < n ==> AllocIds(keys, n)[i] !in keys
  {
    if n > 0 {
      AllocNew(keys, n - 1);
      var before := AllocIds(keys, n - 1);
      var next := NextId(keys + Elems(before), SESSION);
      ElemsSnoc(before, next);
    }
  }

  // ---- events ----

  /** The events of one task up to its checkpoint. */
  function Opening(check: ApprovalId): seq<Body> {
    [Progress(Intake, Accepted), StateBody(Planned), StateBody(Running), ApprovalWaiting(check),
      Progress(Plan, ApprovalRequested)]
  }

  /** The transitions that follow a resolution. */
  function FollowUp(d: Decision): seq<TaskState> {
    match d
    case Grant => [Planned, Running, TaskCompleted]
    case DenyAlternatePath(_) => [Planned]
    case _ => []
  }

  function StateBodies(states: seq<TaskState>): seq<Body> {
    seq(|states|, i requires 0 <= i < |states| => StateBody(states[i]))
  }

  /** The events from the resolution on, on a log that has n events before it. */
  function Closing(n: nat, d: Decision): seq<Body> {
    [BodyOf(d, n)] + StateBodies(FollowUp(d))
  }

  function TaskTrace(n: nat, check: ApprovalId, d: Option<Decision>): seq<Body> {
    Opening(check) + if d.None? then [] else Closing(n + 5, d.value)
  }

  /** The events of one task, written out for every decision. */
  lemma TraceWritten(n: nat, check: ApprovalId, d: Option<Decision>)
    ensures var opening := [
        Progress(Intake, Accepted), Progress(Plan, Drafted), Progress(Plan, Ready),
        ApprovalWaiting(check), Progress(Plan, ApprovalRequested)];
      var trace := TaskTrace(n, check, d);
      && (d.None? ==> trace == opening)
      && (d.Some? && d.value.Grant? ==>
            trace == opening + [Resumed(ApprovalGranted, n + 5), Progress(Plan, Drafted), Progress(Plan, Ready),
                                Progress(Execute, ArtifactEmitted)])
      && (d.Some? && d.value.DenyAbandon? ==> trace == opening + [RunCancelled(ApprovalDenied)])
      && (d.Some? && d.value.DenyAlternatePath? ==>
            trace == opening + [Resumed(ApprovalDeniedAlternatePath, n + 5), Progress(Plan, Drafted)])
      && (d == Some(TimeOut(true)) ==> trace == opening + [RunFailed(true)])
      && (d == Some(TimeOut(false)) ==> trace == opening + [RunCancelled(ApprovalTimeout)])
  {
    if d.Some? {
      assert StateBodies(FollowUp(d.value)) ==
        match d.value {
          case Grant => [Progress(Plan, Drafted), Progress(Plan, Ready), Progress(Execute, ArtifactEmitted)]
          case DenyAlternatePath(_) => [Progress(Plan, Drafted)]
          case _ => []
        };
    }
  }

  function Extend(n: nat, run: RunId, before: seq<Body>, id: TaskId, d: Option<Decision>): seq<Body> {
    before + TaskTrace(n + |before|, CheckpointId(run, id), d)
  }

  /** The traces of the tasks one after another, on a log that has n events before them. */
  function AllTraces(n: nat, run: RunId, ids: seq<TaskId>, ds: seq<Option<Decision>>): seq<Body>
    requires |ids| == |ds|
  {
    if ids == [] then []
    else
      var k := |ids| - 1;
      Extend(n, run, AllTraces(n, run, ids[..k], ds[..k]), ids[k], ds[k])
  }

  /** Events of one run with the given bodies, in order. */
  ghost predicate Shaped(added: seq<Event>, run: RunId, bodies: seq<Body>) {
    && |added| == |bodies|
    && forall i :: 0 <= i < |added| ==> added[i].run == run && added[i].body == bodies[i]
  }

  /** `after` is `before` followed by events of one run with the given bodies. Their
      seqs follow from the log being well formed. */
  ghost predicate Grows(before: seq<Event>, after: seq<Event>, run: RunId, bodies: seq<Body>) {
    before <= after && Shaped(after[|before|..], run, bodies)
  }

  /** Approval events other than those of the named approvals are as before. */
  ghost predicate SameElsewhere(before: seq<Event>, after: seq<Event>, checks: set<ApprovalId>) {
    forall a, t :: a !in checks ==> (IdUsed(after, ForApproval(a, t)) <==> IdUsed(before, ForApproval(a, t)))
  }

  /** Growth adds exactly its events to the run's own log, and nothing to any other. */
  lemma {:induction false} GrowsLog(before: seq<Event>, after: seq<Event>, run: RunId, bodies: seq<Body>)
    requires Grows(before, after, run, bodies)
    ensures RowsOf(after, run) == RowsOf(before, run) + after[|before|..]
    ensures forall other :: other != run ==> RowsOf(after, other) == RowsOf(before, other)
  {
    var added := after[|before|..];
    assert before + added == after;
    forall r
      ensures RowsOf(after, r) == RowsOf(before, r) + (if r == run then added else [])
    {
      RowsOfAdded(before, added, run, r);
    }
  }

  lemma GrowsTrans(a: seq<Event>, b: seq<Event>, c: seq<Event>, run: RunId, first: seq<Body>,
      second: seq<Body>)
    requires Grows(a, b, run, first) && Grows(b, c, run, second)
    ensures Grows(a, c, run, first + second)
  {
    assert c[|a|..] == b[|a|..] + c[|b|..];
  }

  /** One event whose id is fresh or belongs to one of the named approvals. */
  lemma OneEvent(before: seq<Event>, after: seq<Event>, e: Event, checks: set<ApprovalId>)
    requires after == before + [e]
    requires e.id.Unique? || (e.id.ForApproval? && e.id.approval in checks)
    ensures Grows(before, after, e.run, [e.body]) && SameElsewhere(before, after, checks)
  {
    assert after[|before|..] == [e];
    forall c, t | c !in checks
      ensures IdUsed(after, ForApproval(c, t)) <==> IdUsed(before, ForApproval(c, t))
    {
      IdUsedSnoc(before, e, ForApproval(c, t));
    }
  }

  /** Whether the two fixed event ids of a task's checkpoint are unused. */
  ghost predicate CheckpointFree(rows: seq<Event>, check: ApprovalId, d: Option<Decision>) {
    && !IdUsed(rows, ForApproval(check, TagWaiting))
    && (d.Some? ==> !IdUsed(rows, ForApproval(check, TagOf(d.value))))
  }

  // ---- one task, on values ----

  /** The tables at one moment. */
  datatype Snapshot = Snapshot(runs: map<RunId, RunState>, rows: seq<Event>, approvals: map<ApprovalId, Approval>,
      tasks: map<TaskId, Task>)

  /** No run and no task but `id` has changed. */
  ghost predicate OnlyTask(s: Snapshot, s': Snapshot, id: TaskId) {
    && s'.runs == s.runs
    && id in s'.tasks && s'.tasks == s.tasks[id := s'.tasks[id]]
  }

  ghost predicate RunClosed(s: Snapshot, run: RunId) {
    TerminalRun(Table(s.runs, s.rows), run)
  }

  /** The run's log and the task have grown, and no approval event but those of `checks`. */
  ghost predicate Progressed(s: Snapshot, s': Snapshot, run: RunId, id: TaskId, bodies: seq<Body>,
      checks: set<ApprovalId>)
  {
    OnlyTask(s, s', id) && Grows(s.rows, s'.rows, run, bodies) && SameElsewhere(s.rows, s'.rows, checks)
  }

  ghost predicate SameApprovalsBut(s: Snapshot, s': Snapshot, check: ApprovalId) {
    check in s'.approvals && s'.approvals == s.approvals[check := s'.approvals[check]]
  }

  /** Up to the checkpoint. */
  ghost predicate Opened(s: Snapshot, s': Snapshot, run: RunId, id: TaskId, task: ScheduledTask) {
    var check := CheckpointId(run, id);
    && Progressed(s, s', run, id, Opening(check), {check})
    && s'.tasks[id] == Task(id, SESSION, task.title, task.objective, Waiting)
    && SameApprovalsBut(s, s', check) && s'.approvals[check].state == Pending
    && forall t :: t != TagWaiting ==>
       (IdUsed(s'.rows, ForApproval(check, t)) <==> IdUsed(s.rows, ForApproval(check, t)))
  }

  /** From the resolution on. */
  ghost predicate Closed(s: Snapshot, s': Snapshot, run: RunId, id: TaskId, d: Decision) {
    var check := CheckpointId(run, id);
    && Progressed(s, s', run, id, Closing(|RowsOf(s.rows, run)|, d), {check})
    && id in s.tasks && s'.tasks[id] == s.tasks[id].(state := FinalState(Some(d)))
    && SameApprovalsBut(s, s', check) && s'.approvals[check].state == StateAfter(d)
  }

  /** A queued task has been taken from creation to the state its decision leads to. */
  ghost predicate Processed(s: Snapshot, s': Snapshot, run: RunId, id: TaskId, task: ScheduledTask,
      d: Option<Decision>)
  {
    var check := CheckpointId(run, id);
    && Progressed(s, s', run, id, TaskTrace(|RowsOf(s.rows, run)|, check, d), {check})
    && s'.tasks[id] == Task(id, SESSION, task.title, task.objective, FinalState(d))
    && SameApprovalsBut(s, s', check) && s'.approvals[check].state == FinalApproval(d)
  }

  lemma ProgressedTrans(s0: Snapshot, s1: Snapshot, s2: Snapshot, run: RunId, id: TaskId,
      first: seq<Body>, second: seq<Body>, c1: set<ApprovalId>, c2: set<ApprovalId>)
    requires Progressed(s0, s1, run, id, first, c1) && Progressed(s1, s2, run, id, second, c2)
    ensures Progressed(s0, s2, run, id, first + second, c1 + c2)
  {
    GrowsTrans(s0.rows, s1.rows, s2.rows, run, first, second);
  }

  lemma OpenedClosed(s0: Snapshot, s1: Snapshot, s2: Snapshot, run: RunId, id: TaskId,
      task: ScheduledTask, d: Decision)
    requires Opened(s0, s1, run, id, task) && Closed(s1, s2, run, id, d)
    ensures Processed(s0, s2, run, id, task, Some(d))
  {
    var check := CheckpointId(run, id);
    GrowsLog(s0.rows, s1.rows, run, Opening(check));
    ProgressedTrans(s0, s1, s2, run, id, Opening(check), Closing(|RowsOf(s1.rows, run)|, d), {check}, {check});
    assert {check} + {check} == {check};
  }

  /** An opened task is ready for its resolution, whose event id is as free as it was. */
  lemma OpenedReady(s0: Snapshot, s1: Snapshot, run: RunId, id: TaskId, task: ScheduledTask,
      d: Decision)
    requires Opened(s0, s1, run, id, task)
    ensures id in s1.tasks && s1.tasks[id].state == Waiting
    ensures CheckpointId(run, id) in s1.approvals && s1.approvals[CheckpointId(run, id)].state == Pending
    ensures RunClosed(s1, run) <==> RunClosed(s0, run)
    ensures IdUsed(s1.rows, ForApproval(CheckpointId(run, id), TagOf(d))) <==>
      IdUsed(s0.rows, ForApproval(CheckpointId(run, id), TagOf(d)))
  {
  }

  lemma OnlyTaskTrans(s0: Snapshot, s1: Snapshot, s2: Snapshot, id: TaskId)
    requires OnlyTask(s0, s1, id) && OnlyTask(s1, s2, id)
    ensures OnlyTask(s0, s2, id)
  {
  }

  lemma OpenedOnly(s0: Snapshot, s1: Snapshot, run: RunId, id: TaskId, task: ScheduledTask)
    requires Opened(s0, s1, run, id, task)
    ensures Processed(s0, s1, run, id, task, None)
  {
    assert Opening(CheckpointId(run, id)) + [] == Opening(CheckpointId(run, id));
  }

  /** A waiting event of the checkpoint and its annotation. */
  lemma CheckpointEvents(rows: seq<Event>, after: seq<Event>, check: ApprovalId)
    requires |after| == |rows| + 2 && rows <= after
    requires var waiting, note := after[|rows|], after[|rows| + 1];
      && waiting.id == ForApproval(check, TagWaiting) && waiting.run == check.run
      && waiting.body == ApprovalWaiting(check)
      && note.id.Unique? && note.run == check.run && note.body == Progress(Plan, ApprovalRequested)
    ensures Grows(rows, after, check.run, [ApprovalWaiting(check), Progress(Plan, ApprovalRequested)])
    ensures SameElsewhere(rows, after, {check})
    ensures forall t :: t != TagWaiting ==>
      (IdUsed(after, ForApproval(check, t)) <==> IdUsed(rows, ForApproval(check, t)))
  {
    var waiting, note := after[|rows|], after[|rows| + 1];
    assert after == rows + [waiting] + [note];
    OneEvent(rows, rows + [waiting], waiting, {check});
    OneEvent(rows + [waiting], after, note, {check});
    GrowsTrans(rows, rows + [waiting], after, check.run, [waiting.body], [note.body]);
    forall t | t != TagWaiting
      ensures IdUsed(after, ForApproval(check, t)) <==> IdUsed(rows, ForApproval(check, t))
    {
      IdUsedSnoc(rows, waiting, ForApproval(check, t));
      IdUsedSnoc(rows + [waiting], note, ForApproval(check, t));
    }
  }

  // ---- task saves ----

  /** A save that creates a draft or takes an allowed transition. */
  predicate LegalWrite(w: TaskWrite) {
    if w.before.None? then w.after.Draft? else Allowed(w.before.value, w.after)
  }

  ghost predicate LegalSince(earlier: seq<TaskWrite>, now: seq<TaskWrite>) {
    earlier <= now && forall i :: |earlier| <= i < |now| ==> LegalWrite(now[i])
  }

  lemma LegalTrans(first: seq<TaskWrite>, second: seq<TaskWrite>, third: seq<TaskWrite>)
    requires LegalSince(first, second) && LegalSince(second, third)
    ensures LegalSince(first, third)
  {
  }
}
